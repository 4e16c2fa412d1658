/**
 * The request handler behind the gate: it rewrites an authorized request
 * for the backend and maps the backend's answer to the caller's response.
 * The backend is an oracle `send(request)`: `None` stands for a
 * connection error (`httpx.ConnectError`), `Some(reply)` for the status
 * line and headers it answered with. Headers are maps with lower-case names.
 */
module Proxy {
  import opened Results
  import opened TokenCache
  import opened Gateway

  /** The media type used when the backend names none. */
  const DefaultMediaType: string := "application/json"

  /** The detail sent with a 502 on a connection error. */
  const UnreachableDetail: string := "Cannot connect to Ollama"

  /** An inbound request; `path` is the route's path parameter, without its leading slash. */
  datatype Request = Request(verb: string, path: string, headers: map<string, string>, body: seq<bv8>)

  /**
   * The arguments given to the HTTP client to build the backend request:
   * verb, URL relative to the backend's base URL, headers and body. The
   * client adds its own `host`, `content-length` and default headers.
   */
  datatype ForwardedRequest = ForwardedRequest(verb: string, url: string, headers: map<string, string>, body: seq<bv8>)

  /** What the backend answered before its body. */
  datatype BackendReply = BackendReply(status: int, headers: map<string, string>)

  /** What the caller receives: a refusal, or the backend's streamed answer. */
  datatype Response =
    | Refused(status: int, detail: string)
    | Streamed(status: int, mediaType: string)

  /** The inbound `Authorization` header, if present. */
  function AuthorizationHeader(headers: map<string, string>): (r: Option<string>)
    ensures r.None? <==> "authorization" !in headers
    ensures r.Some? ==> r.value == headers["authorization"]
  {
    if "authorization" in headers then Some(headers["authorization"]) else None
  }

  /**
   * The inbound headers with `host` and `content-length` popped: a copy of
   * the map, then two removals that do nothing when the key is absent.
   */
  method ForwardHeaders(inbound: map<string, string>) returns (forward: map<string, string>)
    ensures forward.Keys == inbound.Keys - {"host", "content-length"}
    ensures forall k :: k in forward ==> forward[k] == inbound[k]
  {
    forward := inbound;
    forward := forward - {"host"};
    forward := forward - {"content-length"};
  }

  /** `fwd` is `req` rewritten for the backend: same verb and body, "/" + path, the connection headers stripped. */
  ghost predicate IsForwardOf(fwd: ForwardedRequest, req: Request) {
    && fwd.verb == req.verb
    && fwd.body == req.body
    && |fwd.url| == |req.path| + 1 && fwd.url[0] == '/' && fwd.url[1..] == req.path
    && fwd.headers.Keys == req.headers.Keys - {"host", "content-length"}
    && forall k :: k in fwd.headers ==> fwd.headers[k] == req.headers[k]
  }

  /** The media type of the caller's response: the backend's `content-type`, else the default. */
  function MediaType(replyHeaders: map<string, string>): (mediaType: string)
    ensures "content-type" in replyHeaders ==> mediaType == replyHeaders["content-type"]
    ensures "content-type" !in replyHeaders ==> mediaType == DefaultMediaType
  {
    if "content-type" in replyHeaders then replyHeaders["content-type"] else DefaultMediaType
  }

  /**
   * Forwards an authorized request: builds the backend request and answers
   * with 502 on a connection error, otherwise with the backend's status
   * and media type.
   */
  method ProxyOllama(req: Request, send: ForwardedRequest -> Option<BackendReply>)
    returns (fwd: ForwardedRequest, resp: Response)
    ensures IsForwardOf(fwd, req)
    ensures send(fwd).None? ==> resp == Refused(502, UnreachableDetail)
    ensures send(fwd).Some? ==> resp.Streamed? && resp.status == send(fwd).value.status
    ensures send(fwd).Some? && "content-type" in send(fwd).value.headers ==>
      resp.mediaType == send(fwd).value.headers["content-type"]
    ensures send(fwd).Some? && "content-type" !in send(fwd).value.headers ==>
      resp.mediaType == DefaultMediaType
  {
    var url := "/" + req.path;
    var headers := ForwardHeaders(req.headers);
    fwd := ForwardedRequest(req.verb, url, headers, req.body);
    var reply := send(fwd);
    if reply.None? {
      return fwd, Refused(502, UnreachableDetail);
    }
    resp := Streamed(reply.value.status, MediaType(reply.value.headers));
  }

  /**
   * One request end to end: the gate first; only an authorized request is
   * forwarded, and a refused one is answered with the refusal's status and
   * detail.
   */
  method HandleRequest(cache: Store, req: Request, now: int, sweepNow: int,
                       directory: (string, string) -> bool, send: ForwardedRequest -> Option<BackendReply>)
    returns (resp: Response, forwarded: Option<ForwardedRequest>, consulted: bool)
    modifies cache
    ensures var step := Authorize(old(cache.entries), AuthorizationHeader(req.headers), now, sweepNow, directory);
      && cache.entries == step.entries
      && consulted == step.consulted
      && (forwarded.Some? <==> step.decision == Authorized)
      && (step.decision != Authorized ==>
            resp == Refused(DenialStatus(step.decision), DenialDetail(step.decision)))
    ensures forwarded.Some? ==> IsForwardOf(forwarded.value, req)
    ensures forwarded.Some? && send(forwarded.value).None? ==> resp == Refused(502, UnreachableDetail)
    ensures forwarded.Some? && send(forwarded.value).Some? ==>
      resp == Streamed(send(forwarded.value).value.status, MediaType(send(forwarded.value).value.headers))
  {
    var decision;
    decision, consulted := VerifyTokenSplit(cache, AuthorizationHeader(req.headers), now, sweepNow, directory);
    if decision != Authorized {
      return Refused(DenialStatus(decision), DenialDetail(decision)), None, consulted;
    }
    var fwd;
    fwd, resp := ProxyOllama(req, send);
    forwarded := Some(fwd);
  }

  /** The headers handed to the HTTP client never carry the caller's `host` or `content-length`. */
  lemma ForwardDropsConnectionHeaders(fwd: ForwardedRequest, req: Request)
    requires IsForwardOf(fwd, req)
    ensures "host" !in fwd.headers && "content-length" !in fwd.headers
    ensures forall k :: k in req.headers && k != "host" && k != "content-length" ==>
      k in fwd.headers && fwd.headers[k] == req.headers[k]
  {
  }
}
