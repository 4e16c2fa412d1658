# Ollama LDAP authentication gateway — Dafny model

This project models the authentication gate of a reverse proxy that sits in front of an Ollama model server. A caller sends `Authorization: Bearer <username>:<password>`. The gate then does four things:

- It checks the token's syntax.
- It consults a time-bounded cache that maps the raw token to an expiry instant.
- On a cache miss it asks the LDAP directory to bind with the credential.
- If the directory accepts, it caches the token for `CACHE_TTL` seconds. Once the cache holds more than 1000 entries, it sweeps out the expired ones.

Only authorized requests are forwarded. The forwarded request has the path prefixed with `/`, the same verb and body, and the inbound headers minus `host` and `content-length`. The caller's response takes the backend's status and `content-type`, with `application/json` as the fallback. A connection error (`httpx.ConnectError`) gives 502.

Modules:

- `Results` (`results.dfy`): Option and Result.
- `Token` (`token.dfy`): the pure header checks. The prefix test, `split(" ")[1]`, the 256-character bound, the token pattern and `split(":", 1)` are functions. The pattern is given twice: once as the regular expression reads (`TokenPattern`) and once as an executable first-colon test (`MatchesTokenPattern`). A lemma proves the two agree.
- `TokenCache` (`cache.dfy`): the cache as a class `Store` whose `entries: map<string, int>` field its methods update in place. Lookup deletes an expired entry, Insert stores `now + CacheTtl`, and Sweep is a loop deleting the collected expired keys. The reference function `Swept` states what the sweep leaves.
- `Gateway` (`gateway.dfy`): `Authorize` specifies one pass through the gate: its decision, the cache after it, and whether the directory was consulted. The imperative `VerifyTokenSplit` runs the same steps against a `Store`, and its postcondition ties it to `Authorize`. `Replay` runs the same header once per tick, so properties over several requests can be stated.
- `Proxy` (`proxy.dfy`): header, URL and media-type rewriting, and the end-to-end handler.

Inputs that stand for the outside world:

- `now` is the request's clock reading (main.py:74). `sweepNow` is the sweep's own reading (main.py:34). Both are whole seconds.
- `directory(username, password)` is the bind result of `verify_ldap_dynamic`.
- `send(request)` is the backend: `None` is a connection failure.
- `consulted` is an extra output that makes visible whether the directory was called.

Behaviours of the source worth knowing:

- A missing header, or one without the `Bearer ` prefix, is answered with 401 (main.py:64-65).
- The forwarded URL is `"/" + path`, so the query string is not sent to the backend (main.py:94, 101).
- The token is split into username and password only after the cache lookup (main.py:82).

## Model

| member | source | states |
|---|---|---|
| Token.FirstColon | main.py:82 | the index returned holds a colon and no earlier index does; `None` exactly when the string has no colon |
| Token.PatternCheckIsExact | main.py:31 | the first-colon test accepts a string if and only if it is a `[a-zA-Z0-9_-]+` run, one colon and another run (both directions) |
| Token.UpToSpace | main.py:66 | the result is a prefix of the input, holds no space, and is followed by a space unless it is the whole input (the longest space-free prefix) |
| Token.RawTokenIsSecondField | main.py:66 | the raw token is exactly the text between the `Bearer ` prefix and the next space or the end of the header, and holds no space |
| Token.CheckHeader | main.py:63-72 | 401 exactly when the header is absent or lacks `Bearer `; too long exactly when the prefixed token exceeds 256 characters, whatever the pattern says; malformed exactly when it is within 256 characters and fails the pattern; success returns the raw token, which fits the bound and matches the pattern |
| Token.SplitCredential | main.py:82 | the username, a colon and the password join back into the token, and the username holds no colon |
| Token.ValidTokenSplits | main.py:71-82 | a token that matches the pattern splits into two non-empty `[a-zA-Z0-9_-]` runs, neither holding a colon, whose join with `:` is the token |
| TokenCache.SweepBelowThresholdIsNoOp | main.py:35 | with at most 1000 entries the sweep leaves the cache unchanged |
| TokenCache.SweepRemovesExactlyExpired | main.py:33-38 | above 1000 entries the sweep removes exactly the keys whose expiry is strictly before the sweep time, and every surviving entry keeps its expiry |
| TokenCache.BoundaryEntrySurvivesSweep | main.py:36-38 | an entry whose expiry equals the sweep time survives the sweep, while a lookup at that same time already treats it as expired (strict `<` at line 77) |
| TokenCache.Store.constructor | main.py:29 | the cache starts empty |
| TokenCache.Store.Lookup | main.py:74-80 | hit exactly when the token is cached with `now` before its expiry; a hit changes nothing; a miss deletes the token's entry, if any, and nothing else |
| TokenCache.Store.Insert | main.py:85 | the token now maps to `now + CacheTtl`, overwriting any earlier entry; other entries are unchanged |
| TokenCache.Store.Sweep | main.py:33-38 | the loop that deletes the collected keys leaves exactly `Swept(old entries, sweepNow)` |
| Gateway.DenialDetail | main.py:65-89 | "Missing API Key" exactly for a missing credential, "API Key too long" exactly for an over-long token, "Invalid Username or Password" exactly for a directory refusal, and "Invalid API Key Format. Must be 'username:password' (alphanumeric only)" exactly for a malformed token |
| Gateway.DenialStatus | main.py:65-89 | 401 exactly for a missing credential, 403 exactly for a directory refusal, and 400 exactly for a too-long or malformed token |
| Gateway.VerifyTokenSplit | main.py:59-89 | the decision, the new cache and whether the directory was called are exactly those of the `Authorize` specification at the request time `now` and sweep time `sweepNow` |
| Gateway.SyntaxRejectionIsFinal | main.py:63-72 | a header refused by the syntax checks gives 400 or 401, leaves the cache unchanged, and the directory is not called |
| Gateway.FreshHitSkipsDirectory | main.py:74-78 | a token cached with `now` before its expiry is authorized, the directory is not called, and the cache is unchanged |
| Gateway.MissConsultsDirectory | main.py:79-89 | on a miss the directory is called. The request is authorized exactly when the directory accepts the split credential. On success the cache becomes the sweep of the old cache with the token mapped to `now + CacheTtl`. On failure the result is 403, the token is not cached, and every other entry is unchanged |
| Gateway.SuccessIsCached | main.py:84-86 | after a successful directory check the token maps to `now + CacheTtl`, provided the sweep's time reading is not past that expiry |
| Gateway.DenialIsNotRemembered | main.py:84-89 | after a 403 the same header, at any later time, consults the directory again and is authorized exactly when the directory then accepts (no negative caching) |
| Gateway.AuthorizeKeepsExpiriesWithin | main.py:74-85 | if every cached expiry is at most one TTL after an earlier clock reading, then after a request at `now` every expiry is at most `now + CacheTtl`, because the insert stores the time read before the bind plus the TTL |
| Gateway.StaleTrustIsRechecked | main.py:74-84 | once a full TTL has passed since the latest clock reading that bounds every expiry, a well-formed request always reaches the directory again |
| Gateway.AuthorizeKeepsCacheVouched | main.py:84-86 | if every cached token matches the pattern and is accepted by the directory, this stays true after any request |
| Gateway.FreshEntryServesReplay | main.py:74-78 | while a token's entry has not expired, any number of repeated requests call the directory zero times and leave the cache unchanged |
| Gateway.AtMostOneDirectoryCall | main.py:74-87 | Take identical requests whose clock readings lie in one TTL window `[start, start + CacheTtl)`, each with a sweep reading no later than its own reading plus `CacheTtl`, and a directory that accepts the credential. They call the directory at most once in total, from any starting cache |
| Proxy.AuthorizationHeader | main.py:63 | `None` exactly when the lower-case `authorization` key is absent, otherwise that header's value |
| Proxy.MediaType | main.py:119 | the backend's `content-type` when it sent one, otherwise `application/json` |
| Proxy.ForwardHeaders | main.py:97-99 | the forwarded headers are the inbound headers minus `host` and `content-length`, and every other header keeps its value |
| Proxy.ProxyOllama | main.py:92-120 | the forwarded request has the same verb and body, the URL `"/" + path`, and the stripped headers. A connection error (`httpx.ConnectError`) gives 502. Otherwise the response carries the backend's status and its `content-type`, or `application/json` when there is none |
| Proxy.HandleRequest | main.py:91-120 | the gate runs first and its cache effect is that of `Authorize`. A request is forwarded exactly when the gate authorizes it. A refusal is answered with its status (401, 400 or 403) and detail |
| Proxy.ForwardDropsConnectionHeaders | main.py:97-101 | the headers handed to the HTTP client never carry the caller's `host` or `content-length`, and carry every other inbound header, including `authorization`, with its value unchanged |

## Left out

- The LDAP client (main.py:40-57): the distinguished name `cn=<user>,ou=users,<base>`, the connection, bind/unbind and the exception handling are a foreign library call over the network. They are reduced to the boolean oracle `directory`, which in the model does not change between the ticks of one `Replay`.
- The httpx client and the response body (main.py:93, 101-114). The model stops at the arguments given to `build_request`; the client itself adds its own `host` (the backend's address), a `content-length` where the body or verb calls for one, and its default headers. Sending, `stream=True`, chunk-by-chunk streaming and closing the client are network I/O. A response is modelled by its status and media type only. A connection error (`httpx.ConnectError`) is the `None` answer of `send`, giving 502. Other errors raised by `send`, such as a connect or read timeout (the client's limit is 300 s), are not caught by the source, become a 500, and are not modelled.
- FastAPI routing, `Depends`, CORS, `uvicorn.run` and reading configuration from the environment (main.py:12-28, 122-123) are plumbing. The route accepts only GET, POST, PUT, DELETE and OPTIONS (main.py:91): other verbs get 405 before the gate runs, and the CORS middleware answers preflight OPTIONS requests without the gate, whereas `HandleRequest` accepts any verb. `CacheTtl` is an arbitrary positive number of seconds (the source's default is 1800); the backend base URL is not modelled.
- Times: `time.time()` returns a float. Here both clock readings are whole-second integer inputs.
- Concurrency: the cache is a module-level dict shared by concurrent requests without a lock. Each request is modelled as one atomic step on an owned `Store`.
- The regular expression engine: Python's `$` also matches before a trailing newline. The pattern is modelled as the character-class predicate without that case.
- Header maps: names are taken as lower-case keys with one value each. Repeated headers and the case-insensitive lookup of `Authorization` are not modelled.
- Deletion order in the sweep: `Store.Sweep` deletes the collected keys in an unspecified order. The source deletes them in dict order, and the resulting cache is the same either way.
