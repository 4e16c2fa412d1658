/**
 * The gate each request passes before it is forwarded: header checks, then
 * the cache, then the directory, then the cache write. The directory is an
 * oracle `directory(username, password)`; the request time `now` and the
 * sweep's own time reading `sweepNow` are inputs.
 */
module Gateway {
  import opened Results
  import opened Token
  import opened TokenCache

  /** The outcome of the gate for one request. */
  datatype Decision =
    | Authorized
    | SyntaxDenied(error: SyntaxError)  // refused before the cache and the directory
    | InvalidCredential                 // the directory refused the bind

  /** The HTTP status a refusal is reported with; an authorized request goes on to the backend. */
  function DenialStatus(d: Decision): (code: int)
    requires !d.Authorized?
    ensures code == 401 <==> d == SyntaxDenied(MissingCredential)
    ensures code == 403 <==> d == InvalidCredential
    ensures code == 400 <==> d.SyntaxDenied? && d.error != MissingCredential
  {
    match d
    case SyntaxDenied(MissingCredential) => 401
    case SyntaxDenied(_) => 400
    case InvalidCredential => 403
  }

  /** The detail text sent with a refusal. */
  function DenialDetail(d: Decision): (detail: string)
    requires !d.Authorized?
    ensures detail == "Missing API Key" <==> d == SyntaxDenied(MissingCredential)
    ensures detail == "API Key too long" <==> d == SyntaxDenied(CredentialTooLong)
    ensures detail == "Invalid API Key Format. Must be 'username:password' (alphanumeric only)"
            <==> d == SyntaxDenied(MalformedCredential)
    ensures detail == "Invalid Username or Password" <==> d == InvalidCredential
  {
    match d
    case SyntaxDenied(MissingCredential) => "Missing API Key"
    case SyntaxDenied(CredentialTooLong) => "API Key too long"
    case SyntaxDenied(MalformedCredential) =>
      "Invalid API Key Format. Must be 'username:password' (alphanumeric only)"
    case InvalidCredential => "Invalid Username or Password"
  }

  /** The directory accepts the username and password that `token` splits into. */
  predicate Accepts(directory: (string, string) -> bool, token: string) {
    ':' in token && directory(SplitCredential(token).0, SplitCredential(token).1)
  }

  /** One pass through the gate: its decision, the cache after it, and whether the directory was asked. */
  datatype AuthStep = AuthStep(decision: Decision, entries: map<string, int>, consulted: bool)

  /** What one request does to the cache and what it decides. */
  function Authorize(entries: map<string, int>, header: Option<string>, now: int, sweepNow: int,
                     directory: (string, string) -> bool): AuthStep
  {
    match CheckHeader(header)
    case Failure(e) => AuthStep(SyntaxDenied(e), entries, false)
    case Success(raw) =>
      if IsFresh(entries, raw, now) then
        AuthStep(Authorized, entries, false)
      else
        var missed := entries - {raw};
        ValidTokenSplits(raw);
        if Accepts(directory, raw) then
          AuthStep(Authorized, Swept(missed[raw := now + CacheTtl], sweepNow), true)
        else
          AuthStep(InvalidCredential, missed, true)
  }

  /**
   * The gate run against the cache object: `now` is read once and used for
   * both the lookup and the insert; the sweep after an insert uses `sweepNow`.
   */
  method VerifyTokenSplit(cache: Store, header: Option<string>, now: int, sweepNow: int,
                          directory: (string, string) -> bool)
    returns (decision: Decision, consulted: bool)
    modifies cache
    ensures AuthStep(decision, cache.entries, consulted)
         == Authorize(old(cache.entries), header, now, sweepNow, directory)
  {
    var checked := CheckHeader(header);
    if checked.Failure? {
      return SyntaxDenied(checked.error), false;
    }
    var raw := checked.value;
    var hit := cache.Lookup(raw, now);
    if hit {
      return Authorized, false;
    }
    ValidTokenSplits(raw);
    var (username, password) := SplitCredential(raw);
    if directory(username, password) {
      cache.Insert(raw, now);
      assert cache.entries == (old(cache.entries) - {raw})[raw := now + CacheTtl];
      cache.Sweep(sweepNow);
      return Authorized, true;
    }
    return InvalidCredential, true;
  }

  /**
   * A header refused by the syntax checks is answered with 401 or 400, the
   * directory is not asked and the cache is not touched.
   */
  lemma SyntaxRejectionIsFinal(entries: map<string, int>, header: Option<string>, now: int, sweepNow: int,
                               directory: (string, string) -> bool)
    requires CheckHeader(header).Failure?
    ensures var step := Authorize(entries, header, now, sweepNow, directory);
      && step.decision == SyntaxDenied(CheckHeader(header).error)
      && DenialStatus(step.decision) in {400, 401}
      && step.entries == entries
      && !step.consulted
  {
  }

  /** A fresh cache entry authorizes without the directory and without changing the cache. */
  lemma FreshHitSkipsDirectory(entries: map<string, int>, header: Option<string>, now: int, sweepNow: int,
                               directory: (string, string) -> bool)
    requires CheckHeader(header).Success? && IsFresh(entries, CheckHeader(header).value, now)
    ensures Authorize(entries, header, now, sweepNow, directory) == AuthStep(Authorized, entries, false)
  {
  }

  /**
   * On a miss (no entry, or one whose expiry is not after `now`) the directory
   * decides; a success maps the token to `now + CacheTtl` before the sweep, a
   * failure is a 403 that leaves the token out of the cache and every other
   * entry as it was.
   */
  lemma MissConsultsDirectory(entries: map<string, int>, header: Option<string>, now: int, sweepNow: int,
                              directory: (string, string) -> bool)
    requires CheckHeader(header).Success? && !IsFresh(entries, CheckHeader(header).value, now)
    ensures var raw := CheckHeader(header).value;
      var step := Authorize(entries, header, now, sweepNow, directory);
      && step.consulted
      && (step.decision == Authorized <==> Accepts(directory, raw))
      && (Accepts(directory, raw) ==> step.entries == Swept(entries[raw := now + CacheTtl], sweepNow))
      && (!Accepts(directory, raw) ==>
            step.decision == InvalidCredential && DenialStatus(step.decision) == 403
            && raw !in step.entries && step.entries == entries - {raw})
  {
    var raw := CheckHeader(header).value;
    assert (entries - {raw})[raw := now + CacheTtl] == entries[raw := now + CacheTtl];
  }

  /**
   * The token just authorized stays cached with expiry `now + CacheTtl`
   * unless the sweep reads a time past that expiry.
   */
  lemma SuccessIsCached(entries: map<string, int>, header: Option<string>, now: int, sweepNow: int,
                        directory: (string, string) -> bool)
    requires CheckHeader(header).Success?
    requires !IsFresh(entries, CheckHeader(header).value, now)
    requires Accepts(directory, CheckHeader(header).value)
    requires sweepNow <= now + CacheTtl
    ensures var raw := CheckHeader(header).value;
      var step := Authorize(entries, header, now, sweepNow, directory);
      raw in step.entries && step.entries[raw] == now + CacheTtl
  {
  }

  /**
   * No negative caching: after a 403 for a token, the next request with the
   * same header, at any time, asks the directory again, and is authorized
   * exactly when the directory now accepts.
   */
  lemma DenialIsNotRemembered(entries: map<string, int>, header: Option<string>, now: int, sweepNow: int,
                              directory: (string, string) -> bool,
                              later: int, laterSweep: int, laterDirectory: (string, string) -> bool)
    requires Authorize(entries, header, now, sweepNow, directory).decision == InvalidCredential
    ensures var retry := Authorize(Authorize(entries, header, now, sweepNow, directory).entries,
                                   header, later, laterSweep, laterDirectory);
      && retry.consulted
      && (retry.decision == Authorized <==> Accepts(laterDirectory, CheckHeader(header).value))
  {
  }

  /** Every cached token passes the pattern and is one the directory accepted. */
  ghost predicate Vouched(entries: map<string, int>, directory: (string, string) -> bool) {
    forall k :: k in entries ==> TokenPattern(k) && Accepts(directory, k)
  }

  /** The gate keeps the cache vouched for: it only ever adds tokens the directory accepted. */
  lemma AuthorizeKeepsCacheVouched(entries: map<string, int>, header: Option<string>, now: int, sweepNow: int,
                                   directory: (string, string) -> bool)
    requires Vouched(entries, directory)
    ensures Vouched(Authorize(entries, header, now, sweepNow, directory).entries, directory)
  {
  }

  /** Every cached expiry lies at most one TTL after the clock reading `latest`. */
  ghost predicate ExpiriesWithin(entries: map<string, int>, latest: int) {
    forall k :: k in entries ==> entries[k] <= latest + CacheTtl
  }

  /**
   * Trust is time-bounded: when every expiry is at most one TTL after an
   * earlier reading `latest`, after a request at `now` every expiry is at
   * most one TTL after `now`, because an insert stores `now + CacheTtl`.
   */
  lemma AuthorizeKeepsExpiriesWithin(entries: map<string, int>, header: Option<string>, now: int, sweepNow: int,
                                     directory: (string, string) -> bool, latest: int)
    requires ExpiriesWithin(entries, latest) && latest <= now
    ensures ExpiriesWithin(Authorize(entries, header, now, sweepNow, directory).entries, now)
  {
  }

  /**
   * Once a full TTL has passed since the latest verification, a well-formed
   * request is checked against the directory again.
   */
  lemma StaleTrustIsRechecked(entries: map<string, int>, header: Option<string>, now: int, sweepNow: int,
                              directory: (string, string) -> bool, latest: int)
    requires ExpiriesWithin(entries, latest) && latest + CacheTtl <= now
    requires CheckHeader(header).Success?
    ensures Authorize(entries, header, now, sweepNow, directory).consulted
  {
  }

  /** The two clock readings of one request. */
  datatype Tick = Tick(now: int, sweepNow: int)

  /** Directory calls made and the cache left behind by a series of requests. */
  datatype Replayed = Replayed(calls: nat, entries: map<string, int>)

  /** The same header sent once per tick, in order, against one cache. */
  function Replay(entries: map<string, int>, header: Option<string>, ticks: seq<Tick>,
                  directory: (string, string) -> bool): Replayed
    decreases |ticks|
  {
    if ticks == [] then
      Replayed(0, entries)
    else
      var step := Authorize(entries, header, ticks[0].now, ticks[0].sweepNow, directory);
      var rest := Replay(step.entries, header, ticks[1..], directory);
      Replayed(rest.calls + (if step.consulted then 1 else 0), rest.entries)
  }

  /** While a token's entry is fresh, repeating the request never reaches the directory or changes the cache. */
  lemma {:induction false} FreshEntryServesReplay(entries: map<string, int>, header: Option<string>,
                                                  ticks: seq<Tick>, directory: (string, string) -> bool)
    requires CheckHeader(header).Success? && CheckHeader(header).value in entries
    requires forall i :: 0 <= i < |ticks| ==> ticks[i].now < entries[CheckHeader(header).value]
    ensures Replay(entries, header, ticks, directory) == Replayed(0, entries)
  {
    if ticks != [] {
      FreshEntryServesReplay(entries, header, ticks[1..], directory);
    }
  }

  /**
   * Identical requests within one TTL window ask the directory at most once
   * when it accepts the credential: the first miss caches the token until at
   * least the end of the window, and every later request hits.
   */
  lemma {:induction false} AtMostOneDirectoryCall(entries: map<string, int>, header: Option<string>,
                                                  ticks: seq<Tick>, directory: (string, string) -> bool, start: int)
    requires CheckHeader(header).Success? && Accepts(directory, CheckHeader(header).value)
    requires forall i :: 0 <= i < |ticks| ==>
      start <= ticks[i].now < start + CacheTtl && ticks[i].sweepNow <= ticks[i].now + CacheTtl
    ensures Replay(entries, header, ticks, directory).calls <= 1
  {
    if ticks != [] {
      var raw := CheckHeader(header).value;
      var step := Authorize(entries, header, ticks[0].now, ticks[0].sweepNow, directory);
      if IsFresh(entries, raw, ticks[0].now) {
        AtMostOneDirectoryCall(entries, header, ticks[1..], directory, start);
      } else {
        SuccessIsCached(entries, header, ticks[0].now, ticks[0].sweepNow, directory);
        FreshEntryServesReplay(step.entries, header, ticks[1..], directory);
      }
    }
  }
}
