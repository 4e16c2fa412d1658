/**
 * The syntactic half of the authentication gate: extracting the bearer
 * token from the `Authorization` header, bounding its length, checking it
 * against the token pattern `^[a-zA-Z0-9_-]+:[a-zA-Z0-9_-]+$` and splitting
 * it into username and password at its first colon.
 *
 * Everything here is pure: no cache, no directory, no clock.
 */
module Token {
  import opened Results

  /** The literal prefix the header must start with (case-sensitive, one space). */
  const BearerPrefix: string := "Bearer "

  /** Tokens longer than this are refused before the pattern is tried. */
  const MaxTokenLength: nat := 256

  /** Why a header was refused before any directory call. */
  datatype SyntaxError =
    | MissingCredential    // no header, or no "Bearer " prefix: 401
    | CredentialTooLong    // more than MaxTokenLength characters: 400
    | MalformedCredential  // not two runs joined by one colon: 400

  /** A character of the class `[a-zA-Z0-9_-]`. */
  predicate IsTokenChar(c: char) {
    ('a' <= c <= 'z') || ('A' <= c <= 'Z') || ('0' <= c <= '9') || c == '_' || c == '-'
  }

  /** A non-empty run of token characters: `[a-zA-Z0-9_-]+`. */
  predicate IsRun(s: string) {
    |s| > 0 && forall i :: 0 <= i < |s| ==> IsTokenChar(s[i])
  }

  /**
   * The token pattern as the regular expression reads: the whole string is
   * a run, a colon, and another run.
   */
  ghost predicate TokenPattern(t: string) {
    exists i :: 0 <= i < |t| && t[i] == ':' && IsRun(t[..i]) && IsRun(t[i + 1..])
  }

  /** The index of the first colon of `s`, if there is one. */
  function FirstColon(s: string): (r: Option<nat>)
    ensures r.Some? ==> r.value < |s| && s[r.value] == ':'
    ensures r.Some? ==> forall j :: 0 <= j < r.value ==> s[j] != ':'
    ensures r.None? <==> ':' !in s
  {
    if s == [] then None
    else if s[0] == ':' then Some(0)
    else match FirstColon(s[1..])
      case None => None
      case Some(i) => Some(i + 1)
  }

  /**
   * The executable pattern test: the text before the first colon and the
   * text after it are both runs.
   */
  predicate MatchesTokenPattern(t: string) {
    match FirstColon(t)
    case None => false
    case Some(i) => IsRun(t[..i]) && IsRun(t[i + 1..])
  }

  /** The executable test accepts exactly the strings the pattern describes. */
  lemma PatternCheckIsExact(t: string)
    ensures MatchesTokenPattern(t) <==> TokenPattern(t)
  {
    if MatchesTokenPattern(t) {
      var i := FirstColon(t).value;
      assert t[i] == ':' && IsRun(t[..i]) && IsRun(t[i + 1..]);
    }
    if TokenPattern(t) {
      var i :| 0 <= i < |t| && t[i] == ':' && IsRun(t[..i]) && IsRun(t[i + 1..]);
      var j := FirstColon(t).value;
      assert !(j < i) by {
        // every character before i is a token character, never a colon
        assert forall k :: 0 <= k < i ==> t[k] == t[..i][k];
      }
      assert j == i;
    }
  }

  /**
   * The longest prefix of `s` without a space: the first field of
   * `s.split(" ")`.
   */
  function UpToSpace(s: string): (r: string)
    ensures r <= s
    ensures ' ' !in r
    ensures |r| < |s| ==> s[|r|] == ' '
  {
    if s == [] || s[0] == ' ' then [] else [s[0]] + UpToSpace(s[1..])
  }

  /**
   * `header.split(" ")[1]` for a header that starts with "Bearer ": the
   * text after the prefix, up to the next space or the end.
   */
  function RawToken(header: string): string
    requires BearerPrefix <= header
  {
    UpToSpace(header[|BearerPrefix|..])
  }

  /** The second field of the space-split header is the text after the prefix up to the next space. */
  lemma RawTokenIsSecondField(header: string)
    requires BearerPrefix <= header
    ensures var raw := RawToken(header);
      && header[..|BearerPrefix| + |raw|] == BearerPrefix + raw
      && ' ' !in raw
      && (|BearerPrefix| + |raw| == |header| || header[|BearerPrefix| + |raw|] == ' ')
  {
    var rest := header[|BearerPrefix|..];
    var raw := UpToSpace(rest);
    assert header == BearerPrefix + rest;
    assert raw == rest[..|raw|];
  }

  /**
   * The header checks, in the order the gate applies them: prefix, then
   * length, then pattern. On success the result is the raw token.
   */
  function CheckHeader(header: Option<string>): (r: Result<string, SyntaxError>)
    ensures r == Failure(MissingCredential) <==> header.None? || !(BearerPrefix <= header.value)
    ensures r == Failure(CredentialTooLong) <==>
      header.Some? && BearerPrefix <= header.value && |RawToken(header.value)| > MaxTokenLength
    ensures r == Failure(MalformedCredential) <==>
      header.Some? && BearerPrefix <= header.value && |RawToken(header.value)| <= MaxTokenLength
      && !TokenPattern(RawToken(header.value))
    ensures r.Success? ==> header.Some? && BearerPrefix <= header.value && r.value == RawToken(header.value)
    ensures r.Success? ==> |r.value| <= MaxTokenLength && TokenPattern(r.value)
  {
    // an empty header is falsy and is refused like a missing one
    if header.None? || header.value == "" || !(BearerPrefix <= header.value) then
      Failure(MissingCredential)
    else
      var raw := RawToken(header.value);
      if |raw| > MaxTokenLength then
        Failure(CredentialTooLong)
      else
        PatternCheckIsExact(raw);
        if !MatchesTokenPattern(raw) then Failure(MalformedCredential)
        else Success(raw)
  }

  /** `token.split(":", 1)`: the text before the first colon and the text after it. */
  function SplitCredential(token: string): (parts: (string, string))
    requires ':' in token
    ensures parts.0 + ":" + parts.1 == token
    ensures ':' !in parts.0
  {
    var i := FirstColon(token).value;
    assert token == token[..i] + ":" + token[i + 1..];
    (token[..i], token[i + 1..])
  }

  /**
   * A token that passes the pattern splits into a non-empty username and a
   * non-empty password, neither holding a colon, that join back into it.
   */
  lemma ValidTokenSplits(token: string)
    requires TokenPattern(token)
    ensures ':' in token
    ensures var (username, password) := SplitCredential(token);
      && IsRun(username) && IsRun(password)
      && ':' !in username && ':' !in password
      && username + ":" + password == token
  {
    PatternCheckIsExact(token);
    var i := FirstColon(token).value;
    assert token[i] == ':';
    var (username, password) := SplitCredential(token);
    assert username == token[..i] && password == token[i + 1..];
  }
}
