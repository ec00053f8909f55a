/** The session guard run by the `user` query: decides from the stored token, its decoded expiry,
    the clock and the user-info answer whether the visitor stays signed in. */
module SessionGuard {
  import opened Wrappers

  /** What `jwtDecode` hands back; only `exp` (seconds since the epoch) is read. */
  datatype Payload = Payload(exp: Option<real>)

  /** How the user-info request ends: an HTTP answer with its status, or a rejected `fetch`
      (connection refused, DNS failure, ...) carrying the rejection's message. */
  datatype Answer = Status(code: int) | Rejected(reason: string)

  /** Why the query failed; each case carries the message thrown. A rejected request propagates
      the rejection unchanged out of `await apiCall(...)`. */
  datatype Failure = NoToken | InvalidToken | FailedToFetchUserInfo | RequestRejected(reason: string)

  function Message(f: Failure): string {
    match f
    case NoToken => "No token"
    case InvalidToken => "Invalid token"
    case FailedToFetchUserInfo => "Failed to fetch user info"
    case RequestRejected(reason) => reason
  }

  /** A stored token counts only when it is present and not empty. */
  predicate HasToken(token: Option<string>) { token.Some? && token.value != "" }

  /** `decoded.exp && decoded.exp < now`, with `now = Date.now() / 1000`: a missing or zero `exp`
      never expires, and the comparison is strict. */
  predicate Expired(p: Payload, nowMs: int) {
    p.exp.Some? && p.exp.value != 0.0 && p.exp.value < nowMs as real / 1000.0
  }

  /** How the query ends. */
  datatype Verdict = Accept | Reject(failure: Failure)

  /** The decision `queryFn` takes. `decode` stands for `jwtDecode` (`None` when it throws) and
      `answer` for the outcome of the user-info request. */
  function Decide(token: Option<string>, decode: string -> Option<Payload>, nowMs: int, answer: Answer): Verdict {
    if !HasToken(token) then Reject(NoToken)
    else if decode(token.value).None? || Expired(decode(token.value).value, nowMs) then Reject(InvalidToken)
    else if answer.Rejected? then Reject(RequestRejected(answer.reason))
    else if answer.code != 200 then Reject(FailedToFetchUserInfo)
    else Accept
  }

  /** Whether the user-info request is sent at all. */
  predicate ReachesRequest(token: Option<string>, decode: string -> Option<Payload>, nowMs: int) {
    HasToken(token) && decode(token.value).Some? && !Expired(decode(token.value).value, nowMs)
  }

  /** The redirects to "/" a run makes: none on success or when the request is rejected (nothing
      catches it), two for an expired token (the `throw` inside `try` lands in the `catch`, which
      redirects again), one otherwise. */
  function Redirects(token: Option<string>, decode: string -> Option<Payload>, nowMs: int, answer: Answer): seq<string> {
    match Decide(token, decode, nowMs, answer)
    case Accept => []
    case Reject(RequestRejected(_)) => []
    case Reject(_) =>
      if HasToken(token) && decode(token.value).Some? && Expired(decode(token.value).value, nowMs)
      then ["/", "/"] else ["/"]
  }

  /** The data is returned exactly when the token is present, decodes, has not expired and the
      user-info status is 200; a failure with an HTTP answer or a token problem always redirects. */
  lemma AcceptExactly(token: Option<string>, decode: string -> Option<Payload>, nowMs: int, answer: Answer)
    ensures Decide(token, decode, nowMs, answer) == Accept <==>
      HasToken(token) && decode(token.value).Some? && !Expired(decode(token.value).value, nowMs) && answer == Status(200)
    ensures Redirects(token, decode, nowMs, answer) == [] <==>
      Decide(token, decode, nowMs, answer) == Accept || (ReachesRequest(token, decode, nowMs) && answer.Rejected?)
  {
  }

  /** A rejected user-info request fails the query with the rejection itself, without a redirect;
      the token stays stored (see `Session.QueryFn`). */
  lemma RejectedRequestNoRedirect(token: Option<string>, decode: string -> Option<Payload>, nowMs: int, reason: string)
    requires ReachesRequest(token, decode, nowMs)
    ensures Decide(token, decode, nowMs, Rejected(reason)) == Reject(RequestRejected(reason))
    ensures Message(Decide(token, decode, nowMs, Rejected(reason)).failure) == reason
    ensures Redirects(token, decode, nowMs, Rejected(reason)) == []
  {
  }

  /** An expired token ends as "Invalid token", not "Token expired". */
  lemma ExpiredReportsInvalid(token: Option<string>, decode: string -> Option<Payload>, nowMs: int, answer: Answer)
    requires HasToken(token) && decode(token.value).Some? && Expired(decode(token.value).value, nowMs)
    ensures Decide(token, decode, nowMs, answer) == Reject(InvalidToken)
    ensures Message(Decide(token, decode, nowMs, answer).failure) == "Invalid token"
    ensures Redirects(token, decode, nowMs, answer) == ["/", "/"]
    ensures !ReachesRequest(token, decode, nowMs)
  {
  }

  /** A token whose expiry equals now, or that carries no or a zero expiry, is still valid. */
  lemma ExpiryBoundary(exp: Option<real>, nowMs: int)
    requires exp.None? || exp == Some(0.0) || exp == Some(nowMs as real / 1000.0)
    ensures !Expired(Payload(exp), nowMs)
  {
  }

  /** The user-info answer is consulted only after the token has been accepted. */
  lemma StatusIrrelevantBeforeRequest(token: Option<string>, decode: string -> Option<Payload>, nowMs: int, s1: Answer, s2: Answer)
    requires !ReachesRequest(token, decode, nowMs)
    ensures Decide(token, decode, nowMs, s1) == Decide(token, decode, nowMs, s2)
    ensures Decide(token, decode, nowMs, s1).Reject?
  {
  }

  /** The browser state the guard touches: the `token` entry of `localStorage`, the router's
      replacements, and the user-info requests sent. */
  class Session {
    var storedToken: Option<string>
    var redirects: seq<string>
    var infoRequests: nat

    constructor (token: Option<string>)
      ensures storedToken == token && redirects == [] && infoRequests == 0
    {
      storedToken := token;
      redirects := [];
      infoRequests := 0;
    }

    /** One run of `queryFn` (there is a single attempt: `retry: false`). */
    method QueryFn<D>(decode: string -> Option<Payload>, nowMs: int, answer: Answer, data: D) returns (r: Result<D, string>)
      modifies this
      ensures var v := Decide(old(storedToken), decode, nowMs, answer);
        && (v == Accept ==> r == Ok(data))
        && (v.Reject? ==> r == Err(Message(v.failure)))
        && storedToken == (if v == Accept || v == Reject(NoToken) || (v.Reject? && v.failure.RequestRejected?)
                           then old(storedToken) else None)
      ensures redirects == old(redirects) + Redirects(old(storedToken), decode, nowMs, answer)
      ensures infoRequests == old(infoRequests) + (if ReachesRequest(old(storedToken), decode, nowMs) then 1 else 0)
    {
      var token := storedToken;
      if !HasToken(token) {
        redirects := redirects + ["/"];
        return Err("No token");
      }
      var decoded := decode(token.value);
      if decoded.None? {
        storedToken := None;
        redirects := redirects + ["/"];
        return Err("Invalid token");
      }
      if Expired(decoded.value, nowMs) {
        storedToken := None;
        redirects := redirects + ["/"];
        // the "Token expired" error is caught by the surrounding `catch`
        storedToken := None;
        redirects := redirects + ["/"];
        return Err("Invalid token");
      }
      infoRequests := infoRequests + 1;
      if answer.Rejected? {
        // the rejection leaves `await apiCall(...)` outside any `try`
        return Err(answer.reason);
      }
      if answer.code != 200 {
        storedToken := None;
        redirects := redirects + ["/"];
        return Err("Failed to fetch user info");
      }
      return Ok(data);
    }
  }
}
