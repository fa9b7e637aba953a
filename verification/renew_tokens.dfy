/**
 * `renewTokens` of frontend/src/utils/RenewTokens.jsx: decide from the
 * three auth cookies whether the session is usable, asking the server for
 * fresh tokens when either JWT expires within five minutes.  The cookies,
 * the JWT decoder, the clock and the server's reply are parameters.
 */
module RenewTokens {
  import opened Js

  /** Renewal is requested this many seconds before expiry. */
  const RenewWindow := 300

  /** The part of a decoded JWT the decision reads: its `exp` claim, absent or a number of seconds. */
  datatype Jwt = Jwt(exp: Option<int>)

  /** The reply to the renewal request: the `status` of its body, or an error thrown by `fetch` or `json()`. */
  datatype RenewReply = Replied(status: Value) | RenewThrew

  /** The outcome: whether the session is usable, and whether the server was asked. */
  datatype Renewal = Renewal(ok: bool, calledServer: bool)

  /** `exp <= currentTime + 300`; a missing `exp` compares as `undefined`, which is never `<=`. */
  predicate ExpiresSoon(t: Jwt, nowSec: int) {
    t.exp.Some? && t.exp.value <= nowSec + RenewWindow
  }

  /** `Math.floor(Date.now() / 1000)`. */
  function Seconds(nowMs: int): (s: int)
    ensures s * 1000 <= nowMs < s * 1000 + 1000
  {
    nowMs / 1000
  }

  /**
   * The decision.  `decode` is `jwtDecode`, with `None` where it throws.
   */
  function Renew(accessToken: Option<string>, idToken: Option<string>, refreshToken: Option<string>,
                 decode: string -> Option<Jwt>, nowMs: int, reply: RenewReply): (r: Renewal)
    ensures !TruthyText(accessToken) || !TruthyText(idToken) || !TruthyText(refreshToken) ==>
              r == Renewal(false, false)
    ensures TruthyText(accessToken) && TruthyText(idToken) && TruthyText(refreshToken) ==>
              var a := decode(accessToken.value);
              var i := decode(idToken.value);
              && (a.None? || i.None? ==> r == Renewal(false, false))
              && (a.Some? && i.Some? ==>
                    && (r.calledServer <==> ExpiresSoon(a.value, Seconds(nowMs)) || ExpiresSoon(i.value, Seconds(nowMs)))
                    && (r.ok <==> !r.calledServer || reply == Replied(Str("SUCCESS"))))
  {
    if !TruthyText(accessToken) || !TruthyText(idToken) || !TruthyText(refreshToken) then Renewal(false, false)
    else
      match (decode(accessToken.value), decode(idToken.value))
      case (Some(a), Some(i)) =>
        var t := Seconds(nowMs);
        if ExpiresSoon(a, t) || ExpiresSoon(i, t) then
          (match reply
           case Replied(status) => Renewal(status == Str("SUCCESS"), true)
           case RenewThrew => Renewal(false, true))
        else Renewal(true, false)
      case _ => Renewal(false, false)
  }

  /**
   * Time only moves renewal closer: tokens that need renewal now still need
   * it at any later time.
   */
  lemma RenewalMonotone(accessToken: Option<string>, idToken: Option<string>, refreshToken: Option<string>,
                        decode: string -> Option<Jwt>, nowMs: int, laterMs: int, reply: RenewReply)
    requires nowMs <= laterMs
    requires Renew(accessToken, idToken, refreshToken, decode, nowMs, reply).calledServer
    ensures Renew(accessToken, idToken, refreshToken, decode, laterMs, reply).calledServer
  {
    assert Seconds(nowMs) <= Seconds(laterMs);
  }

  /** Tokens valid beyond the window are accepted without a server round trip, whatever the server would say. */
  lemma FreshTokensSkipServer(accessToken: string, idToken: string, refreshToken: string,
                              decode: string -> Option<Jwt>, nowMs: int, reply: RenewReply)
    requires accessToken != "" && idToken != "" && refreshToken != ""
    requires decode(accessToken).Some? && decode(idToken).Some?
    requires decode(accessToken).value.exp.Some? && decode(accessToken).value.exp.value > Seconds(nowMs) + RenewWindow
    requires decode(idToken).value.exp.Some? && decode(idToken).value.exp.value > Seconds(nowMs) + RenewWindow
    ensures Renew(Some(accessToken), Some(idToken), Some(refreshToken), decode, nowMs, reply) == Renewal(true, false)
  {
  }
}
