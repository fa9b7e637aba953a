/**
 * The client's forms validate with a chain of `if (bad) { setError(msg); return; }`
 * blocks: the first failing check decides the message and nothing is sent.
 * `FirstFailure` is that policy stated over an explicit list of checks; each
 * form's own validator is proved equal to it on the form's list.
 */
module Validation {
  import opened Js

  /** One link of a chain: whether the check fails on the form, and what it then reports. */
  datatype Check = Check(fails: bool, message: string)

  /** The message of the first failing check, or `None` when every check passes. */
  function FirstFailure(checks: seq<Check>): (r: Option<string>)
    ensures r.None? <==> forall i :: 0 <= i < |checks| ==> !checks[i].fails
    ensures r.Some? ==> exists k :: (0 <= k < |checks| && checks[k].fails
      && r.value == checks[k].message
      && forall j :: 0 <= j < k ==> !checks[j].fails)
    decreases |checks|
  {
    if |checks| == 0 then None
    else if checks[0].fails then Some(checks[0].message)
    else
      var rest := FirstFailure(checks[1..]);
      assert forall i :: 1 <= i < |checks| ==> checks[i] == checks[1..][i - 1];
      rest
  }

  /** Checks ahead of the first failure never influence the message; a failing head wins outright. */
  lemma FirstFailureHead(c: Check, rest: seq<Check>)
    ensures c.fails ==> FirstFailure([c] + rest) == Some(c.message)
    ensures !c.fails ==> FirstFailure([c] + rest) == FirstFailure(rest)
  {
    assert ([c] + rest)[1..] == rest;
  }
}
