/**
 * JavaScript values as the client code sees them.  The client compares with
 * `===`, tests truthiness with `!x` and picks defaults with `a || b`; this
 * module gives those three idioms one definition each.  Numbers are modelled
 * as integers (the client only stores ids, counts, timestamps and cents in them).
 */
module Js {

  datatype Option<+T> = None | Some(value: T)

  /** An operation's value, or the message of the error it throws or reports. */
  datatype Result<+T> = Ok(value: T) | Err(message: string)

  datatype Value = Undefined | Null | Bool(b: bool) | Num(n: int) | Str(s: string)

  /** JavaScript truthiness: `undefined`, `null`, `false`, `0` and `''` are falsy. */
  predicate Truthy(v: Value) {
    match v
    case Undefined => false
    case Null => false
    case Bool(b) => b
    case Num(n) => n != 0
    case Str(s) => s != ""
  }

  /** `undefined` and `null`, the two values `x ?? y` and `x != null` treat alike. */
  predicate Nullish(v: Value) {
    v.Undefined? || v.Null?
  }

  /** The string a server reply carries in an optional text field; `None` when absent. */
  predicate TruthyText(m: Option<string>) {
    m.Some? && m.value != ""
  }

  /** `message || fallback` on an optional string field. */
  function TextOr(m: Option<string>, fallback: string): (r: string)
    ensures TruthyText(m) ==> r == m.value
    ensures !TruthyText(m) ==> r == fallback
  {
    if m.Some? && m.value != "" then m.value else fallback
  }

  /** `n || 0` on an optional numeric field: an absent count reads as zero. */
  function CountOrZero(n: Option<int>): (r: int)
    ensures n.None? ==> r == 0
    ensures n.Some? ==> r == n.value
  {
    match n
    case None => 0
    case Some(k) => k
  }
}
