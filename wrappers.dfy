/** Option and Result, the two failure-carrying shapes the model uses for PHP's
    nullable values and for thrown exceptions. */
module Wrappers {

  /** A PHP value that may be `null`. */
  datatype Option<+T> = None | Some(value: T) {
    /** PHP's `$this ?? $other`: the left operand unless it is null. */
    function OrElse(other: Option<T>): Option<T> {
      if Some? then this else other
    }
  }

  /** The result of PHP code that either returns a value or throws an
      exception carrying a message. */
  datatype Result<+R, +E> = Ok(value: R) | Err(error: E)

  /** The first non-null entry of a list of candidates, or null when every
      candidate is null. */
  function FirstPresent<T>(s: seq<Option<T>>): (r: Option<T>)
    ensures r.None? <==> forall k :: 0 <= k < |s| ==> s[k].None?
  {
    if s == [] then None
    else if s[0].Some? then s[0]
    else
      assert forall k :: 1 <= k < |s| ==> s[k] == s[1..][k - 1];
      FirstPresent(s[1..])
  }

  /** The first non-null entry is the one every earlier entry is null
      before. */
  lemma {:induction false} FirstPresentAt<T>(s: seq<Option<T>>, i: nat)
    requires i < |s| && s[i].Some?
    requires forall k :: 0 <= k < i ==> s[k].None?
    ensures FirstPresent(s) == s[i]
  {
    if i > 0 {
      FirstPresentAt(s[1..], i - 1);
    }
  }

  /** A chain `a ?? b ?? c` is the first non-null of `a`, `b`, `c`: null
      operands are skipped and the first present one is the value. */
  lemma {:induction false} OrElseChainIsFirstPresent<T>(a: Option<T>, b: Option<T>, c: Option<T>)
    ensures a.OrElse(b).OrElse(c) == FirstPresent([a, b, c])
  {
    var s := [a, b, c];
    if a.Some? {
      FirstPresentAt(s, 0);
    } else if b.Some? {
      FirstPresentAt(s, 1);
    } else if c.Some? {
      FirstPresentAt(s, 2);
    }
  }
}
