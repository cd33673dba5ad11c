/** Scans over a sequence that keep the first, or the last, value a function yields. */
module Scans {
  import opened Wrappers

  /** What f gives the first element of xs for which it gives something. */
  function FirstPresent<S, T>(xs: seq<S>, f: S -> Option<T>): Option<T>
    decreases |xs|
  {
    if |xs| == 0 then None
    else
      var here := f(xs[0]);
      if here.Some? then here else FirstPresent(xs[1..], f)
  }

  lemma FirstPresentSpec<S, T>(xs: seq<S>, f: S -> Option<T>)
    ensures FirstPresent(xs, f).None? <==> forall i :: 0 <= i < |xs| ==> f(xs[i]).None?
    ensures FirstPresent(xs, f).Some? ==>
              exists i :: 0 <= i < |xs| && f(xs[i]) == FirstPresent(xs, f)
                && forall j :: 0 <= j < i ==> f(xs[j]).None?
  {
    FirstPresentNone(xs, f);
    if FirstPresent(xs, f).Some? {
      var i := FirstPresentAt(xs, f);
    }
  }

  lemma {:induction false} FirstPresentNone<S, T>(xs: seq<S>, f: S -> Option<T>)
    ensures FirstPresent(xs, f).None? <==> forall i :: 0 <= i < |xs| ==> f(xs[i]).None?
    decreases |xs|
  {
    if |xs| > 0 {
      var rest := xs[1..];
      FirstPresentNone(rest, f);
      assert forall i :: 1 <= i < |xs| ==> xs[i] == rest[i - 1];
    }
  }

  /** The position the first present value comes from. */
  lemma {:induction false} FirstPresentAt<S, T>(xs: seq<S>, f: S -> Option<T>) returns (i: nat)
    requires FirstPresent(xs, f).Some?
    ensures i < |xs| && f(xs[i]) == FirstPresent(xs, f)
    ensures forall j :: 0 <= j < i ==> f(xs[j]).None?
    decreases |xs|
  {
    if f(xs[0]).Some? {
      i := 0;
    } else {
      var rest := xs[1..];
      var k := FirstPresentAt(rest, f);
      assert rest[k] == xs[k + 1];
      i := k + 1;
      forall j | 0 <= j < i
        ensures f(xs[j]).None?
      {
        if j > 0 {
          assert rest[j - 1] == xs[j];
        }
      }
    }
  }

  /** The first index from i on at which f gives something, with what it gives. */
  function FirstIndexFrom<S, T>(xs: seq<S>, f: S -> Option<T>, i: nat): (r: Option<(nat, T)>)
    requires i <= |xs|
    ensures r.Some? ==> i <= r.value.0 < |xs| && f(xs[r.value.0]) == Some(r.value.1)
                        && forall j :: i <= j < r.value.0 ==> f(xs[j]).None?
    ensures r.None? ==> forall j :: i <= j < |xs| ==> f(xs[j]).None?
    decreases |xs| - i
  {
    if i == |xs| then None
    else match f(xs[i])
      case Some(v) => Some((i, v))
      case None => FirstIndexFrom(xs, f, i + 1)
  }

  /** The least position from p to n at which f gives something, as a search tries start positions. */
  function LeftmostFrom<T>(f: nat -> Option<T>, p: nat, n: nat): (r: Option<nat>)
    requires p <= n
    ensures r.Some? ==> p <= r.value <= n && f(r.value).Some? && forall q :: p <= q < r.value ==> f(q).None?
    ensures r.None? ==> forall q :: p <= q <= n ==> f(q).None?
    decreases n - p
  {
    if f(p).Some? then Some(p) else if p == n then None else LeftmostFrom(f, p + 1, n)
  }

  /** f gives nothing on the first j elements, stated step by step for a loop invariant. */
  predicate NoneBefore<S, T>(xs: seq<S>, f: S -> Option<T>, j: nat)
    requires j <= |xs|
  {
    j == 0 || (NoneBefore(xs, f, j - 1) && f(xs[j - 1]).None?)
  }

  lemma {:induction false} NoneBeforeAll<S, T>(xs: seq<S>, f: S -> Option<T>, j: nat)
    requires j <= |xs| && NoneBefore(xs, f, j)
    ensures forall k :: 0 <= k < j ==> f(xs[k]).None?
  {
    if j > 0 {
      NoneBeforeAll(xs, f, j - 1);
    }
  }

  /** The first index at which f gives something is the one after a prefix on which it gives nothing. */
  lemma FirstIndexIs<S, T>(xs: seq<S>, f: S -> Option<T>, j: nat)
    requires j < |xs| && f(xs[j]).Some?
    requires forall k :: 0 <= k < j ==> f(xs[k]).None?
    ensures FirstIndexFrom(xs, f, 0) == Some((j, f(xs[j]).value))
  {
    var r := FirstIndexFrom(xs, f, 0);
    assert r.Some?;
    assert r.value.0 == j;
  }

  /** Skipping a prefix on which f gives nothing does not change the first value. */
  lemma {:induction false} FirstPresentSkip<S, T>(xs: seq<S>, f: S -> Option<T>, i: nat)
    requires i <= |xs|
    requires forall j :: 0 <= j < i ==> f(xs[j]).None?
    ensures FirstPresent(xs, f) == FirstPresent(xs[i..], f)
    decreases i
  {
    if i > 0 {
      assert xs[1..][i - 1..] == xs[i..];
      FirstPresentSkip(xs[1..], f, i - 1);
    }
  }

  /** What f gives the last element of xs for which it gives something. */
  function LastPresent<S, T>(xs: seq<S>, f: S -> Option<T>): Option<T>
    decreases |xs|
  {
    if |xs| == 0 then None
    else
      var here := f(xs[|xs| - 1]);
      if here.Some? then here else LastPresent(xs[..|xs| - 1], f)
  }

  lemma LastPresentSpec<S, T>(xs: seq<S>, f: S -> Option<T>)
    ensures LastPresent(xs, f).None? <==> forall i :: 0 <= i < |xs| ==> f(xs[i]).None?
    ensures LastPresent(xs, f).Some? ==>
              exists i :: 0 <= i < |xs| && f(xs[i]) == LastPresent(xs, f)
                && forall j :: i < j < |xs| ==> f(xs[j]).None?
  {
    LastPresentNone(xs, f);
    if LastPresent(xs, f).Some? {
      var i := LastPresentAt(xs, f);
    }
  }

  lemma {:induction false} LastPresentNone<S, T>(xs: seq<S>, f: S -> Option<T>)
    ensures LastPresent(xs, f).None? <==> forall i :: 0 <= i < |xs| ==> f(xs[i]).None?
    decreases |xs|
  {
    if |xs| > 0 {
      var n := |xs| - 1;
      var init := xs[..n];
      LastPresentNone(init, f);
      assert forall i :: 0 <= i < n ==> init[i] == xs[i];
    }
  }

  /** The position the last present value comes from. */
  lemma {:induction false} LastPresentAt<S, T>(xs: seq<S>, f: S -> Option<T>) returns (i: nat)
    requires LastPresent(xs, f).Some?
    ensures i < |xs| && f(xs[i]) == LastPresent(xs, f)
    ensures forall j :: i < j < |xs| ==> f(xs[j]).None?
    decreases |xs|
  {
    var n := |xs| - 1;
    if f(xs[n]).Some? {
      i := n;
    } else {
      var init := xs[..n];
      i := LastPresentAt(init, f);
      assert init[i] == xs[i];
      forall j | i < j < |xs|
        ensures f(xs[j]).None?
      {
        if j < n {
          assert init[j] == xs[j];
        }
      }
    }
  }
}
