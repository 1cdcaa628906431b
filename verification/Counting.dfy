/** How many elements of a sequence are true. */
module Counting {

  ghost function Ones(m: seq<bool>): nat {
    if |m| == 0 then 0 else (if m[0] then 1 else 0) + Ones(m[1..])
  }

  lemma {:induction false} OnesUpdate(m: seq<bool>, i: nat, v: bool)
    requires i < |m|
    ensures Ones(m[i := v]) == Ones(m) - (if m[i] then 1 else 0) + (if v then 1 else 0)
  {
    if i == 0 {
      assert m[i := v][1..] == m[1..];
    } else {
      assert m[i := v][1..] == m[1..][i - 1 := v];
      OnesUpdate(m[1..], i - 1, v);
    }
  }

  /** A subset has at most as many elements, and has as many only when it is the whole set. */
  lemma {:induction false} OnesSubset(a: seq<bool>, b: seq<bool>)
    requires |a| == |b| && forall i :: 0 <= i < |a| && a[i] ==> b[i]
    ensures Ones(a) <= Ones(b)
    ensures Ones(a) == Ones(b) ==> a == b
  {
    if |a| > 0 {
      OnesSubset(a[1..], b[1..]);
      if Ones(a) == Ones(b) {
        assert a[0] == b[0];
        assert a == [a[0]] + a[1..] && b == [b[0]] + b[1..];
      }
    }
  }

  lemma {:induction false} OnesNone(m: seq<bool>)
    requires forall i :: 0 <= i < |m| ==> !m[i]
    ensures Ones(m) == 0
  {
    if |m| > 0 { OnesNone(m[1..]); }
  }

  lemma {:induction false} OnesBound(m: seq<bool>)
    ensures Ones(m) <= |m|
  {
    if |m| > 0 { OnesBound(m[1..]); }
  }

  lemma OnesZero(m: seq<bool>)
    ensures Ones(m) == 0 <==> forall i :: 0 <= i < |m| ==> !m[i]
  {
  }
}
