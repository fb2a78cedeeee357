/** Facts about sequences that more than one component needs. */
module Sequences {
  /** Concatenation of a sequence of sequences, peeled from the back because the model's logs grow there. */
  function Flat<T>(ss: seq<seq<T>>): seq<T> {
    if |ss| == 0 then [] else Flat(ss[..|ss| - 1]) + ss[|ss| - 1]
  }

  lemma {:induction false} FlatConcat<T>(a: seq<seq<T>>, b: seq<seq<T>>)
    ensures Flat(a + b) == Flat(a) + Flat(b)
  {
    if |b| == 0 {
      assert a + b == a;
    } else {
      var front := b[..|b| - 1];
      FlatConcat(a, front);
      assert (a + b)[..|a + b| - 1] == a + front;
    }
  }

  lemma {:induction false} FlatCons<T>(a: seq<T>, b: seq<seq<T>>)
    ensures Flat([a] + b) == a + Flat(b)
  {
    FlatConcat([a], b);
    assert [a][..0] == [];
  }

  lemma {:induction false} FlatSnoc<T>(ss: seq<seq<T>>, last: seq<T>)
    ensures Flat(ss + [last]) == Flat(ss) + last
  {
    assert (ss + [last])[..|ss|] == ss;
  }

  /** A bound on every part bounds the whole. */
  lemma {:induction false} FlatLength<T>(ss: seq<seq<T>>, bound: nat)
    requires forall k :: 0 <= k < |ss| ==> |ss[k]| <= bound
    ensures |Flat(ss)| <= |ss| * bound
  {
    if |ss| > 0 {
      FlatLength(ss[..|ss| - 1], bound);
      assert |ss| * bound == (|ss| - 1) * bound + bound;
    }
  }

  function Sum<T>(ts: seq<T>, size: T -> nat): nat {
    if |ts| == 0 then 0 else Sum(ts[..|ts| - 1], size) + size(ts[|ts| - 1])
  }

  lemma {:induction false} UpdateFront<T>(ts: seq<T>, i: nat, t: T)
    requires i < |ts| - 1
    ensures ts[i := t][..|ts| - 1] == ts[..|ts| - 1][i := t] && ts[i := t][|ts| - 1] == ts[|ts| - 1]
  {
  }

  /** Replacing one element moves the total by the difference. */
  lemma {:induction false} SumUpdate<T>(ts: seq<T>, i: nat, t: T, size: T -> nat)
    requires i < |ts|
    ensures Sum(ts[i := t], size) == Sum(ts, size) - size(ts[i]) + size(t)
  {
    var last := |ts| - 1;
    if i == last {
      assert ts[i := t][..last] == ts[..last];
    } else {
      SumUpdate(ts[..last], i, t, size);
      assert ts[i := t][..last] == ts[..last][i := t];
    }
  }

  lemma {:induction false} SumBound<T>(ts: seq<T>, size: T -> nat, bound: nat)
    requires forall i :: 0 <= i < |ts| ==> size(ts[i]) <= bound
    ensures Sum(ts, size) <= |ts| * bound
    ensures forall i :: 0 <= i < |ts| ==> size(ts[i]) <= Sum(ts, size)
  {
    if |ts| > 0 {
      SumBound(ts[..|ts| - 1], size, bound);
      assert |ts| * bound == (|ts| - 1) * bound + bound;
      forall i | 0 <= i < |ts| - 1 ensures size(ts[i]) <= Sum(ts, size) {
        assert ts[i] == ts[..|ts| - 1][i];
      }
    }
  }

  function Total(xs: seq<real>): real { if |xs| == 0 then 0.0 else Total(xs[..|xs| - 1]) + xs[|xs| - 1] }

  lemma {:induction false} SumOfNothing<T>(ts: seq<T>, size: T -> nat)
    requires forall i :: 0 <= i < |ts| ==> size(ts[i]) == 0
    ensures Sum(ts, size) == 0
  {
    if |ts| > 0 {
      SumOfNothing(ts[..|ts| - 1], size);
    }
  }
}
