/** Sums of thrust sequences: the one quantity the spacecraft objective and
    constraint depend on. `Sum` folds from the left, one element at a time,
    in the order a `for` loop over the sequence visits it. */
module Sums {

  /** Left fold of `+` over `s`, starting from 0. */
  function Sum(s: seq<real>): (r: real)
  {
    if s == [] then 0.0 else Sum(s[..|s| - 1]) + s[|s| - 1]
  }

  /** Sum distributes over concatenation. */
  lemma {:induction false} SumConcat(a: seq<real>, b: seq<real>)
    ensures Sum(a + b) == Sum(a) + Sum(b)
    decreases |b|
  {
    if b == [] {
      assert a + b == a;
    } else {
      var b' := b[..|b| - 1];
      assert (a + b)[..|a + b| - 1] == a + b';
      SumConcat(a, b');
    }
  }

  /** Removing the element at `j` takes it out of the multiset. */
  lemma MultisetRemoveAt(t: seq<real>, j: nat)
    requires j < |t|
    ensures multiset(t[..j] + t[j + 1..]) == multiset(t) - multiset{t[j]}
  {
    assert t == t[..j] + [t[j]] + t[j + 1..];
  }

  /** Removing the element at `j` takes it out of the sum. */
  lemma SumRemoveAt(t: seq<real>, j: nat)
    requires j < |t|
    ensures Sum(t) == Sum(t[..j] + t[j + 1..]) + t[j]
  {
    var front, x, back := t[..j], t[j], t[j + 1..];
    assert t == (front + [x]) + back;
    SumConcat(front + [x], back);
    SumConcat(front, [x]);
    SumConcat(front, back);
    assert [x][..0] == [];
  }

  /** Reordering the elements does not change the sum. */
  lemma {:induction false} SumPermutation(s: seq<real>, t: seq<real>)
    requires multiset(s) == multiset(t)
    ensures Sum(s) == Sum(t)
    decreases |s|
  {
    if s == [] {
      assert |t| == |multiset(t)| == 0;
    } else {
      var x := s[|s| - 1];
      var s' := s[..|s| - 1];
      assert s == s' + [x];
      assert multiset(s') == multiset(s) - multiset{x};
      assert x in multiset(t);
      var j :| 0 <= j < |t| && t[j] == x;
      MultisetRemoveAt(t, j);
      SumRemoveAt(t, j);
      SumPermutation(s', t[..j] + t[j + 1..]);
    }
  }

  /** Non-negative elements have a non-negative sum. */
  lemma {:induction false} SumNonNegative(s: seq<real>)
    requires forall i :: 0 <= i < |s| ==> 0.0 <= s[i]
    ensures 0.0 <= Sum(s)
  {
    if s != [] {
      SumNonNegative(s[..|s| - 1]);
    }
  }

  /** A sequence of zeros sums to zero. */
  lemma {:induction false} SumOfZeros(s: seq<real>)
    requires forall i :: 0 <= i < |s| ==> s[i] == 0.0
    ensures Sum(s) == 0.0
  {
    if s != [] {
      SumOfZeros(s[..|s| - 1]);
    }
  }

  /** Elements in [0, 1] sum to at most the length, and reach it exactly
      when every element is 1. */
  lemma {:induction false} SumOfUnitInterval(s: seq<real>)
    requires forall i :: 0 <= i < |s| ==> 0.0 <= s[i] <= 1.0
    ensures 0.0 <= Sum(s) <= |s| as real
    ensures Sum(s) == |s| as real <==> forall i :: 0 <= i < |s| ==> s[i] == 1.0
  {
    if s != [] {
      var s' := s[..|s| - 1];
      SumOfUnitInterval(s');
      if Sum(s) == |s| as real {
        assert Sum(s') == |s'| as real && s[|s| - 1] == 1.0;
        forall i | 0 <= i < |s| ensures s[i] == 1.0 {
          if i < |s'| { assert s[i] == s'[i]; }
        }
      }
      if forall i :: 0 <= i < |s| ==> s[i] == 1.0 {
        assert forall i :: 0 <= i < |s'| ==> s'[i] == 1.0;
      }
    }
  }
}
