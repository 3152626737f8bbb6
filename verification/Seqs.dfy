/** Sequence vocabulary shared by the models: options, suffixes, filters and sums. */
module Seqs {

  datatype Option<+T> = None | Some(value: T)

  lemma FullPrefix<T>(s: seq<T>)
    ensures s[..|s|] == s
  {
  }

  lemma Associate<T>(a: seq<T>, b: seq<T>, c: seq<T>)
    ensures a + (b + c) == a + b + c
  {
  }

  /** The last `min(n, |s|)` elements of `s`: what a list trimmed to `n` elements keeps. */
  function Suffix<T>(s: seq<T>, n: nat): (r: seq<T>)
    ensures |r| == if |s| <= n then |s| else n
  {
    if |s| <= n then s else s[|s| - n..]
  }

  /** Appending to a trimmed list and trimming again is trimming the whole list. */
  lemma SuffixAppend<T>(s: seq<T>, n: nat, x: T)
    ensures Suffix(Suffix(s, n) + [x], n) == Suffix(s + [x], n)
  {
  }

  /** The same, for a list that drops its first element once it is over the limit. */
  lemma TrimStep<T>(s: seq<T>, n: nat, x: T)
    requires n > 0
    ensures var h := Suffix(s, n) + [x];
            Suffix(s + [x], n) == if |h| > n then h[1..] else h
  {
  }

  /** The elements of `s` that satisfy `p`, in order. */
  function Filter<T>(p: T -> bool, s: seq<T>): (r: seq<T>)
    ensures |r| <= |s|
    ensures forall x | x in r :: x in s && p(x)
    ensures forall x | x in s && p(x) :: x in r
  {
    if s == [] then []
    else
      var last := s[|s| - 1];
      Filter(p, s[..|s| - 1]) + (if p(last) then [last] else [])
  }

  lemma FilterNone<T>(p: T -> bool, s: seq<T>)
    requires s == []
    ensures Filter(p, s) == []
  {
  }

  lemma FilterStep<T>(p: T -> bool, s: seq<T>, k: nat)
    requires k < |s|
    ensures Filter(p, s[..k + 1]) == if p(s[k]) then Filter(p, s[..k]) + [s[k]] else Filter(p, s[..k])
  {
    assert s[..k + 1][..k] == s[..k];
  }

  lemma {:induction false} FilterConcat<T>(p: T -> bool, s: seq<T>, t: seq<T>)
    ensures Filter(p, s + t) == Filter(p, s) + Filter(p, t)
  {
    if t == [] {
      assert s + t == s;
    } else {
      var init := t[..|t| - 1];
      var last := if p(t[|t| - 1]) then [t[|t| - 1]] else [];
      assert (s + t)[..|s + t| - 1] == s + init;
      FilterConcat(p, s, init);
      Associate(Filter(p, s), Filter(p, init), last);
    }
  }

  function Sum(s: seq<real>): real {
    if s == [] then 0.0 else Sum(s[..|s| - 1]) + s[|s| - 1]
  }

  lemma SumOne(x: real)
    ensures Sum([x]) == x
  {
    assert [x][..0] == [];
  }

  /** A sum is that of its parts. */
  lemma {:induction false} SumParts(a: seq<real>, b: seq<real>)
    ensures Sum(a + b) == Sum(a) + Sum(b)
  {
    if b == [] {
      assert a + b == a;
    } else {
      var init := b[..|b| - 1];
      assert (a + b)[..|a + b| - 1] == a + init;
      SumParts(a, init);
    }
  }

  /** A list of elements that are each at least `c`, or each less, adds up to at least, or less than, as many times `c`. */
  lemma {:induction false} SumBounds(s: seq<real>, c: real)
    ensures (forall i | 0 <= i < |s| :: s[i] >= c) ==> Sum(s) >= c * |s| as real
    ensures s != [] && (forall i | 0 <= i < |s| :: s[i] < c) ==> Sum(s) < c * |s| as real
  {
    if s == [] {
    } else {
      var init := s[..|s| - 1];
      assert c * |s| as real == c * |init| as real + c;
      SumBounds(init, c);
    }
  }

  // ----- counting -----

  predicate Distinct<T(==)>(s: seq<T>) {
    forall k, l | 0 <= k < l < |s| :: s[k] != s[l]
  }

  predicate Increasing(s: seq<nat>) {
    forall k, l | 0 <= k < l < |s| :: s[k] < s[l]
  }

  lemma EmptyDistinct<T>(s: seq<T>)
    requires s == []
    ensures Distinct(s)
  {
  }

  lemma DistinctAppend<T>(s: seq<T>, x: T)
    requires Distinct(s) && x !in s
    ensures Distinct(s + [x])
  {
  }

  lemma DistinctPrefix<T>(s: seq<T>, k: nat)
    requires Distinct(s) && k < |s|
    ensures s[k] !in s[..k]
  {
  }

  function Elements<T(==)>(s: seq<T>): (r: set<T>) {
    set x | x in s
  }

  /** The naturals below `n`. */
  function Below(n: nat): (r: set<nat>)
    ensures |r| == n
    ensures forall i: nat :: i in r <==> i < n
  {
    if n == 0 then {} else Below(n - 1) + {n - 1}
  }

  lemma {:induction false} DistinctSize<T>(s: seq<T>)
    requires Distinct(s)
    ensures |Elements(s)| == |s|
  {
    if |s| == 0 {
    } else {
      var init, last := s[..|s| - 1], s[|s| - 1];
      DistinctPrefix(s, |s| - 1);
      assert Distinct(init);
      hide Distinct;
      DistinctSize(init);
      assert s == init + [last];
      assert Elements(s) == Elements(init) + {last};
    }
  }

  lemma {:induction false} SubsetSize<T>(a: set<T>, b: set<T>)
    requires a <= b
    ensures |a| <= |b|
    ensures |a| == |b| ==> a == b
    decreases a
  {
    if a == {} {
    } else {
      var x :| x in a;
      SubsetSize(a - {x}, b - {x});
    }
  }

  /** Distinct naturals below a bound cannot be more than the bound, and fill it when as many. */
  lemma PigeonHole(s: seq<nat>, n: nat)
    requires Distinct(s)
    requires forall k | 0 <= k < |s| :: s[k] < n
    ensures |s| <= n
    ensures |s| == n ==> forall i: nat | i < n :: i in s
  {
    DistinctSize(s);
    SubsetSize(Elements(s), Below(n));
    if |s| == n {
      forall i: nat | i < n
        ensures i in s
      {
        assert i in Elements(s);
      }
    }
  }
}
