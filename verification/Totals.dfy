/** Sums over sequences and the sizes of index sets: the bookkeeping behind the counting theorems. */
module Totals {
  import opened Seqs

  function SumOf<T>(f: T -> nat, s: seq<T>): nat {
    if s == [] then 0 else SumOf(f, s[..|s| - 1]) + f(s[|s| - 1])
  }

  lemma SumAppend<T>(f: T -> nat, s: seq<T>, x: T)
    ensures SumOf(f, s + [x]) == SumOf(f, s) + f(x)
  {
    assert (s + [x])[..|s|] == s;
  }

  lemma {:induction false} SumConcat<T>(f: T -> nat, s: seq<T>, t: seq<T>)
    ensures SumOf(f, s + t) == SumOf(f, s) + SumOf(f, t)
  {
    if t == [] {
      assert s + t == s;
    } else {
      var init := t[..|t| - 1];
      assert (s + t)[..|s + t| - 1] == s + init;
      SumConcat(f, s, init);
    }
  }

  /** Splitting a list by complementary conditions splits its sum. */
  lemma {:induction false} SumSplit<T>(f: T -> nat, p: T -> bool, q: T -> bool, s: seq<T>)
    requires forall i | 0 <= i < |s| :: q(s[i]) <==> !p(s[i])
    ensures SumOf(f, Filter(p, s)) + SumOf(f, Filter(q, s)) == SumOf(f, s)
  {
    hide Filter;
    if s == [] {
      FilterNone(p, s);
      FilterNone(q, s);
    } else {
      var n := |s| - 1;
      SumSplit(f, p, q, s[..n]);
      FilterStep(p, s, n);
      FilterStep(q, s, n);
      assert s[..n + 1] == s;
      SumAppend(f, Filter(p, s[..n]), s[n]);
      SumAppend(f, Filter(q, s[..n]), s[n]);
    }
  }

  /** Two lists that differ by one at the positions in `extra`. */
  lemma {:induction false} SumExtra<S, T>(f: S -> nat, a: seq<S>, g: T -> nat, b: seq<T>, extra: set<nat>)
    requires |a| == |b| && forall i | i in extra :: i < |a|
    requires forall i | 0 <= i < |a| :: f(a[i]) == g(b[i]) + if i in extra then 1 else 0
    ensures SumOf(f, a) == SumOf(g, b) + |extra|
  {
    if a == [] {
      assert extra == {};
    } else {
      var n := |a| - 1;
      SumExtra(f, a[..n], g, b[..n], extra - {n});
      if n in extra {
        assert |extra - {n}| == |extra| - 1;
      } else {
        assert extra - {n} == extra;
      }
    }
  }

  lemma {:induction false} SumLess<S, T>(f: S -> nat, a: seq<S>, g: T -> nat, b: seq<T>)
    requires |a| == |b|
    requires forall i | 0 <= i < |a| :: f(a[i]) <= g(b[i])
    ensures SumOf(f, a) <= SumOf(g, b)
  {
    if a == [] {
    } else {
      SumLess(f, a[..|a| - 1], g, b[..|b| - 1]);
    }
  }

  lemma {:induction false} SumConstant<T>(f: T -> nat, s: seq<T>, c: nat)
    requires forall i | 0 <= i < |s| :: f(s[i]) == c
    ensures SumOf(f, s) == c * |s|
  {
    if s == [] {
    } else {
      SumConstant(f, s[..|s| - 1], c);
    }
  }

  /** Dropping elements that weigh nothing does not change a sum. */
  lemma SumKept<T>(f: T -> nat, p: T -> bool, q: T -> bool, s: seq<T>)
    requires forall i | 0 <= i < |s| :: q(s[i]) <==> !p(s[i])
    requires forall x | x in s && q(x) :: f(x) == 0
    ensures SumOf(f, Filter(p, s)) == SumOf(f, s)
  {
    hide Filter, SumOf;
    SumSplit(f, p, q, s);
    var r := Filter(q, s);
    forall i | 0 <= i < |r|
      ensures f(r[i]) == 0
    {
      assert r[i] in r;
    }
    SumConstant(f, r, 0);
  }

  /** A one-to-one map has as many values as keys. */
  lemma {:induction false} InjectiveSize(m: map<nat, nat>)
    requires forall r, s | r in m && s in m && r != s :: m[r] != m[s]
    ensures |m.Values| == |m.Keys|
    decreases |m.Keys|
  {
    if m.Keys == {} {
      assert m.Values == {};
    } else {
      var r :| r in m.Keys;
      var rest := m - {r};
      assert rest.Keys == m.Keys - {r};
      InjectiveSize(rest);
      forall v | v in m.Values
        ensures v in rest.Values + {m[r]}
      {
        var k :| k in m && m[k] == v;
        if k != r {
          assert rest[k] == v;
        }
      }
      assert m.Values == rest.Values + {m[r]};
      assert m[r] !in rest.Values;
    }
  }
}
