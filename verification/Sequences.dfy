/** Lists without repetition, and removal from them: the insertion order of a
    JavaScript Map or Set. */
module Sequences {
  /** No element occurs twice. */
  predicate Distinct<T(==)>(s: seq<T>) {
    s == [] || (s[0] !in s[1..] && Distinct(s[1..]))
  }

  function Without<T(==,!new)>(s: seq<T>, gone: seq<T>): (out: seq<T>)
    ensures forall x :: x in out <==> x in s && x !in gone
  {
    if s == [] then []
    else
      var rest := Without(s[1..], gone);
      assert s == [s[0]] + s[1..];
      if s[0] in gone then rest else [s[0]] + rest
  }

  lemma {:induction false} WithoutKeepsDistinct<T(!new)>(s: seq<T>, gone: seq<T>)
    requires Distinct(s)
    ensures Distinct(Without(s, gone))
  {
    if s != [] {
      WithoutKeepsDistinct(s[1..], gone);
      assert ([s[0]] + Without(s[1..], gone))[1..] == Without(s[1..], gone);
    }
  }

  lemma {:induction false} AppendDistinct<T(!new)>(s: seq<T>, b: T)
    requires Distinct(s) && b !in s
    ensures Distinct(s + [b])
  {
    if s == [] {
      assert s + [b] == [b] && [b][1..] == [];
    } else {
      AppendDistinct(s[1..], b);
      assert (s + [b])[1..] == s[1..] + [b];
    }
  }

  lemma {:induction false} PrefixDistinct<T(!new)>(s: seq<T>, k: nat)
    requires Distinct(s) && k <= |s|
    ensures Distinct(s[..k])
  {
    if s != [] && k > 0 {
      PrefixDistinct(s[1..], k - 1);
      assert s[..k][1..] == s[1..][..k - 1];
    }
  }

  lemma {:induction false} ConcatDistinct<T(!new)>(a: seq<T>, b: seq<T>)
    requires Distinct(a) && Distinct(b) && forall r :: r in a ==> r !in b
    ensures Distinct(a + b)
  {
    if a == [] {
      assert a + b == b;
    } else {
      assert a == [a[0]] + a[1..];
      ConcatDistinct(a[1..], b);
      assert (a + b)[1..] == a[1..] + b;
    }
  }

  function Elements<T(==,!new)>(s: seq<T>): (out: set<T>)
    ensures forall r :: r in out <==> r in s
  {
    set r | r in s
  }

  lemma {:induction false} DistinctSize<T(!new)>(s: seq<T>)
    requires Distinct(s)
    ensures |Elements(s)| == |s|
  {
    if s == [] {
      assert Elements(s) == {};
    } else {
      DistinctSize(s[1..]);
      assert s == [s[0]] + s[1..];
      assert Elements(s) == {s[0]} + Elements(s[1..]);
    }
  }

  lemma SubsetSize<T(!new)>(a: set<T>, b: set<T>)
    requires a <= b
    ensures |a| <= |b|
  {
    assert b == a + (b - a);
  }

  /** What is left of `p` after `gone`, counted. */
  lemma DifferenceSize<T(!new)>(p: seq<T>, gone: seq<T>, q: seq<T>)
    requires Distinct(p) && Distinct(gone) && Distinct(q)
    requires forall x :: x in p <==> x in q || x in gone
    requires forall x :: x in q ==> x !in gone
    ensures |p| == |q| + |gone|
  {
    DistinctSize(p);
    DistinctSize(gone);
    DistinctSize(q);
    assert Elements(p) == Elements(q) + Elements(gone);
    assert Elements(q) !! Elements(gone);
  }

  /** The elements that pass a test, in order. */
  function Filter<T(==,!new)>(s: seq<T>, f: T -> bool): (out: seq<T>)
    ensures forall x :: x in out <==> x in s && f(x)
  {
    if s == [] then []
    else
      var rest := Filter(s[1..], f);
      assert s == [s[0]] + s[1..];
      if f(s[0]) then [s[0]] + rest else rest
  }

  lemma {:induction false} FilterKeepsDistinct<T(!new)>(s: seq<T>, f: T -> bool)
    requires Distinct(s)
    ensures Distinct(Filter(s, f))
  {
    if s != [] {
      FilterKeepsDistinct(s[1..], f);
      assert ([s[0]] + Filter(s[1..], f))[1..] == Filter(s[1..], f);
    }
  }

  lemma {:induction false} FilterAll<T(!new)>(s: seq<T>, f: T -> bool)
    requires forall x :: x in s ==> f(x)
    ensures Filter(s, f) == s
  {
    if s != [] {
      var x := s[0];
      assert s == [x] + s[1..] && x in s && f(x);
      FilterAll(s[1..], f);
    }
  }

  lemma {:induction false} WithoutNone<T(!new)>(s: seq<T>)
    ensures Without(s, []) == s
  {
    if s != [] {
      WithoutNone(s[1..]);
    }
  }

  /** Moving the head of `rest` over to `kept`. */
  lemma MoveHead<T>(kept: seq<T>, rest: seq<T>)
    requires rest != []
    ensures kept + rest == (kept + [rest[0]]) + rest[1..]
  {
  }

  lemma SomeElement(s: seq<int>)
    ensures s == [] || exists x :: x in s
  {
    if s != [] {
      var x := s[0];
      assert x in s;
    }
  }
}
