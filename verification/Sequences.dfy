/** Counting and summing over sequences, and what reordering or updating one element does to them. */
module Sequences {

  function Sum<T(!new)>(s: seq<T>, f: T -> int): (total: int)
    ensures |s| == 1 ==> total == f(s[0])
  {
    if s == [] then 0 else f(s[0]) + Sum(s[1..], f)
  }

  function Count<T(!new)>(s: seq<T>, p: T -> bool): (n: nat)
    ensures |s| == 1 ==> n == if p(s[0]) then 1 else 0
  {
    if s == [] then 0 else (if p(s[0]) then 1 else 0) + Count(s[1..], p)
  }

  function Filter<T(!new)>(s: seq<T>, p: T -> bool): (kept: seq<T>)
    ensures |s| == 1 ==> kept == if p(s[0]) then s else []
  {
    if s == [] then [] else if p(s[0]) then [s[0]] + Filter(s[1..], p) else Filter(s[1..], p)
  }

  lemma {:induction false} FilterMembers<T(!new)>(s: seq<T>, p: T -> bool)
    ensures |Filter(s, p)| == Count(s, p)
    ensures forall x :: x in Filter(s, p) <==> x in s && p(x)
  {
    if s != [] {
      FilterMembers(s[1..], p);
      assert forall x :: x in s <==> x == s[0] || x in s[1..];
    }
  }

  lemma {:induction false} SumConcat<T(!new)>(a: seq<T>, b: seq<T>, f: T -> int)
    ensures Sum(a + b, f) == Sum(a, f) + Sum(b, f)
  {
    if a == [] {
      assert a + b == b;
    } else {
      assert (a + b)[1..] == a[1..] + b;
      SumConcat(a[1..], b, f);
    }
  }

  lemma {:induction false} CountConcat<T(!new)>(a: seq<T>, b: seq<T>, p: T -> bool)
    ensures Count(a + b, p) == Count(a, p) + Count(b, p)
  {
    if a == [] {
      assert a + b == b;
    } else {
      assert (a + b)[1..] == a[1..] + b;
      CountConcat(a[1..], b, p);
    }
  }

  lemma {:induction false} FilterConcat<T(!new)>(a: seq<T>, b: seq<T>, p: T -> bool)
    ensures Filter(a + b, p) == Filter(a, p) + Filter(b, p)
  {
    if a == [] {
      assert a + b == b;
    } else {
      assert (a + b)[0] == a[0] && (a + b)[1..] == a[1..] + b;
      FilterConcat(a[1..], b, p);
    }
  }

  lemma {:induction false} SumUpdate<T(!new)>(s: seq<T>, i: nat, x: T, f: T -> int)
    requires i < |s|
    ensures Sum(s[i := x], f) == Sum(s, f) - f(s[i]) + f(x)
  {
    if i == 0 {
      assert s[0 := x][1..] == s[1..];
    } else {
      assert s[i := x][1..] == s[1..][i - 1 := x];
      SumUpdate(s[1..], i - 1, x, f);
    }
  }

  lemma {:induction false} CountUpdate<T(!new)>(s: seq<T>, i: nat, x: T, p: T -> bool)
    requires i < |s|
    ensures Count(s[i := x], p) == Count(s, p) - (if p(s[i]) then 1 else 0) + (if p(x) then 1 else 0)
  {
    if i == 0 {
      assert s[0 := x][1..] == s[1..];
    } else {
      assert s[i := x][1..] == s[1..][i - 1 := x];
      CountUpdate(s[1..], i - 1, x, p);
    }
  }

  lemma {:induction false} CountZero<T(!new)>(s: seq<T>, p: T -> bool)
    ensures Count(s, p) == 0 <==> forall x :: x in s ==> !p(x)
  {
    if s != [] {
      CountZero(s[1..], p);
      assert forall x :: x in s <==> x == s[0] || x in s[1..];
    }
  }

  lemma {:induction false} CountAll<T(!new)>(s: seq<T>, p: T -> bool)
    ensures Count(s, p) <= |s|
    ensures Count(s, p) == |s| <==> forall x :: x in s ==> p(x)
  {
    if s != [] {
      CountAll(s[1..], p);
      assert forall x :: x in s <==> x == s[0] || x in s[1..];
    }
  }

  /** Taking one occurrence of `x` out of a sequence that holds it. */
  lemma Extract<T(!new)>(s: seq<T>, x: T) returns (i: nat)
    requires x in s
    ensures i < |s| && s[i] == x && s == s[..i] + [x] + s[i + 1..]
    ensures multiset(s[..i] + s[i + 1..]) == multiset(s) - multiset{x}
  {
    i :| i < |s| && s[i] == x;
    assert s == s[..i] + [x] + s[i + 1..];
  }

  lemma {:induction false} SumPermutation<T(!new)>(a: seq<T>, b: seq<T>, f: T -> int)
    requires multiset(a) == multiset(b)
    ensures Sum(a, f) == Sum(b, f)
  {
    if a == [] {
      SameMembers(a, b);
    } else {
      assert a == [a[0]] + a[1..];
      assert a[0] in multiset(b);
      var i := Extract(b, a[0]);
      SumPermutation(a[1..], b[..i] + b[i + 1..], f);
      SumConcat(b[..i], b[i + 1..], f);
      SumConcat(b[..i] + [a[0]], b[i + 1..], f);
      SumConcat(b[..i], [a[0]], f);
    }
  }

  lemma {:induction false} CountPermutation<T(!new)>(a: seq<T>, b: seq<T>, p: T -> bool)
    requires multiset(a) == multiset(b)
    ensures Count(a, p) == Count(b, p)
  {
    if a == [] {
      SameMembers(a, b);
    } else {
      assert a == [a[0]] + a[1..];
      assert a[0] in multiset(b);
      var i := Extract(b, a[0]);
      CountPermutation(a[1..], b[..i] + b[i + 1..], p);
      CountConcat(b[..i], b[i + 1..], p);
      CountConcat(b[..i] + [a[0]], b[i + 1..], p);
      CountConcat(b[..i], [a[0]], p);
    }
  }

  lemma {:induction false} FilterPermutation<T(!new)>(a: seq<T>, b: seq<T>, p: T -> bool)
    requires multiset(a) == multiset(b)
    ensures multiset(Filter(a, p)) == multiset(Filter(b, p))
  {
    if a == [] {
      SameMembers(a, b);
    } else {
      assert a == [a[0]] + a[1..];
      assert a[0] in multiset(b);
      var i := Extract(b, a[0]);
      FilterPermutation(a[1..], b[..i] + b[i + 1..], p);
      FilterConcat(b[..i], b[i + 1..], p);
      FilterConcat(b[..i] + [a[0]], b[i + 1..], p);
      FilterConcat(b[..i], [a[0]], p);
    }
  }

  /** Equal multisets have the same members. */
  lemma SameMembers<T(!new)>(a: seq<T>, b: seq<T>)
    requires multiset(a) == multiset(b)
    ensures |a| == |b|
    ensures forall x :: x in a <==> x in b
  {
    assert |a| == |multiset(a)| == |multiset(b)| == |b|;
    forall x ensures x in a <==> x in b {
      assert x in a <==> x in multiset(a);
      assert x in b <==> x in multiset(b);
    }
  }
}
