/** What several modules need about sequences: regrouping, mapping, permuting and sorting them. */
module Sequences {
  lemma Associate<T>(a: seq<T>, b: seq<T>, c: seq<T>)
    ensures a + b + c == a + (b + c)
  {
  }

  lemma Regroup<T>(a: seq<T>, b: seq<T>, c: seq<T>, d: seq<T>)
    ensures a + (b + c) + d == a + (b + (c + d)) == a + b + (c + d)
    ensures a + b + c + d == a + (b + (c + d))
  {
    Associate(a, b + c, d);
    Associate(b, c, d);
    Associate(a, b, c);
    Associate(a, b, c + d);
  }

  lemma DropAppend<T>(a: seq<T>, b: seq<T>, n: nat)
    requires n <= |a|
    ensures (a + b)[n..] == a[n..] + b
  {
  }

  lemma FirstOff<T>(s: seq<T>)
    requires s != []
    ensures multiset(s[1..]) == multiset(s) - multiset{s[0]}
  {
    assert s == [s[0]] + s[1..];
  }

  lemma InsertAt<T>(s: seq<T>, k: nat, x: T)
    requires k <= |s|
    ensures multiset(s[..k] + [x] + s[k..]) == multiset(s) + multiset{x}
  {
    assert s == s[..k] + s[k..];
  }

  lemma OneOut<T>(s: seq<T>, k: nat)
    requires k < |s|
    ensures multiset(s[..k] + s[k + 1..]) == multiset(s) - multiset{s[k]}
  {
    assert s == s[..k] + [s[k]] + s[k + 1..];
  }

  lemma Permuted<T>(a: seq<T>, b: seq<T>)
    requires multiset(a) == multiset(b)
    ensures |a| == |b| && forall x :: x in a <==> x in b
  {
    assert |multiset(a)| == |a| && |multiset(b)| == |b|;
    forall x | x in a ensures x in b { assert x in multiset(a); }
    forall x | x in b ensures x in a { assert x in multiset(b); }
  }

  function Map<S, T>(f: S -> T, s: seq<S>): (out: seq<T>)
    ensures |out| == |s| && forall i :: 0 <= i < |s| ==> out[i] == f(s[i])
  {
    seq(|s|, i requires 0 <= i < |s| => f(s[i]))
  }

  lemma MapOneOut<S, T>(f: S -> T, s: seq<S>, k: nat, rest: seq<S>)
    requires k < |s| && rest == s[..k] + s[k + 1..]
    ensures multiset(Map(f, s)) == multiset(Map(f, rest)) + multiset{f(s[k])}
    ensures multiset(rest) == multiset(s) - multiset{s[k]}
  {
    var out := Map(f, s);
    OneOut(s, k);
    OneOut(out, k);
    assert Map(f, rest) == out[..k] + out[k + 1..];
    assert out[k] in out;
  }

  lemma MeetAt<T>(a: seq<T>, b: seq<T>) returns (j: nat, k: nat)
    requires a != [] && forall x :: x in a ==> x in b
    ensures j < |a| && k < |b| && a[j] == b[k]
  {
    j := 0;
    assert a[0] in a;
    k :| 0 <= k < |b| && b[k] == a[0];
  }

  /** A map takes permutations to permutations. */
  lemma {:induction false} MapPermutes<S, T>(f: S -> T, a: seq<S>, b: seq<S>)
    requires multiset(a) == multiset(b)
    ensures multiset(Map(f, a)) == multiset(Map(f, b))
    decreases |a|
  {
    Permuted(a, b);
    if a != [] {
      var j, k := MeetAt(a, b);
      var c, d := a[..j] + a[j + 1..], b[..k] + b[k + 1..];
      MapOneOut(f, a, j, c);
      MapOneOut(f, b, k, d);
      MapPermutes(f, c, d);
    }
  }

  /** Sequences whose images are permutations of each other: one can be put in the other's order. */
  lemma {:induction false} Matching<S, T>(f: S -> T, images: seq<T>, s: seq<S>) returns (ordered: seq<S>)
    requires multiset(images) == multiset(Map(f, s))
    ensures multiset(ordered) == multiset(s) && Map(f, ordered) == images
    decreases |images|
  {
    Permuted(images, Map(f, s));
    ordered := s;
    if images != [] {
      var k, rest := FirstImage(f, images, s);
      var others := Matching(f, images[1..], rest);
      ordered := [s[k]] + others;
      PutFirst(f, images, s, k, rest, others);
    }
  }

  lemma FirstImage<S, T>(f: S -> T, images: seq<T>, s: seq<S>) returns (k: nat, rest: seq<S>)
    requires images != [] && multiset(images) == multiset(Map(f, s))
    ensures k < |s| && f(s[k]) == images[0] && multiset(rest) == multiset(s) - multiset{s[k]}
    ensures multiset(images[1..]) == multiset(Map(f, rest))
  {
    Permuted(images, Map(f, s));
    assert images[0] in images;
    k :| 0 <= k < |s| && Map(f, s)[k] == images[0];
    rest := s[..k] + s[k + 1..];
    MapOneOut(f, s, k, rest);
    FirstOff(images);
  }

  lemma PutFirst<S, T>(f: S -> T, images: seq<T>, s: seq<S>, k: nat, rest: seq<S>, others: seq<S>)
    requires images != [] && k < |s| && f(s[k]) == images[0] && multiset(rest) == multiset(s) - multiset{s[k]}
    requires multiset(others) == multiset(rest) && Map(f, others) == images[1..]
    ensures multiset([s[k]] + others) == multiset(s) && Map(f, [s[k]] + others) == images
  {
    assert s[k] in s;
    assert Map(f, [s[k]] + others) == [images[0]] + images[1..];
  }

  /** What tells more tells less: where equal first images have equal second ones, permutations carry over. */
  lemma MatchingImages<S, T, U>(f: S -> T, g: S -> U, a: seq<S>, b: seq<S>)
    requires multiset(Map(f, a)) == multiset(Map(f, b))
    requires forall x, y :: x in a && y in b && f(x) == f(y) ==> g(x) == g(y)
    ensures multiset(Map(g, a)) == multiset(Map(g, b))
  {
    var ordered := Matching(f, Map(f, a), b);
    Permuted(ordered, b);
    assert |a| == |Map(f, a)| == |Map(f, ordered)| == |ordered|;
    forall i | 0 <= i < |a|
      ensures Map(g, a)[i] == Map(g, ordered)[i]
    {
      assert Map(f, a)[i] == Map(f, ordered)[i];
      assert a[i] in a && ordered[i] in ordered;
    }
    assert Map(g, a) == Map(g, ordered);
    MapPermutes(g, ordered, b);
  }

  lemma SameTail<T>(head: seq<T>, a: seq<T>, b: seq<T>)
    requires head + a == head + b
    ensures a == b
  {
    assert (head + a)[|head|..] == a && (head + b)[|head|..] == b;
  }

  // ----- sorting

  /** What std::sort asks of its comparison. */
  ghost predicate Orders<T(!new)>(before: (T, T) -> bool) {
    && (forall a, b :: before(a, b) ==> !before(b, a))
    && (forall a, b, c :: !before(b, a) && !before(c, b) ==> !before(c, a))
  }

  ghost predicate Ascends<T>(before: (T, T) -> bool, s: seq<T>) {
    forall i, j :: 0 <= i < j < |s| ==> !before(s[j], s[i])
  }

  /** What std::sort promises of its outcome: which of several equals comes first is not said. */
  ghost predicate IsSortOf<T>(before: (T, T) -> bool, sorted: seq<T>, s: seq<T>) {
    Ascends(before, sorted) && multiset(sorted) == multiset(s)
  }

  function Place<T>(before: (T, T) -> bool, s: seq<T>, x: T): (k: nat)
    ensures k <= |s| && (k > 0 ==> !before(x, s[k - 1]))
    ensures forall i :: k <= i < |s| ==> before(x, s[i])
  {
    if s != [] && before(x, s[|s| - 1]) then Place(before, s[..|s| - 1], x) else |s|
  }

  /** One sort of a sequence. */
  function Sorting<T>(before: (T, T) -> bool, s: seq<T>): seq<T> {
    if s == [] then []
    else
      var front, x := Sorting(before, s[..|s| - 1]), s[|s| - 1];
      var k := Place(before, front, x);
      front[..k] + [x] + front[k..]
  }

  lemma StaysSorted<T(!new)>(before: (T, T) -> bool, s: seq<T>, k: nat, x: T)
    requires Orders(before) && Ascends(before, s) && k <= |s| && (k > 0 ==> !before(x, s[k - 1]))
    requires forall i :: k <= i < |s| ==> before(x, s[i])
    ensures Ascends(before, s[..k] + [x] + s[k..])
  {
    var more := s[..k] + [x] + s[k..];
    forall i | 0 <= i < k
      ensures !before(x, s[i])
    {
      assert i < k - 1 ==> !before(s[k - 1], s[i]);
    }
    forall i, j | 0 <= i < j < |more|
      ensures !before(more[j], more[i])
    {
      assert i < k ==> more[i] == s[i];
      assert j > k ==> more[j] == s[j - 1];
      assert i > k ==> more[i] == s[i - 1];
    }
  }

  lemma {:induction false} SortingPermutes<T>(before: (T, T) -> bool, s: seq<T>)
    ensures multiset(Sorting(before, s)) == multiset(s)
  {
    if s != [] {
      var rest, x := s[..|s| - 1], s[|s| - 1];
      var front := Sorting(before, rest);
      SortingPermutes(before, rest);
      InsertAt(front, Place(before, front, x), x);
      assert s == rest + [x];
    }
  }

  lemma {:induction false} SortingSorts<T(!new)>(before: (T, T) -> bool, s: seq<T>)
    requires Orders(before)
    ensures IsSortOf(before, Sorting(before, s), s)
  {
    SortingPermutes(before, s);
    if s != [] {
      var front, x := Sorting(before, s[..|s| - 1]), s[|s| - 1];
      SortingSorts(before, s[..|s| - 1]);
      StaysSorted(before, front, Place(before, front, x), x);
    }
  }

  lemma SameLeast<T>(before: (T, T) -> bool, p: seq<T>, q: seq<T>)
    requires Ascends(before, p) && Ascends(before, q)
    requires p != [] && q != [] && forall x :: x in p <==> x in q
    requires forall x, y :: x in p && y in p && !before(x, y) && !before(y, x) ==> x == y
    ensures p[0] == q[0]
  {
    assert p[0] in p && q[0] in q;
    var i :| 0 <= i < |p| && p[i] == q[0];
    var j :| 0 <= j < |q| && q[j] == p[0];
    assert i > 0 ==> !before(p[i], p[0]);
    assert j > 0 ==> !before(q[j], q[0]);
  }

  /** Where only equals tie, a sort is the only one. */
  lemma {:induction false} SortIsUnique<T>(before: (T, T) -> bool, p: seq<T>, q: seq<T>)
    requires Ascends(before, p) && Ascends(before, q) && multiset(p) == multiset(q)
    requires forall x, y :: x in p && y in p && !before(x, y) && !before(y, x) ==> x == y
    ensures p == q
  {
    Permuted(p, q);
    if p != [] {
      SameLeast(before, p, q);
      FirstOff(p);
      FirstOff(q);
      SortIsUnique(before, p[1..], q[1..]);
    }
  }
}
