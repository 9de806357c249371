/** What it means for one path to be at or under another, by `pathIsUnder` on strings and on keys. */
module KeyContainment {
  import opened Utf8
  import opened Composition
  import opened LexicalPath
  import opened Folding
  import opened PathKey

  // ----- pathIsUnder is a partial order

  /** Below a root there is a separator, the root's own last one or the next. */
  lemma UnderMeans(path: seq<Byte>, root: seq<Byte>, tail: seq<Byte>)
    requires root != [] && path == root + tail
    ensures PathIsUnder(path, root) <==>
            || tail == []
            || Last(root) == 0x2F || Last(root) == 0x5C
            || tail[0] == 0x2F || tail[0] == 0x5C
  {
    assert tail == [] ==> path == root;
    assert path[..|root|] == root;
  }

  lemma UnderIsAPartialOrder(a: seq<Byte>, b: seq<Byte>, c: seq<Byte>)
    ensures a != [] ==> PathIsUnder(a, a)
    ensures PathIsUnder(a, b) && PathIsUnder(b, a) ==> a == b
    ensures PathIsUnder(a, b) && PathIsUnder(b, c) ==> PathIsUnder(a, c)
  {
    if PathIsUnder(a, b) && PathIsUnder(b, c) && a != b && b != c {
      assert a[..|c|] == a[..|b|][..|c|];
      assert a[|c|] == a[..|b|][|c|];
    }
  }

  // ----- joined components

  /** Components a key can be made of: none empty, none holding a separator. */
  predicate Tidy(comps: seq<Component>) {
    forall i :: 0 <= i < |comps| ==> comps[i] != [] && SLASH !in comps[i] && BACKSLASH !in comps[i]
  }

  function Spelt(absolute: bool, comps: seq<Component>): seq<Byte> {
    Root(absolute) + Join(comps)
  }

  lemma SplitSpelt(absolute: bool, comps: seq<Component>)
    requires SlashFree(comps) && forall i :: 0 <= i < |comps| ==> comps[i] != []
    ensures Split(Spelt(absolute, comps)) == Written(absolute, comps)
    ensures IsAbsolute(Spelt(absolute, comps)) == absolute
  {
    var body := Join(comps);
    if comps != [] {
      SplitJoin(comps);
      JoinStart(comps);
      assert comps[0][0] in comps[0];
    }
    if absolute {
      SplitAppend([], body);
      assert [] + [SLASH] + body == Spelt(absolute, comps);
    } else {
      assert Spelt(absolute, comps) == body;
    }
  }

  lemma SpeltApart(abs1: bool, comps1: seq<Component>, abs2: bool, comps2: seq<Component>)
    requires Tidy(comps1) && Tidy(comps2)
    ensures Spelt(abs1, comps1) == Spelt(abs2, comps2) <==> abs1 == abs2 && comps1 == comps2
  {
    SplitSpelt(abs1, comps1);
    SplitSpelt(abs2, comps2);
    var p1, p2 := Written(abs1, comps1), Written(abs2, comps2);
    if p1 == p2 && abs1 == abs2 {
      var k := if abs1 then 1 else 0;
      assert p1[k..] == (if comps1 == [] then [[]] else comps1);
      assert p2[k..] == (if comps2 == [] then [[]] else comps2);
    }
  }

  lemma {:induction false} JoinAppend(a: seq<Component>, b: seq<Component>)
    requires a != [] && b != []
    ensures Join(a + b) == Join(a) + [SLASH] + Join(b)
  {
    assert Init(a + b) == a + Init(b);
    if |b| > 1 {
      JoinAppend(a, Init(b));
    } else {
      assert a + Init(b) == a;
    }
  }

  lemma {:induction false} JoinHolds(comps: seq<Component>)
    requires Tidy(comps) && comps != []
    ensures Join(comps) != [] && !IsSeparator(Last(Join(comps)))
    ensures BACKSLASH !in Join(comps)
  {
    assert Last(Last(comps)) in Last(comps);
    if |comps| > 1 {
      JoinHolds(Init(comps));
    }
  }

  /** A longer list of components is under a shorter one it begins with. */
  lemma PrefixIsUnder(absolute: bool, path: seq<Component>, root: seq<Component>)
    requires Tidy(path) && root <= path && Spelt(absolute, root) != []
    ensures PathIsUnder(Spelt(absolute, path), Spelt(absolute, root))
  {
    var rest := path[|root|..];
    assert path == root + rest;
    if rest == [] {
      assert path == root;
    } else if root == [] {
      UnderMeans(Spelt(absolute, path), [SLASH], Join(path));
    } else {
      JoinAppend(root, rest);
      UnderMeans(Spelt(absolute, path), Spelt(absolute, root), [SLASH] + Join(rest));
    }
  }

  /** What is strictly under a root that does not end in a separator goes on with one. */
  lemma UnderGoesOn(path: seq<Byte>, root: seq<Byte>)
    requires PathIsUnder(path, root) && path != root && !IsSeparator(Last(root)) && BACKSLASH !in path
    ensures |root| < |path| && path == root + [SLASH] + path[|root| + 1..]
  {
    assert path == path[..|root|] + [path[|root|]] + path[|root| + 1..];
    assert path[|root|] in path;
  }

  lemma SpeltHolds(absolute: bool, comps: seq<Component>)
    requires Tidy(comps)
    ensures BACKSLASH !in Spelt(absolute, comps)
    ensures comps != [] ==> Spelt(absolute, comps) != [] && !IsSeparator(Last(Spelt(absolute, comps)))
  {
    if comps != [] {
      JoinHolds(comps);
      assert Last(Spelt(absolute, comps)) == Last(Join(comps));
    }
  }

  /** And what is under a path begins with its components. */
  lemma UnderIsPrefix(abs1: bool, path: seq<Component>, abs2: bool, root: seq<Component>)
    requires Tidy(path) && Tidy(root)
    requires PathIsUnder(Spelt(abs1, path), Spelt(abs2, root))
    ensures abs1 == abs2 && root <= path
  {
    var p, r := Spelt(abs1, path), Spelt(abs2, root);
    SplitSpelt(abs1, path);
    SplitSpelt(abs2, root);
    if p == r {
      SpeltApart(abs1, path, abs2, root);
    } else {
      assert p[0] == p[..|r|][0] == r[0];
      if root != [] {
        SpeltHolds(abs1, path);
        SpeltHolds(abs2, root);
        UnderGoesOn(p, r);
        SplitAppend(r, p[|r| + 1..]);
        PiecesPrefix(abs1, path, root, Split(p[|r| + 1..]));
      }
    }
  }

  lemma PiecesPrefix(absolute: bool, path: seq<Component>, root: seq<Component>, rest: seq<Component>)
    requires Tidy(root) && root != [] && Written(absolute, path) == Written(absolute, root) + rest
    ensures root <= path
  {
    var k := if absolute then 1 else 0;
    assert Written(absolute, path)[k..] == root + rest;
    assert (root + rest)[0] == root[0] != [];
  }

  // ----- the components of a key

  lemma {:induction false} KeptAreComponents(absolute: bool, comps: seq<Component>)
    ensures forall c :: c in Normal(absolute, comps) ==> c in comps
  {
    if comps != [] {
      KeptAreComponents(absolute, Init(comps));
    }
  }

  lemma {:induction false} SplitAddsNothing(s: seq<Byte>, c: Component, b: Byte)
    requires c in Split(s) && b in c
    ensures b in s
  {
    var n := FindSlash(s);
    FindSlashFinds(s);
    if n < |s| && c != s[..n] {
      SplitAddsNothing(s[n + 1..], c, b);
    }
  }

  lemma {:induction false} SlashedIsShortest(s: seq<Byte>)
    requires ShortestForm(s)
    ensures ShortestForm(Slashed(s))
    decreases |s|
  {
    if BACKSLASH in s {
      var i :| 0 <= i < |s| && s[i] == BACKSLASH;
      var a, b := s[..i], s[i + 1..];
      SlashedAround(s, i);
      ShortestFormAround(a, BACKSLASH, b);
      SlashedIsShortest(a);
      SlashedIsShortest(b);
      ShortestFormAround(Slashed(a), SLASH, Slashed(b));
    } else {
      assert Slashed(s) == s;
    }
  }

  lemma SlashedAround(s: seq<Byte>, i: nat)
    requires i < |s| && s[i] == BACKSLASH
    ensures s == s[..i] + [BACKSLASH] + s[i + 1..]
    ensures Slashed(s) == Slashed(s[..i]) + [SLASH] + Slashed(s[i + 1..])
  {
  }

  lemma {:induction false} TrimIsShortest(s: seq<Byte>)
    requires ShortestForm(s)
    ensures ShortestForm(TrimPad(s)) && ShortestForm(StripSeparators(s))
  {
    if s != [] && Last(s) < 0x80 {
      assert s == Init(s) + [Last(s)] + [];
      ShortestFormAround(Init(s), Last(s), []);
      TrimIsShortest(Init(s));
    }
  }

  lemma CleanIsShortest(path: seq<Byte>)
    requires ShortestForm(path)
    ensures ShortestForm(Clean(path))
  {
    TrimIsShortest(path);
    TrimIsShortest(TrimPad(path));
    SlashedIsShortest(StripSeparators(TrimPad(path)));
  }

  lemma ComponentsAreShortest(s: seq<Byte>)
    requires ShortestForm(s)
    ensures forall c :: c in Split(s) ==> ShortestForm(c)
  {
    JoinSplit(s);
    JoinIsShortest(Split(s));
  }

  lemma ComponentsHoldNo(s: seq<Byte>, b: Byte)
    requires b !in s
    ensures forall c :: c in Split(s) ==> b !in c
  {
    forall c | c in Split(s) && b in c ensures false {
      SplitAddsNothing(s, c, b);
    }
  }

  /** The kept components of a shortest-form path are in shortest form and hold no separator. */
  lemma KeptIsTidy(path: seq<Byte>)
    requires ShortestForm(path)
    ensures Tidy(Kept(Clean(path))) && AllShortest(Kept(Clean(path)))
  {
    var s, kept := Clean(path), Kept(Clean(path));
    CleanIsShortest(path);
    ComponentsAreShortest(s);
    ComponentsHoldNo(s, BACKSLASH);
    KeptAreComponents(IsAbsolute(s), Split(s));
    LexicalKeeps(s);
    assert forall i :: 0 <= i < |kept| ==> kept[i] in kept;
  }

  /** No component the normalisation keeps has a separator hidden in it: written over-long, so not cut at. */
  predicate HidesNoSeparator(path: seq<Byte>) {
    forall c :: c in Kept(Clean(path)) ==> CodePoint(SLASH) !in Decode(c) && CodePoint(BACKSLASH) !in Decode(c)
  }

  /** A path in shortest form can not. */
  lemma ShortestHidesNoSeparator(path: seq<Byte>)
    requires ShortestForm(path)
    ensures HidesNoSeparator(path)
  {
    KeptIsTidy(path);
    forall c | c in Kept(Clean(path))
      ensures CodePoint(SLASH) !in Decode(c) && CodePoint(BACKSLASH) !in Decode(c)
    {
      DecodeIsStable(c);
      BytesOfEncoding(Decode(c), SLASH);
      BytesOfEncoding(Decode(c), BACKSLASH);
    }
  }

  lemma KeyComponentsTidy(table: Table, path: seq<Byte>)
    requires WellFormed(table) && HidesNoSeparator(path)
    ensures Tidy(KeyComponents(table, path))
    ensures Key(table, path) == Spelt(Anchored(path), KeyComponents(table, path))
  {
    KeyByComponents(table, path);
    LexicalKeeps(Clean(path));
    var kept := Kept(Clean(path));
    forall i | 0 <= i < |kept|
      ensures var c := KeyComponents(table, path)[i]; c != [] && SLASH !in c && BACKSLASH !in c
    {
      assert kept[i] in kept && KindOf(kept[i]) != Skip;
      FoldAllAt(table, kept, i);
      FoldOfSome(table, kept[i]);
      FoldKeepsStructural(table, kept[i], SLASH);
      FoldKeepsStructural(table, kept[i], BACKSLASH);
    }
  }

  // ----- what the keys decide

  /** Two paths are the same exactly when both are anchored or neither is, and their folded components agree. */
  lemma SamePathByComponents(table: Table, p: seq<Byte>, q: seq<Byte>)
    requires WellFormed(table) && HidesNoSeparator(p) && HidesNoSeparator(q)
    ensures SamePath(table, p, q) <==>
            p != [] && q != [] && Anchored(p) == Anchored(q) && KeyComponents(table, p) == KeyComponents(table, q)
  {
    KeyComponentsTidy(table, p);
    KeyComponentsTidy(table, q);
    SpeltApart(Anchored(p), KeyComponents(table, p), Anchored(q), KeyComponents(table, q));
  }

  /**
   A path is at or under a root exactly when the root's folded components begin the path's: a
   sibling whose name merely begins with the root's is not.
   */
  lemma AtOrUnderByComponents(table: Table, path: seq<Byte>, root: seq<Byte>)
    requires WellFormed(table) && HidesNoSeparator(path) && HidesNoSeparator(root)
    ensures PathIsAtOrUnder(table, path, root) <==>
            && Key(table, path) != [] && Key(table, root) != []
            && Anchored(path) == Anchored(root)
            && KeyComponents(table, root) <= KeyComponents(table, path)
  {
    KeyComponentsTidy(table, path);
    KeyComponentsTidy(table, root);
    EmptyKey(table);
    var ps, rs := KeyComponents(table, path), KeyComponents(table, root);
    if PathIsAtOrUnder(table, path, root) {
      UnderIsPrefix(Anchored(path), ps, Anchored(root), rs);
    }
    if Key(table, path) != [] && Key(table, root) != [] && Anchored(path) == Anchored(root) && rs <= ps {
      PrefixIsUnder(Anchored(path), ps, rs);
    }
  }

  /** For absolute paths, that is containment of the directories the two paths lead to, name by folded name. */
  lemma AtOrUnderByDirectory(table: Table, path: seq<Byte>, root: seq<Byte>)
    requires WellFormed(table) && HidesNoSeparator(path) && HidesNoSeparator(root)
    requires Anchored(path) && Anchored(root)
    ensures PathIsAtOrUnder(table, path, root) <==>
            FoldAll(table, Resolve([], Clean(root))) <= FoldAll(table, Resolve([], Clean(path)))
  {
    AtOrUnderByComponents(table, path, root);
    KeyComponentsTidy(table, path);
    KeyComponentsTidy(table, root);
    ResolveByKept([], Clean(path));
    ResolveByKept([], Clean(root));
    WalkFromRoot(Kept(Clean(path)));
    WalkFromRoot(Kept(Clean(root)));
  }

  // ----- on every byte string

  /** Components that begin others: all of them, or all but the empty one a closing separator leaves. */
  predicate Begins(root: seq<Component>, path: seq<Component>)
    requires root != []
  {
    if Last(root) == [] then Init(root) < path else root <= path
  }

  /** On any two strings, cutting both at either separator: what is under a root begins with its components. */
  lemma UnderByCutting(path: seq<Byte>, root: seq<Byte>)
    requires root != [] && root <= path
    ensures PathIsUnder(path, root) <==> Begins(Split(Slashed(root)), Split(Slashed(path)))
  {
    var tail := path[|root|..];
    assert path == root + tail;
    UnderMeans(path, root, tail);
    SlashedAppend(root, tail);
    CutAfter(Slashed(root), Slashed(tail));
  }

  /** The components of a string and of one that goes on from it. */
  lemma CutAfter(r: seq<Byte>, tail: seq<Byte>)
    requires r != []
    ensures Begins(Split(r), Split(r + tail)) <==> tail == [] || Last(r) == SLASH || tail[0] == SLASH
  {
    if Last(r) == SLASH {
      ClosedRoot(Init(r), tail);
      assert Init(r) + [SLASH] == r;
    } else {
      OpenRoot(r, tail);
    }
  }

  lemma ClosedRoot(front: seq<Byte>, tail: seq<Byte>)
    ensures Begins(Split(front + [SLASH]), Split(front + [SLASH] + tail))
  {
    SplitAppend(front, []);
    SplitOfOne([]);
    SplitAppend(front, tail);
    assert front + [SLASH] + [] == front + [SLASH];
    assert Init(Split(front) + [[]]) == Split(front);
  }

  lemma OpenRoot(r: seq<Byte>, tail: seq<Byte>)
    requires r != [] && Last(r) != SLASH
    ensures Begins(Split(r), Split(r + tail)) <==> tail == [] || tail[0] == SLASH
  {
    LastOfSplit(r);
    if tail == [] {
      assert r + tail == r;
    } else if tail[0] == SLASH {
      assert r + tail == r + [SLASH] + tail[1..];
      SplitAppend(r, tail[1..]);
    } else if Split(r) <= Split(r + tail) {
      BeginsGoesOn(r, r + tail);
    }
  }

  /** A string whose components begin another's is that string, or goes on with a separator in it. */
  lemma BeginsGoesOn(r: seq<Byte>, s: seq<Byte>)
    requires Split(r) <= Split(s)
    ensures s == r || (|r| < |s| && s[|r|] == SLASH)
  {
    JoinSplit(r);
    JoinSplit(s);
    JoinGoesOn(Split(r), Split(s));
  }

  lemma JoinGoesOn(a: seq<Component>, b: seq<Component>)
    requires a != [] && a <= b
    ensures Join(b) == Join(a) || (|Join(a)| < |Join(b)| && Join(b)[|Join(a)|] == SLASH)
  {
    var rest := b[|a|..];
    assert b == a + rest;
    if rest == [] {
      assert b == a;
    } else {
      JoinAppend(a, rest);
    }
  }

  lemma {:induction false} LastOfSplit(s: seq<Byte>)
    requires s != [] && Last(s) != SLASH
    ensures Last(Split(s)) != []
  {
    var n := FindSlash(s);
    FindSlashFinds(s);
    if n < |s| {
      assert Last(s[n + 1..]) == Last(s);
      LastOfSplit(s[n + 1..]);
    }
  }

  /** Of any two paths: the root's key begins the path's, and so do its components. */
  lemma AtOrUnderByKeys(table: Table, path: seq<Byte>, root: seq<Byte>)
    ensures PathIsAtOrUnder(table, path, root) <==>
            var p, r := Key(table, path), Key(table, root);
            p != [] && r != [] && r <= p && Begins(Split(Slashed(r)), Split(Slashed(p)))
  {
    var p, r := Key(table, path), Key(table, root);
    EmptyKey(table);
    if r != [] && r <= p {
      UnderByCutting(p, r);
    }
  }
}
