/** Exactly which paths have a key that is its own key. */
module KeyIdempotence {
  import opened Utf8
  import opened Composition
  import opened CaseFolding
  import opened LexicalPath
  import opened Folding
  import opened PathKey
  import opened KeyContainment

  // ----- lexical normalisation never lengthens

  function Weight(comps: seq<Component>): nat {
    if comps == [] then 0 else Weight(Init(comps)) + |Last(comps)| + 1
  }

  lemma {:induction false} JoinLength(comps: seq<Component>)
    ensures |Join(comps)| == if comps == [] then 0 else Weight(comps) - 1
  {
    if |comps| > 1 { JoinLength(Init(comps)); }
  }

  lemma {:induction false} NormalWeighs(absolute: bool, comps: seq<Component>)
    ensures Weight(Normal(absolute, comps)) <= Weight(comps)
  {
    if comps != [] {
      var kept, c := Normal(absolute, Init(comps)), Last(comps);
      NormalWeighs(absolute, Init(comps));
      assert Init(kept + [c]) == kept;
    }
  }

  lemma LexicalNeverLengthens(s: seq<Byte>)
    ensures |Lexical(s)| <= |s|
  {
    JoinSplit(s);
    JoinLength(Split(s));
    JoinLength(Kept(s));
    if IsAbsolute(s) {
      var rest := s[1..];
      JoinSplit(rest);
      JoinLength(Split(rest));
      SplitAppend([], rest);
      assert [] + [SLASH] + rest == s;
      assert Split(s) == [[]] + Split(rest);
      NormalSkipsFirst(true, Split(rest));
      NormalWeighs(true, Split(rest));
    } else {
      NormalWeighs(false, Split(s));
    }
  }

  // ----- strings cleaning and normalising leave alone

  ghost predicate Neat(s: seq<Byte>) {
    Lexical(Clean(s)) == s
  }

  predicate EndsInPad(s: seq<Byte>) {
    s != [] && IsPad(Last(s))
  }

  predicate EndsInSeparator(s: seq<Byte>) {
    |s| > 1 && IsSeparator(Last(s))
  }

  lemma {:induction false} TrimShortens(s: seq<Byte>)
    ensures |TrimPad(s)| <= |s| && |StripSeparators(s)| <= |s|
    ensures EndsInPad(s) ==> |TrimPad(s)| < |s|
  {
    if s != [] { TrimShortens(Init(s)); }
  }

  lemma {:induction false} TrimAddsNothing(s: seq<Byte>)
    ensures TrimPad(s) <= s && StripSeparators(s) <= s
  {
    if s != [] { TrimAddsNothing(Init(s)); }
  }

  /** What lexical normalisation makes holds no byte its input does not, but for separators. */
  lemma LexicalHolds(s: seq<Byte>)
    requires BACKSLASH !in s
    ensures BACKSLASH !in Lexical(s) && !EndsInSeparator(Lexical(s))
  {
    var kept := Kept(s);
    LexicalKeeps(s);
    ComponentsHoldNo(s, BACKSLASH);
    KeptAreComponents(IsAbsolute(s), Split(s));
    assert forall i :: 0 <= i < |kept| ==> kept[i] in kept;
    SpeltHolds(IsAbsolute(s), kept);
  }

  lemma NeatMeans(s: seq<Byte>)
    ensures Neat(s) <==> !EndsInPad(s) && !EndsInSeparator(s) && BACKSLASH !in s && Lexical(s) == s
  {
    var clean := Clean(s);
    assert BACKSLASH !in s ==> Slashed(s) == s;
    TrimShortens(s);
    TrimShortens(TrimPad(s));
    LexicalNeverLengthens(clean);
    if Neat(s) {
      assert BACKSLASH !in clean;
      LexicalHolds(clean);
      LexicalIdempotent(clean);
    }
  }

  // ----- folding keeps a string neat, and makes none

  /** The components after the root. */
  function Rest(s: seq<Byte>): seq<Component> {
    Split(if IsAbsolute(s) then s[1..] else s)
  }

  lemma KeptByRest(s: seq<Byte>)
    ensures Kept(s) == Normal(IsAbsolute(s), Rest(s))
    ensures s == Root(IsAbsolute(s)) + Join(Rest(s))
  {
    if IsAbsolute(s) {
      SplitAppend([], s[1..]);
      assert [] + [SLASH] + s[1..] == s;
      NormalSkipsFirst(true, Rest(s));
      JoinSplit(s[1..]);
    } else {
      JoinSplit(s);
    }
  }

  /** The strings lexical normalisation leaves alone, by the kinds of their components. */
  ghost predicate Fixed(s: seq<Byte>) {
    Rest(s) == [[]] || Canonical(IsAbsolute(s), Rest(s))
  }

  lemma FixedStays(s: seq<Byte>)
    requires Fixed(s)
    ensures Lexical(s) == s
  {
    KeptByRest(s);
    if Rest(s) == [[]] {
      NormalSkipsFirst(IsAbsolute(s), []);
      assert Rest(s) == [[]] + [];
      assert Join(Rest(s)) == [];
    } else {
      CanonicalIsNormal(IsAbsolute(s), Rest(s));
    }
  }

  lemma StaysFixed(s: seq<Byte>)
    requires Lexical(s) == s
    ensures Fixed(s)
  {
    LexicalKeeps(s);
    var kept := Kept(s);
    assert (if IsAbsolute(s) then s[1..] else s) == Join(kept);
    if kept == [] {
      assert Rest(s) == [[]];
    } else {
      SplitJoin(kept);
    }
  }

  lemma {:induction false} SplitOfFold(table: Table, s: seq<Byte>)
    requires WellFormed(table) && ShortestForm(s)
    ensures Split(Fold(table, s)) == FoldAll(table, Split(s))
  {
    var comps := Split(s);
    JoinSplit(s);
    FoldJoin(table, comps);
    ComponentsAreShortest(s);
    SplitIsSlashFree(s);
    forall i | 0 <= i < |comps|
      ensures SLASH !in FoldAll(table, comps)[i]
    {
      assert comps[i] in comps;
      FoldAllAt(table, comps, i);
      FoldKeepsKind(table, comps[i]);
    }
    SplitJoin(FoldAll(table, comps));
  }

  lemma RestOfFold(table: Table, s: seq<Byte>)
    requires WellFormed(table) && ShortestForm(s)
    ensures IsAbsolute(Fold(table, s)) == IsAbsolute(s)
    ensures Rest(Fold(table, s)) == FoldAll(table, Rest(s))
    ensures AllShortest(Rest(s))
  {
    if IsAbsolute(s) {
      assert [] + [SLASH] + s[1..] == s;
      FoldAround(table, [], SLASH, s[1..]);
      FoldOfEmpty(table);
      ShortestFormAround([], SLASH, s[1..]);
      SplitOfFold(table, s[1..]);
      ComponentsAreShortest(s[1..]);
      assert Fold(table, s)[1..] == Fold(table, s[1..]);
    } else {
      FoldKeepsStart(table, s);
      SplitOfFold(table, s);
      ComponentsAreShortest(s);
    }
    assert forall i :: 0 <= i < |Rest(s)| ==> Rest(s)[i] in Rest(s);
  }

  lemma FoldKeepsStart(table: Table, s: seq<Byte>)
    requires WellFormed(table) && ShortestForm(s)
    ensures IsAbsolute(Fold(table, s)) == IsAbsolute(s)
  {
    if SLASH in s {
      var a, b := AtFirstSlash(s);
      FoldKeepsFirst(table, a, b);
    } else {
      FoldKeepsStructural(table, s, SLASH);
    }
  }

  lemma FoldKeepsFirst(table: Table, a: seq<Byte>, b: seq<Byte>)
    requires WellFormed(table) && ShortestForm(a + [SLASH] + b) && SLASH !in a
    ensures IsAbsolute(Fold(table, a + [SLASH] + b)) == IsAbsolute(a + [SLASH] + b)
  {
    FoldOfEmpty(table);
    FoldAround(table, a, SLASH, b);
    ShortestFormAround(a, SLASH, b);
    FoldKeepsStructural(table, a, SLASH);
    if a != [] {
      FoldOfSome(table, a);
    }
  }

  lemma FoldAllKeepsKinds(table: Table, comps: seq<Component>, absolute: bool)
    requires WellFormed(table) && AllShortest(comps)
    ensures Canonical(absolute, FoldAll(table, comps)) == Canonical(absolute, comps)
    ensures FoldAll(table, comps) == [[]] <==> comps == [[]]
  {
    var folded := FoldAll(table, comps);
    FoldOfEmpty(table);
    forall i | 0 <= i < |comps|
      ensures KindOf(folded[i]) == KindOf(comps[i]) && (folded[i] == [] <==> comps[i] == [])
    {
      FoldAllAt(table, comps, i);
      FoldKeepsKind(table, comps[i]);
      if comps[i] != [] { FoldOfSome(table, comps[i]); }
    }
  }

  lemma FoldKeepsFixed(table: Table, s: seq<Byte>)
    requires WellFormed(table) && ShortestForm(s)
    ensures Lexical(Fold(table, s)) == Fold(table, s) <==> Lexical(s) == s
  {
    RestOfFold(table, s);
    FoldAllKeepsKinds(table, Rest(s), IsAbsolute(s));
    if Lexical(s) == s { StaysFixed(s); FixedStays(Fold(table, s)); }
    if Lexical(Fold(table, s)) == Fold(table, s) { StaysFixed(Fold(table, s)); FixedStays(s); }
  }

  lemma FoldKeepsPad(table: Table, s: seq<Byte>)
    requires WellFormed(table) && ShortestForm(s)
    ensures EndsInPad(Fold(table, s)) <==> EndsInPad(s)
  {
    FoldOfEmpty(table);
    if s != [] {
      FoldKeepsEnd(table, s, 0x20);
      FoldKeepsEnd(table, s, 0x09);
      FoldKeepsEnd(table, s, 0x00);
    }
  }

  lemma FoldKeepsLastSeparator(table: Table, s: seq<Byte>)
    requires WellFormed(table) && ShortestForm(s)
    ensures EndsInSeparator(Fold(table, s)) <==> EndsInSeparator(s)
  {
    FoldOfEmpty(table);
    if s != [] {
      FoldKeepsEnd(table, s, SLASH);
      FoldKeepsEnd(table, s, BACKSLASH);
      if IsSeparator(Last(s)) {
        FoldAround(table, Init(s), Last(s), []);
        assert Init(s) + [Last(s)] + [] == s;
        if Init(s) != [] { FoldOfSome(table, Init(s)); }
      }
    }
  }

  lemma FoldKeepsNeat(table: Table, s: seq<Byte>)
    requires WellFormed(table) && ShortestForm(s)
    ensures Neat(Fold(table, s)) <==> Neat(s)
  {
    NeatMeans(s);
    NeatMeans(Fold(table, s));
    FoldKeepsPad(table, s);
    FoldKeepsLastSeparator(table, s);
    FoldKeepsStructural(table, s, BACKSLASH);
    FoldKeepsFixed(table, s);
  }

  // ----- the theorem

  /** A folded string folds to itself exactly when no two of its neighbours compose. */
  lemma FoldFixpoints(table: Table, k: seq<Byte>, s: seq<Byte>)
    requires WellFormed(table) && k == Fold(table, s)
    ensures Fold(table, k) == k <==> Settled(table, FoldItems(table, Decode(s)))
  {
    var items := FoldItems(table, Decode(s));
    FoldDecodes(table, s);
    FoldDecodes(table, k);
    LowerTwice(Compose(table, Decode(s)));
    ComposeFixpoints(table, items);
    ComposeCounts(table, Nothing, items);
  }

  /** Two neighbours, a capital among them, that lowercased compose. */
  ghost predicate CaseOpensAPair(table: Table, items: seq<Item>) {
    exists i :: 0 < i < |items| && items[i - 1].CodePoint? && items[i].CodePoint? &&
      (IsCapital(items[i - 1].cp) || IsCapital(items[i].cp)) &&
      Pair(table, LowerCodePoint(items[i - 1].cp), LowerCodePoint(items[i].cp)) != 0
  }

  /** Folded neighbours compose exactly where a capital kept the composed name's from it. */
  lemma OnlyCaseOpensAPair(table: Table, items: seq<Item>)
    requires WellFormed(table)
    ensures Settled(table, FoldItems(table, items)) <==> !CaseOpensAPair(table, Compose(table, items))
  {
    var composed := Compose(table, items);
    var folded := Lower(composed);
    ComposeSettles(table, Nothing, items);
    forall i | 0 <= i < |composed|
      ensures folded[i] == LowerItem(composed[i])
    {
      LowerAt(composed, i);
    }
  }

  /** A key that cleaning or normalising would change is not its own key. */
  lemma OwnKeyIsNeat(table: Table, k: seq<Byte>)
    requires WellFormed(table) && ShortestForm(k) && Key(table, k) == k
    ensures Neat(k)
  {
    var clean, normal := Clean(k), Lexical(Clean(k));
    TrimShortens(k);
    TrimShortens(TrimPad(k));
    LexicalNeverLengthens(clean);
    FoldNeverLengthens(table, normal);
    CleanIsShortest(k);
    LexicalIsShortest(clean);
    assert BACKSLASH !in clean;
    LexicalHolds(clean);
    LexicalIdempotent(clean);
    FoldKeepsPad(table, normal);
    NeatMeans(normal);
    FoldKeepsNeat(table, normal);
  }

  lemma LexicalIsShortest(s: seq<Byte>)
    requires ShortestForm(s)
    ensures ShortestForm(Lexical(s))
  {
    var kept := Kept(s);
    ComponentsAreShortest(s);
    KeptAreComponents(IsAbsolute(s), Split(s));
    assert forall i :: 0 <= i < |kept| ==> kept[i] in kept;
    JoinIsShortest(kept);
    if IsAbsolute(s) {
      ShortestFormAround([], SLASH, Join(kept));
      assert [] + [SLASH] + Join(kept) == [SLASH] + Join(kept);
      assert Decode([]) == [];
    } else {
      assert [] + Join(kept) == Join(kept);
    }
  }

  /**
   On every byte string: a key is its own key exactly when the normalised path, over-long forms
   shortened, is one cleaning leaves alone, and no capital keeps two neighbours of the composed path
   from composing.
   */
  lemma KeyIsItsOwnKey(table: Table, path: seq<Byte>)
    requires WellFormed(table)
    ensures var normal := Lexical(Clean(path));
            Key(table, Key(table, path)) == Key(table, path) <==>
            Neat(Shortened(normal)) && !CaseOpensAPair(table, Compose(table, Decode(normal)))
  {
    var normal, k := Lexical(Clean(path)), Key(table, path);
    var f := Shortened(normal);
    DecodeIsStable(normal);
    EncodingIsShortest(Decode(normal));
    FoldOfShortened(table, normal);
    FoldDecodes(table, normal);
    FoldKeepsNeat(table, f);
    FoldFixpoints(table, k, normal);
    OnlyCaseOpensAPair(table, Decode(normal));
    if Key(table, k) == k { OwnKeyIsNeat(table, k); }
  }

  /** In shortest form the first condition is that the normalised path ends in no pad byte. */
  lemma ShortestKeyIsItsOwnKey(table: Table, path: seq<Byte>)
    requires WellFormed(table) && ShortestForm(path)
    ensures var normal := Lexical(Clean(path));
            Key(table, Key(table, path)) == Key(table, path) <==>
            !EndsInPad(normal) && !CaseOpensAPair(table, Compose(table, Decode(normal)))
  {
    KeyIsItsOwnKey(table, path);
    NormalIsNearlyNeat(path);
  }

  lemma NormalIsNearlyNeat(path: seq<Byte>)
    requires ShortestForm(path)
    ensures var normal := Lexical(Clean(path));
            Shortened(normal) == normal && (Neat(normal) <==> !EndsInPad(normal))
  {
    CleanIsShortest(path);
    LexicalIsShortest(Clean(path));
    assert BACKSLASH !in Clean(path);
    LexicalHolds(Clean(path));
    LexicalIdempotent(Clean(path));
    NeatMeans(Lexical(Clean(path)));
  }
}
