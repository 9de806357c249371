/**
 Paths the theorems about keys leave out: two whose key is not its own key, and one, not in shortest
 form, that is under a root its own components do not begin with.
 */
module KeyExamples {
  import opened Utf8
  import opened Composition
  import opened CaseFolding
  import opened LexicalPath
  import opened Folding
  import opened PathKey
  import opened KeyContainment
  import opened KeyIdempotence
  import opened NfcTable

  lemma OneComponent(path: seq<Byte>, c: Component)
    requires SLASH !in c && KindOf(c) == Name && Clean(path) == c
    ensures Lexical(Clean(path)) == c
  {
    SplitOfOne(c);
    assert Init([c]) == [];
    assert c[0] in c;
    assert Normal(false, [c]) == Push(false, Normal(false, []), c) == [] + [c];
  }

  /** A folder whose name ends in a space, written "a /": taking its key again trims the space. */
  lemma PaddedFolder(table: Table)
    requires WellFormed(table)
    ensures var key := Key(table, [0x61, 0x20, 0x2F]); Key(table, key) != key
  {
    var path: seq<Byte>, c: Component := [0x61, 0x20, 0x2F], [0x61, 0x20];
    assert StripSeparators(path) == Init(path) == c;
    assert Clean(path) == c;
    OneComponent(path, c);
    assert ShortestForm(path) by { ShortestAscii(path); }
    ShortestKeyIsItsOwnKey(table, path);
  }

  lemma {:induction false} ShortestAscii(s: seq<Byte>)
    requires forall i :: 0 <= i < |s| ==> s[i] < 0x80
    ensures ShortestForm(s)
  {
    if s != [] {
      ShortestAscii(s[1..]);
      assert Encode(Decode(s)) == [s[0]] + s[1..] by {
        assert Decode(s)[1..] == Decode(s[1..]);
      }
    }
  }

  /** H and U+0331 decode to themselves. */
  lemma UnderlinedDecodes()
    ensures Decode([0x48, 0xCC, 0xB1]) == [CodePoint(0x48), CodePoint(0x331)]
    ensures ShortestForm([0x48, 0xCC, 0xB1])
  {
    var path: seq<Byte>, items := [0x48, 0xCC, 0xB1], [CodePoint(0x48), CodePoint(0x331)];
    var tail: seq<Byte> := [0xCC, 0xB1];
    assert path[1..] == tail && tail[2..] == [] && tail[1..] == [0xB1];
    assert Run([0xB1]) == 1 by { assert [0xB1][1..] == []; }
    assert Accumulated(tail, 1) == 0x0C && Accumulated(tail, 2) == 0x331;
    assert First(tail) == CodePoint(0x331) && Width(tail) == 2;
    assert Decode(path) == items;
    assert Encode(items) == path by { assert items[1..] == [CodePoint(0x331)]; }
  }

  lemma UnderlinedIsClean()
    ensures Lexical(Clean([0x48, 0xCC, 0xB1])) == [0x48, 0xCC, 0xB1]
  {
    var path: Component := [0x48, 0xCC, 0xB1];
    assert TrimPad(path) == path && StripSeparators(path) == path;
    OneComponent(path, path);
  }

  lemma LowerOpensAPair(table: Table)
    requires WellFormed(table) && Pair(table, 0x48, 0x331) == 0 && Pair(table, 0x68, 0x331) != 0
    ensures CaseOpensAPair(table, Compose(table, [CodePoint(0x48), CodePoint(0x331)]))
  {
    var items := [CodePoint(0x48), CodePoint(0x331)];
    assert Settled(table, items);
    ComposeFixpoints(table, items);
    assert items[1 - 1].cp == 0x48 && items[1].cp == 0x331;
  }

  /** H and U+0331 do not compose, h and U+0331 do: taking the key again composes them. */
  lemma CapitalUnderlined(table: Table)
    requires WellFormed(table) && Pair(table, 0x48, 0x331) == 0 && Pair(table, 0x68, 0x331) != 0
    ensures var key := Key(table, [0x48, 0xCC, 0xB1]); Key(table, key) != key
  {
    UnderlinedDecodes();
    UnderlinedIsClean();
    LowerOpensAPair(table);
    ShortestKeyIsItsOwnKey(table, [0x48, 0xCC, 0xB1]);
  }

  // ----- an over-long slash

  /** Composing and lowercasing leave ASCII without capitals alone. */
  lemma PlainStays(table: Table, items: seq<Item>)
    requires WellFormed(table)
    requires forall i :: 0 <= i < |items| ==> items[i].CodePoint? && items[i].cp < 0x80 && !IsCapital(items[i].cp)
    ensures FoldItems(table, items) == items
  {
    ComposeFixpoints(table, items);
    forall i | 0 <= i < |items|
      ensures Lower(items)[i] == items[i]
    {
      LowerAt(items, i);
    }
  }

  lemma OverlongDecodes()
    ensures Decode([0x61, 0xC0, 0xAF, 0x62]) == [CodePoint(0x61), CodePoint(0x2F), CodePoint(0x62)]
    ensures Encode([CodePoint(0x61), CodePoint(0x2F), CodePoint(0x62)]) == [0x61, 0x2F, 0x62]
    ensures Decode([0x61]) == [CodePoint(0x61)] && Encode([CodePoint(0x61)]) == [0x61]
  {
    var tail: seq<Byte> := [0xC0, 0xAF, 0x62];
    assert [0x61, 0xC0, 0xAF, 0x62][1..] == tail && tail[2..] == [0x62] && tail[1..] == [0xAF, 0x62];
    assert [0x61][1..] == [] && [0x62][1..] == [] && [0xAF, 0x62][1..] == [0x62];
    assert Run([0xAF, 0x62]) == 1;
    assert Accumulated(tail, 1) == 0 && Accumulated(tail, 2) == 0x2F;
    assert First(tail) == CodePoint(0x2F) && Width(tail) == 2;
    var items := [CodePoint(0x61), CodePoint(0x2F), CodePoint(0x62)];
    assert items[1..] == [CodePoint(0x2F), CodePoint(0x62)] && items[1..][1..] == [CodePoint(0x62)];
  }

  lemma OneClean(c: Component)
    requires SLASH !in c && BACKSLASH !in c && KindOf(c) == Name && !EndsInPad(c)
    ensures Clean(c) == c
  {
    assert Last(c) in c;
    assert TrimPad(c) == c && StripSeparators(c) == c;
    assert Slashed(c) == c;
  }

  lemma OneKept(c: Component)
    requires SLASH !in c && KindOf(c) == Name
    ensures Kept(c) == [c] && !IsAbsolute(c)
  {
    SplitOfOne(c);
    assert c[0] in c && Init([c]) == [];
    assert Normal(false, [c]) == Push(false, Normal(false, []), c) == [] + [c];
  }

  /** The key of a path that is one plain component. */
  lemma OneFolds(table: Table, c: Component, items: seq<Item>)
    requires WellFormed(table) && SLASH !in c && BACKSLASH !in c && KindOf(c) == Name && !EndsInPad(c)
    requires Decode(c) == items
    requires forall i :: 0 <= i < |items| ==> items[i].CodePoint? && items[i].cp < 0x80 && !IsCapital(items[i].cp)
    ensures KeyComponents(table, c) == [Encode(items)] && Key(table, c) == Encode(items)
  {
    OneClean(c);
    OneKept(c);
    PlainStays(table, items);
    FoldDecodes(table, c);
    FoldAllAt(table, [c], 0);
    KeyByComponents(table, c);
  }

  /**
   "a", an over-long slash and "b" are one component to the normalisation, and its key is "a/b": so it
   is under "a", whose components do not begin its own.
   */
  lemma OverlongSlash(table: Table)
    requires WellFormed(table)
    ensures var path, root := [0x61, 0xC0, 0xAF, 0x62], [0x61];
            && PathIsAtOrUnder(table, path, root)
            && KeyComponents(table, path) == [[0x61, 0x2F, 0x62]] && KeyComponents(table, root) == [[0x61]]
  {
    OverlongKey(table);
    SlashGoesUnder();
  }

  lemma SlashGoesUnder()
    ensures PathIsUnder([0x61, 0x2F, 0x62], [0x61])
  {
    assert [0x61, 0x2F, 0x62] == [0x61] + [SLASH, 0x62];
    UnderMeans([0x61, 0x2F, 0x62], [0x61], [SLASH, 0x62]);
  }

  lemma OverlongKey(table: Table)
    requires WellFormed(table)
    ensures var path := [0x61, 0xC0, 0xAF, 0x62];
            Key(table, path) == [0x61, 0x2F, 0x62] && KeyComponents(table, path) == [[0x61, 0x2F, 0x62]]
    ensures Key(table, [0x61]) == [0x61] && KeyComponents(table, [0x61]) == [[0x61]]
  {
    OverlongDecodes();
    OneFolds(table, [0x61, 0xC0, 0xAF, 0x62], [CodePoint(0x61), CodePoint(0x2F), CodePoint(0x62)]);
    OneFolds(table, [0x61], [CodePoint(0x61)]);
  }

  // ----- looking rows up in the shipped table

  function Find(rows: Rows, base: Scalar, mark: Scalar): Scalar
    decreases rows
  {
    match rows
    case End => 0
    case Then(b, m, c, rest) =>
      if b == base && m == mark then c else if KeyBefore(base, mark, b, m) then 0 else Find(rest, base, mark)
  }

  lemma {:induction false} FindIsPair(b0: Scalar, m0: Scalar, rows: Rows, base: Scalar, mark: Scalar)
    requires Fit(b0, m0, rows)
    ensures Pair(ToTable(rows), base, mark) == Find(rows, base, mark)
    decreases rows
  {
    if rows.Then? {
      var table, tail := ToTable(rows), ToTable(rows.rest);
      FitRows(b0, m0, rows);
      FindIsPair(rows.base, rows.mark, rows.rest, base, mark);
      PairInTail(table, base, mark);
      assert table[1..] == tail;
    }
  }

  lemma PairInTail(table: Table, base: Scalar, mark: Scalar)
    requires Sorted(table) && table != []
    ensures Pair(table, base, mark) ==
            if table[0].base == base && table[0].mark == mark then table[0].composed else Pair(table[1..], base, mark)
  {
    var tail := table[1..];
    if table[0].base == base && table[0].mark == mark {
      PairOfRow(table, 0);
    } else if i :| 0 <= i < |tail| && tail[i].base == base && tail[i].mark == mark {
      PairOfRow(tail, i);
      assert table[i + 1] == tail[i];
      PairOfRow(table, i + 1);
    } else {
      assert forall i :: 0 < i < |table| ==> table[i] == tail[i - 1];
    }
  }

  lemma CapitalHasNoLineBelow()
    ensures Find(Rows00(), 0x48, 0x331) == 0
  {
    assert Find(Rows00(), 0x48, 0x331) == Find(Rows01(), 0x48, 0x331);
    assert Find(Rows01(), 0x48, 0x331) == Find(Rows02(), 0x48, 0x331);
    assert Find(Rows02(), 0x48, 0x331) == Find(Rows03(), 0x48, 0x331);
    assert Find(Rows03(), 0x48, 0x331) == Find(Rows04(), 0x48, 0x331);
  }

  lemma SmallHasLineBelow()
    ensures Find(Rows00(), 0x68, 0x331) == 0x1E96
  {
    assert Find(Rows00(), 0x68, 0x331) == Find(Rows01(), 0x68, 0x331);
    assert Find(Rows01(), 0x68, 0x331) == Find(Rows02(), 0x68, 0x331);
    assert Find(Rows02(), 0x68, 0x331) == Find(Rows03(), 0x68, 0x331);
    assert Find(Rows03(), 0x68, 0x331) == Find(Rows04(), 0x68, 0x331);
    assert Find(Rows04(), 0x68, 0x331) == Find(Rows05(), 0x68, 0x331);
    assert Find(Rows05(), 0x68, 0x331) == Find(Rows06(), 0x68, 0x331);
    assert Find(Rows06(), 0x68, 0x331) == Find(Rows07(), 0x68, 0x331);
    assert Find(Rows07(), 0x68, 0x331) == Find(Rows08(), 0x68, 0x331);
    assert Find(Rows08(), 0x68, 0x331) == Find(Rows09(), 0x68, 0x331);
    assert Find(Rows09(), 0x68, 0x331) == Find(Rows10(), 0x68, 0x331);
    assert Find(Rows10(), 0x68, 0x331) == Find(Rows11(), 0x68, 0x331);
    assert Find(Rows11(), 0x68, 0x331) == Find(Rows12(), 0x68, 0x331);
    assert Find(Rows12(), 0x68, 0x331) == Find(Rows13(), 0x68, 0x331);
    assert Find(Rows13(), 0x68, 0x331) == Find(Rows14(), 0x68, 0x331);
    assert Find(Rows14(), 0x68, 0x331) == Find(Rows15(), 0x68, 0x331);
    assert Find(Rows15(), 0x68, 0x331) == Find(Rows16(), 0x68, 0x331);
    assert Find(Rows16(), 0x68, 0x331) == Find(Rows17(), 0x68, 0x331);
  }

  /** The shipped table is such a table. */
  lemma ShippedTableUnderlines()
    ensures var key := Key(NfcCompositions(), [0x48, 0xCC, 0xB1]); Key(NfcCompositions(), key) != key
  {
    TableIsWellFormed();
    CapitalHasNoLineBelow();
    SmallHasLineBelow();
    Rows00Fit();
    FindIsPair(0, 0, Rows00(), 0x48, 0x331);
    FindIsPair(0, 0, Rows00(), 0x68, 0x331);
    CapitalUnderlined(NfcCompositions());
  }
}
