/** Composing and then lowercasing a name: the last two steps of `normalizedPathKey`. */
module Folding {
  import opened Utf8
  import opened Composition
  import opened CaseFolding
  import opened LexicalPath

  ghost function Fold(table: Table, s: seq<Byte>): seq<Byte> {
    LowerBytes(ComposeBytes(table, s))
  }

  ghost function FoldItems(table: Table, items: seq<Item>): seq<Item> {
    Lower(Compose(table, items))
  }

  /** Folding bytes is folding what they decode to. */
  lemma FoldDecodes(table: Table, s: seq<Byte>)
    ensures Fold(table, s) == Encode(FoldItems(table, Decode(s)))
    ensures Decode(Fold(table, s)) == FoldItems(table, Decode(s))
    ensures ShortestForm(Fold(table, s))
  {
    ComposedBytesDecode(table, s);
    LoweredBytesDecode(ComposeBytes(table, s));
  }

  lemma FoldOfShortened(table: Table, s: seq<Byte>)
    ensures Fold(table, Shortened(s)) == Fold(table, s)
  {
    ShortenedComposes(table, s);
  }

  /** Around a structural character, a string folds piece by piece. */
  lemma FoldAround(table: Table, a: seq<Byte>, c: Byte, b: seq<Byte>)
    requires WellFormed(table) && Structural(c)
    ensures Fold(table, a + [c] + b) == Fold(table, a) + [c] + Fold(table, b)
  {
    FoldDecodes(table, a);
    FoldDecodes(table, b);
    FoldDecodes(table, a + [c] + b);
    assert EncodeCodePoint(c) == [c];
    DecodeAround(a, c, b);
    ComposeAround(table, Nothing, Decode(a), c, Decode(b));
    LowerCodePointFacts(c);
    LowerAround(Compose(table, Decode(a)), c, Compose(table, Decode(b)));
    EncodeAround(FoldItems(table, Decode(a)), c, FoldItems(table, Decode(b)));
  }

  lemma FoldSnoc(table: Table, a: seq<Byte>, c: Byte)
    requires WellFormed(table) && Structural(c)
    ensures Fold(table, a + [c]) == Fold(table, a) + [c]
  {
    FoldAround(table, a, c, []);
    FoldOfEmpty(table);
    assert a + [c] + [] == a + [c];
    assert Fold(table, a) + [c] + [] == Fold(table, a) + [c];
  }

  lemma FoldOfEmpty(table: Table)
    ensures Fold(table, []) == []
  {
    FoldDecodes(table, []);
  }

  /** Folding never lengthens. */
  lemma FoldNeverLengthens(table: Table, s: seq<Byte>)
    requires WellFormed(table)
    ensures |Fold(table, s)| <= |s|
  {
    ComposeNeverLengthens(table, Nothing, Decode(s));
    ShortestFormByLength(s);
    LowerKeepsLength(ComposeBytes(table, s));
  }

  lemma FoldOfSome(table: Table, s: seq<Byte>)
    requires s != []
    ensures Fold(table, s) != []
  {
    FoldDecodes(table, s);
    var items := Decode(s);
    if items[0].CodePoint? {
      HeldComesFirst(table, items[0].cp, items[1..]);
    }
  }

  // ----- structural characters neither come nor go

  lemma {:induction false} ComposeKeepsStructural(table: Table, pending: Pending, items: seq<Item>, c: Scalar)
    requires WellFormed(table) && Structural(c)
    ensures CodePoint(c) in ComposeFrom(table, pending, items) <==>
            CodePoint(c) in items || pending == Holding(c)
    decreases |items|
  {
    if items != [] {
      assert items == [items[0]] + items[1..];
      match items[0]
      case RawByte(b) =>
        ComposeKeepsStructural(table, Nothing, items[1..], c);
      case CodePoint(cp) =>
        var composed := if pending.Holding? then Pair(table, pending.cp, cp) else 0;
        if composed != 0 {
          ComposeKeepsStructural(table, Holding(composed), items[1..], c);
          NeverStructural(table, pending.cp, cp);
        } else {
          ComposeKeepsStructural(table, Holding(cp), items[1..], c);
        }
    }
  }

  lemma NeverStructural(table: Table, base: Scalar, mark: Scalar)
    requires WellFormed(table) && Pair(table, base, mark) != 0
    ensures !Structural(base) && !Structural(mark) && !Structural(Pair(table, base, mark))
  {
    var i :| 0 <= i < |table| && table[i].base == base && table[i].mark == mark
             && Pair(table, base, mark) == table[i].composed;
    assert RowOk(table[i]);
  }

  lemma {:induction false} LowerKeepsStructural(items: seq<Item>, c: Scalar)
    requires Structural(c)
    ensures CodePoint(c) in Lower(items) <==> CodePoint(c) in items
  {
    if items != [] {
      LowerKeepsStructural(items[1..], c);
      assert items == [items[0]] + items[1..];
      if items[0].CodePoint? {
        LowerCodePointFacts(items[0].cp);
      }
    }
  }

  lemma {:induction false} BytesOfEncoding(items: seq<Item>, c: Byte)
    requires Stable(items) && c < 0x80
    ensures c in Encode(items) <==> CodePoint(c) in items
  {
    if items != [] {
      BytesOfEncoding(items[1..], c);
      assert items == [items[0]] + items[1..];
      if items[0].CodePoint? {
        var e := EncodeCodePoint(items[0].cp);
        assert forall k :: 1 <= k < |e| ==> IsContinuation(e[k]);
      }
    }
  }

  /** A structural byte stands in the folded string exactly where the string decodes to one. */
  lemma FoldKeepsStructural(table: Table, s: seq<Byte>, c: Byte)
    requires WellFormed(table) && Structural(c)
    ensures c in Fold(table, s) <==> CodePoint(c) in Decode(s)
    ensures ShortestForm(s) ==> (c in Fold(table, s) <==> c in s)
  {
    FoldDecodes(table, s);
    DecodeIsStable(s);
    DecodeIsStable(Fold(table, s));
    BytesOfEncoding(FoldItems(table, Decode(s)), c);
    BytesOfEncoding(Decode(s), c);
    ComposeKeepsStructural(table, Nothing, Decode(s), c);
    LowerKeepsStructural(Compose(table, Decode(s)), c);
  }

  lemma {:induction false} ComposeEndsStructural(table: Table, pending: Pending, items: seq<Item>, c: Scalar)
    requires WellFormed(table) && Structural(c)
    requires ComposeFrom(table, pending, items) != [] && Last(ComposeFrom(table, pending, items)) == CodePoint(c)
    ensures if items == [] then pending == Holding(c) else Last(items) == CodePoint(c)
    decreases |items|
  {
    if items != [] {
      var first, rest := items[0], items[1..];
      if first.RawByte? {
        EndOfEmit(pending, [first] + Compose(table, rest));
        if rest != [] {
          ComposeIsSome(table, rest);
          ComposeEndsStructural(table, Nothing, rest, c);
        }
      } else if pending.Holding? && Pair(table, pending.cp, first.cp) != 0 {
        NeverStructural(table, pending.cp, first.cp);
        ComposeEndsStructural(table, Holding(Pair(table, pending.cp, first.cp)), rest, c);
      } else {
        HeldComesFirst(table, first.cp, rest);
        EndOfEmit(pending, ComposeFrom(table, Holding(first.cp), rest));
        ComposeEndsStructural(table, Holding(first.cp), rest, c);
      }
    }
  }

  lemma EndOfEmit(pending: Pending, tail: seq<Item>)
    requires tail != []
    ensures Last(Emit(pending, tail)) == Last(tail)
  {
  }

  lemma ComposeIsSome(table: Table, items: seq<Item>)
    requires items != []
    ensures Compose(table, items) != []
  {
    if items[0].CodePoint? {
      HeldComesFirst(table, items[0].cp, items[1..]);
    }
  }

  lemma {:induction false} LastOfEncoding(items: seq<Item>, c: Byte)
    requires Stable(items) && c < 0x80 && items != []
    ensures Encode(items) != []
    ensures Last(Encode(items)) == c <==> Last(items) == CodePoint(c)
  {
    var first, rest := items[0], items[1..];
    if rest == [] {
      LastOfOne(first, c);
      assert EncodeItem(first) + [] == EncodeItem(first);
    } else {
      LastOfEncoding(rest, c);
      assert Last(EncodeItem(first) + Encode(rest)) == Last(Encode(rest));
    }
  }

  lemma LastOfOne(first: Item, c: Byte)
    requires c < 0x80 && (first.RawByte? ==> first.raw >= 0x80)
    ensures Last(EncodeItem(first)) == c <==> first == CodePoint(c)
  {
  }

  /** The folded string ends in a structural byte exactly when the string itself does. */
  lemma FoldKeepsEnd(table: Table, s: seq<Byte>, c: Byte)
    requires WellFormed(table) && Structural(c) && ShortestForm(s) && s != []
    ensures Fold(table, s) != []
    ensures Last(Fold(table, s)) == c <==> Last(s) == c
  {
    FoldOfSome(table, s);
    if Last(s) == c {
      FoldSnoc(table, Init(s), c);
      assert Init(s) + [c] == s;
    }
    if Last(Fold(table, s)) == c {
      FoldAddsNoEnd(table, s, c);
    }
  }

  lemma FoldAddsNoEnd(table: Table, s: seq<Byte>, c: Byte)
    requires WellFormed(table) && Structural(c) && ShortestForm(s) && s != []
    requires Fold(table, s) != [] && Last(Fold(table, s)) == c
    ensures Last(s) == c
  {
    FoldDecodes(table, s);
    DecodeIsStable(s);
    DecodeIsStable(Fold(table, s));
    LastOfEncoding(FoldItems(table, Decode(s)), c);
    FoldItemsEnd(table, Decode(s), c);
    LastOfEncoding(Decode(s), c);
  }

  lemma FoldItemsEnd(table: Table, items: seq<Item>, c: Byte)
    requires WellFormed(table) && Structural(c) && items != []
    requires FoldItems(table, items) != [] && Last(FoldItems(table, items)) == CodePoint(c)
    ensures Last(items) == CodePoint(c)
  {
    var composed := Compose(table, items);
    LowerAt(composed, |composed| - 1);
    LowerCodePointFacts(Last(composed).cp);
    ComposeEndsStructural(table, Nothing, items, c);
  }

  // ----- components

  ghost function FoldAll(table: Table, comps: seq<Component>): (out: seq<Component>)
    ensures |out| == |comps|
  {
    if comps == [] then [] else FoldAll(table, Init(comps)) + [Fold(table, Last(comps))]
  }

  lemma {:induction false} FoldAllAt(table: Table, comps: seq<Component>, i: nat)
    requires i < |comps|
    ensures FoldAll(table, comps)[i] == Fold(table, comps[i])
  {
    if i < |comps| - 1 { FoldAllAt(table, Init(comps), i); }
  }

  lemma {:induction false} FoldJoin(table: Table, comps: seq<Component>)
    requires WellFormed(table)
    ensures Fold(table, Join(comps)) == Join(FoldAll(table, comps))
  {
    if comps == [] {
      FoldOfEmpty(table);
    } else if |comps| == 1 {
      FoldAllAt(table, comps, 0);
    } else {
      FoldJoin(table, Init(comps));
      FoldAround(table, Join(Init(comps)), SLASH, Last(comps));
      var all := FoldAll(table, comps);
      assert Init(all) == FoldAll(table, Init(comps));
    }
  }

  /** On shortest-form names, folding keeps what kind of component each is. */
  lemma FoldKeepsKind(table: Table, c: Component)
    requires WellFormed(table) && ShortestForm(c)
    ensures KindOf(Fold(table, c)) == KindOf(c)
    ensures SLASH !in c ==> SLASH !in Fold(table, c)
  {
    FoldKeepsStructural(table, c, SLASH);
    if c == [] {
      FoldOfEmpty(table);
    } else {
      FoldOfSome(table, c);
      DotsFoldToDots(table, c);
    }
  }

  lemma OneDot(table: Table, c: Component)
    requires WellFormed(table) && ShortestForm(c)
    ensures Fold(table, c) == DOT <==> c == DOT
  {
    FoldOfEmpty(table);
    if c != [] {
      FoldKeepsEnd(table, c, 0x2E);
      assert Init(c) + [Last(c)] == c;
      if Last(c) == 0x2E {
        DotAfter(table, Init(c));
      }
    }
  }

  /** Before a dot, something stays something and nothing nothing. */
  lemma DotAfter(table: Table, front: seq<Byte>)
    requires WellFormed(table)
    ensures Fold(table, front + DOT) == Fold(table, front) + DOT
    ensures Fold(table, front) == [] <==> front == []
  {
    FoldSnoc(table, front, 0x2E);
    FoldOfEmpty(table);
    if front != [] { FoldOfSome(table, front); }
  }

  lemma DotsFoldToDots(table: Table, c: Component)
    requires WellFormed(table) && ShortestForm(c) && c != []
    ensures Fold(table, c) == DOT <==> c == DOT
    ensures Fold(table, c) == DOT_DOT <==> c == DOT_DOT
  {
    OneDot(table, c);
    FoldKeepsEnd(table, c, 0x2E);
    if Last(c) == 0x2E {
      var front := Init(c);
      DotAfter(table, front);
      assert front + DOT == c && front + DOT + [] == c;
      ShortestFormAround(front, 0x2E, []);
      OneDot(table, front);
      EndsInDot(front);
      EndsInDot(Fold(table, front));
    }
  }

  lemma EndsInDot(front: seq<Byte>)
    ensures front + DOT == DOT_DOT <==> front == DOT
  {
    assert DOT_DOT == DOT + DOT;
    assert Init(front + DOT) == front && Init(DOT_DOT) == DOT;
  }

  /** A string is in shortest form exactly when its pieces around an ASCII byte are. */
  lemma ShortestFormAround(a: seq<Byte>, c: Byte, b: seq<Byte>)
    requires c < 0x80
    ensures ShortestForm(a + [c] + b) <==> ShortestForm(a) && ShortestForm(b)
  {
    assert EncodeCodePoint(c) == [c];
    DecodeAround(a, c, b);
    EncodeAppend(Decode(a) + [CodePoint(c)], Decode(b));
    EncodeAppend(Decode(a), [CodePoint(c)]);
    ShortestFormByLength(a);
    ShortestFormByLength(b);
    ShortestFormByLength(a + [c] + b);
  }

  ghost predicate AllShortest(comps: seq<Component>) {
    forall i :: 0 <= i < |comps| ==> ShortestForm(comps[i])
  }

  lemma {:induction false} JoinIsShortest(comps: seq<Component>)
    ensures ShortestForm(Join(comps)) <==> AllShortest(comps)
  {
    if comps == [] {
      assert Decode([]) == [];
    } else if |comps| > 1 {
      JoinIsShortest(Init(comps));
      ShortestFormAround(Join(Init(comps)), SLASH, Last(comps));
      AllShortestByLast(comps);
    }
  }

  lemma AllShortestByLast(comps: seq<Component>)
    requires comps != []
    ensures AllShortest(comps) <==> AllShortest(Init(comps)) && ShortestForm(Last(comps))
  {
    assert forall i :: 0 <= i < |comps| - 1 ==> comps[i] == Init(comps)[i];
  }
}
