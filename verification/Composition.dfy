/**
 Canonical composition of combining marks: `composePair` and `composeUtf8` of
 path_key.cpp, over any table of rows that satisfies WellFormed.
 */
module Composition {
  import opened Sequences
  import opened Utf8

  /** One row of the generated table: base + mark compose to `composed`. */
  datatype Row = Row(base: Scalar, mark: Scalar, composed: Scalar)

  type Table = seq<Row>

  predicate KeyBefore(base1: Scalar, mark1: Scalar, base2: Scalar, mark2: Scalar) {
    base1 < base2 || (base1 == base2 && mark1 < mark2)
  }

  /** The characters a path is cut and trimmed at: NUL, tab, space, '.', '/' and '\'. */
  predicate Structural(cp: Scalar) {
    cp in {0x00, 0x09, 0x20, 0x2E, 0x2F, 0x5C}
  }

  predicate RowOk(r: Row) {
    && !Structural(r.base)
    && 0x80 <= r.mark
    && 0x80 <= r.composed
    && |EncodeCodePoint(r.composed)| <= |EncodeCodePoint(r.base)| + |EncodeCodePoint(r.mark)|
  }

  predicate Sorted(table: Table) {
    forall i, j :: 0 <= i < j < |table| ==> KeyBefore(table[i].base, table[i].mark, table[j].base, table[j].mark)
  }

  predicate IsMark(table: Table, cp: Scalar) {
    exists i :: 0 <= i < |table| && table[i].mark == cp
  }

  predicate IsBase(table: Table, cp: Scalar) {
    exists i :: 0 <= i < |table| && table[i].base == cp
  }

  predicate IsComposed(table: Table, cp: Scalar) {
    exists i :: 0 <= i < |table| && table[i].composed == cp
  }

  /** What the generator guarantees of its table, and all the theorems need of it. */
  ghost predicate WellFormed(table: Table) {
    && Sorted(table)
    && (forall i :: 0 <= i < |table| ==> RowOk(table[i]))
    && (forall i :: 0 <= i < |table| ==> !IsMark(table, table[i].base) && !IsMark(table, table[i].composed))
  }

  // ----- one pair

  /** What base and mark compose to; 0 when no row says. */
  ghost function Pair(table: Table, base: Scalar, mark: Scalar): Scalar {
    if exists i :: 0 <= i < |table| && table[i].base == base && table[i].mark == mark then
      var i :| 0 <= i < |table| && table[i].base == base && table[i].mark == mark;
      table[i].composed
    else 0
  }

  lemma PairOfRow(table: Table, i: nat)
    requires Sorted(table) && i < |table|
    ensures Pair(table, table[i].base, table[i].mark) == table[i].composed
  {
    var k :| 0 <= k < |table| && table[k].base == table[i].base && table[k].mark == table[i].mark
             && Pair(table, table[i].base, table[i].mark) == table[k].composed;
    assert k == i;
  }

  /** The binary search finds the row there is, and only that. */
  method ComposePair(table: Table, base: Scalar, mark: Scalar) returns (composed: Scalar)
    requires Sorted(table)
    ensures composed == Pair(table, base, mark)
  {
    var lo, hi := 0, |table|;
    while lo < hi
      invariant 0 <= lo <= hi <= |table|
      invariant forall i :: 0 <= i < lo ==> KeyBefore(table[i].base, table[i].mark, base, mark)
      invariant forall i :: hi <= i < |table| ==> !KeyBefore(table[i].base, table[i].mark, base, mark)
    {
      var mid := (lo + hi) / 2;
      if KeyBefore(table[mid].base, table[mid].mark, base, mark) {
        lo := mid + 1;
      } else {
        hi := mid;
      }
    }
    if lo != |table| && table[lo].base == base && table[lo].mark == mark {
      PairOfRow(table, lo);
      return table[lo].composed;
    }
    assert forall i :: lo < i < |table| ==> KeyBefore(table[lo].base, table[lo].mark, table[i].base, table[i].mark);
    return 0;
  }

  // ----- item sequences

  datatype Pending = Nothing | Holding(cp: Scalar)

  /** The items that follow, after whatever is held back. */
  function Emit(pending: Pending, tail: seq<Item>): seq<Item> {
    if pending.Holding? then [CodePoint(pending.cp)] + tail else tail
  }

  /** One left-to-right pass: each code point composes with the one held back, or displaces it. */
  ghost function ComposeFrom(table: Table, pending: Pending, items: seq<Item>): seq<Item>
    decreases |items|
  {
    if items == [] then Emit(pending, [])
    else match items[0]
      case RawByte(b) => Emit(pending, [items[0]] + ComposeFrom(table, Nothing, items[1..]))
      case CodePoint(cp) =>
        if pending.Holding? && Pair(table, pending.cp, cp) != 0 then
          ComposeFrom(table, Holding(Pair(table, pending.cp, cp)), items[1..])
        else
          Emit(pending, ComposeFrom(table, Holding(cp), items[1..]))
  }

  ghost function Compose(table: Table, items: seq<Item>): seq<Item> {
    ComposeFrom(table, Nothing, items)
  }

  /** `composeUtf8` as a function of the bytes; the byte loop below computes it. */
  ghost function ComposeBytes(table: Table, s: seq<Byte>): seq<Byte> {
    Encode(Compose(table, Decode(s)))
  }

  method ComposeUtf8(table: Table, input: seq<Byte>) returns (out: seq<Byte>)
    requires Sorted(table)
    ensures out == ComposeBytes(table, input)
  {
    out := [];
    var pending := Nothing;
    var i := 0;
    assert input[0..] == input;
    while i < |input|
      invariant 0 <= i <= |input|
      invariant ComposeBytes(table, input) == out + Encode(ComposeFrom(table, pending, Decode(input[i..])))
    {
      ghost var rest := input[i..];
      var accepted, length, cp := ScanSequence(input, i);
      ComposeStep(table, pending, rest, out);
      if !accepted {
        out := Flush(pending, out) + [input[i]];
        pending := Nothing;
        i := i + 1;
      } else {
        i := i + length;
        var composed := 0;
        if pending.Holding? {
          composed := ComposePair(table, pending.cp, cp);
        }
        if composed != 0 {
          pending := Holding(composed);
        } else {
          out := Flush(pending, out);
          pending := Holding(cp);
        }
      }
      assert input[i..] == rest[Width(rest)..];
    }
    EncodeEmit(pending, [], out);
    out := Flush(pending, out);
  }

  function Flush(pending: Pending, out: seq<Byte>): seq<Byte> {
    if pending.Holding? then out + EncodeCodePoint(pending.cp) else out
  }

  /** One turn of the byte loop moves its output forward and changes nothing of the final string. */
  lemma ComposeStep(table: Table, pending: Pending, s: seq<Byte>, out: seq<Byte>)
    requires s != []
    ensures
      var rest := Decode(s[Width(s)..]);
      out + Encode(ComposeFrom(table, pending, Decode(s))) ==
      if First(s).RawByte? then
        Flush(pending, out) + [First(s).raw] + Encode(ComposeFrom(table, Nothing, rest))
      else if pending.Holding? && Pair(table, pending.cp, First(s).cp) != 0 then
        out + Encode(ComposeFrom(table, Holding(Pair(table, pending.cp, First(s).cp)), rest))
      else
        Flush(pending, out) + Encode(ComposeFrom(table, Holding(First(s).cp), rest))
  {
    var items := Decode(s);
    assert items[1..] == Decode(s[Width(s)..]);
    match First(s)
    case RawByte(b) =>
      var tail := ComposeFrom(table, Nothing, items[1..]);
      EncodeAppend([RawByte(b)], tail);
      EncodeEmit(pending, [RawByte(b)] + tail, out);
    case CodePoint(cp) =>
      EncodeEmit(pending, ComposeFrom(table, Holding(cp), items[1..]), out);
  }

  lemma EncodeEmit(pending: Pending, tail: seq<Item>, out: seq<Byte>)
    ensures out + Encode(Emit(pending, tail)) == Flush(pending, out) + Encode(tail)
  {
    if pending.Holding? {
      assert Emit(pending, tail)[1..] == tail;
    }
  }

  // ----- rejected bytes stay, and stay rejected

  lemma {:induction false} ComposeKeepsRawRun(table: Table, items: seq<Item>)
    ensures RawRun(Compose(table, items)) == RawRun(items)
  {
    if items != [] {
      match items[0]
      case RawByte(b) =>
        ComposeKeepsRawRun(table, items[1..]);
        assert Compose(table, items)[1..] == Compose(table, items[1..]);
      case CodePoint(cp) =>
        HeldComesFirst(table, cp, items[1..]);
    }
  }

  /** Whatever is held back comes out first, itself or composed with what follows it. */
  lemma {:induction false} HeldComesFirst(table: Table, cp: Scalar, items: seq<Item>)
    ensures var out := ComposeFrom(table, Holding(cp), items);
            out != [] && out[0].CodePoint? && (out[0].cp == cp || IsComposed(table, out[0].cp))
    decreases |items|
  {
    if items != [] && items[0].CodePoint? && Pair(table, cp, items[0].cp) != 0 {
      HeldComesFirst(table, Pair(table, cp, items[0].cp), items[1..]);
    }
  }

  /** Every rejected byte is copied, unchanged and in order, and nothing is added. */
  lemma {:induction false} ComposeKeepsRawBytes(table: Table, pending: Pending, items: seq<Item>)
    ensures RawBytes(ComposeFrom(table, pending, items)) == RawBytes(items)
    decreases |items|
  {
    if items != [] {
      match items[0]
      case RawByte(b) =>
        var rest := ComposeFrom(table, Nothing, items[1..]);
        ComposeKeepsRawBytes(table, Nothing, items[1..]);
        assert ([items[0]] + rest)[1..] == rest;
        EmitAddsNoRawByte(pending, [items[0]] + rest);
      case CodePoint(cp) =>
        if pending.Holding? && Pair(table, pending.cp, cp) != 0 {
          ComposeKeepsRawBytes(table, Holding(Pair(table, pending.cp, cp)), items[1..]);
        } else {
          ComposeKeepsRawBytes(table, Holding(cp), items[1..]);
          EmitAddsNoRawByte(pending, ComposeFrom(table, Holding(cp), items[1..]));
        }
    } else {
      EmitAddsNoRawByte(pending, []);
    }
  }

  lemma EmitAddsNoRawByte(pending: Pending, tail: seq<Item>)
    ensures RawBytes(Emit(pending, tail)) == RawBytes(tail)
    ensures Stable(tail) ==> Stable(Emit(pending, tail))
  {
    if pending.Holding? {
      assert Emit(pending, tail)[1..] == tail;
    }
  }

  lemma {:induction false} ComposeKeepsStable(table: Table, pending: Pending, items: seq<Item>)
    requires Stable(items)
    ensures Stable(ComposeFrom(table, pending, items))
    decreases |items|
  {
    if items != [] {
      match items[0]
      case RawByte(b) =>
        var rest := Compose(table, items[1..]);
        ComposeKeepsStable(table, Nothing, items[1..]);
        ComposeKeepsRawRun(table, items[1..]);
        assert ([items[0]] + rest)[1..] == rest;
        EmitAddsNoRawByte(pending, [items[0]] + rest);
      case CodePoint(cp) =>
        if pending.Holding? && Pair(table, pending.cp, cp) != 0 {
          ComposeKeepsStable(table, Holding(Pair(table, pending.cp, cp)), items[1..]);
        } else {
          ComposeKeepsStable(table, Holding(cp), items[1..]);
          EmitAddsNoRawByte(pending, ComposeFrom(table, Holding(cp), items[1..]));
        }
    } else {
      EmitAddsNoRawByte(pending, []);
    }
  }

  /** The composed bytes decode to the composed items, and keep every rejected byte. */
  lemma ComposedBytesDecode(table: Table, s: seq<Byte>)
    ensures Decode(ComposeBytes(table, s)) == Compose(table, Decode(s))
    ensures RawBytes(Decode(ComposeBytes(table, s))) == RawBytes(Decode(s))
    ensures ShortestForm(ComposeBytes(table, s))
  {
    DecodeIsStable(s);
    ComposeKeepsStable(table, Nothing, Decode(s));
    ComposeKeepsRawBytes(table, Nothing, Decode(s));
    DecodeEncode(Compose(table, Decode(s)));
  }

  // ----- composing is idempotent

  /** No two neighbours compose. */
  ghost predicate Settled(table: Table, items: seq<Item>) {
    forall i :: 0 < i < |items| && items[i - 1].CodePoint? && items[i].CodePoint? ==>
      Pair(table, items[i - 1].cp, items[i].cp) == 0
  }

  lemma NotAMark(table: Table, base: Scalar, cp: Scalar)
    requires !IsMark(table, cp)
    ensures Pair(table, base, cp) == 0
  {
  }

  lemma NotABase(table: Table, cp: Scalar, mark: Scalar)
    requires !IsBase(table, cp)
    ensures Pair(table, cp, mark) == 0
  {
  }

  lemma {:induction false} ComposeSettles(table: Table, pending: Pending, items: seq<Item>)
    requires WellFormed(table)
    ensures Settled(table, ComposeFrom(table, pending, items))
    decreases |items|
  {
    if items != [] {
      match items[0]
      case RawByte(b) =>
        ComposeSettles(table, Nothing, items[1..]);
      case CodePoint(cp) =>
        if pending.Holding? && Pair(table, pending.cp, cp) != 0 {
          ComposeSettles(table, Holding(Pair(table, pending.cp, cp)), items[1..]);
        } else {
          ComposeSettles(table, Holding(cp), items[1..]);
          HeldComesFirst(table, cp, items[1..]);
          var next := ComposeFrom(table, Holding(cp), items[1..])[0].cp;
          if pending.Holding? && next != cp {
            NotAMark(table, pending.cp, next);
          }
        }
    }
  }

  lemma SettledRest(table: Table, first: Item, rest: seq<Item>)
    requires Settled(table, [first] + rest)
    ensures Settled(table, rest)
    ensures first.CodePoint? && rest != [] && rest[0].CodePoint? ==> Pair(table, first.cp, rest[0].cp) == 0
  {
    var all := [first] + rest;
    assert rest != [] ==> all[0] == first && all[1] == rest[0];
    forall i | 0 < i < |rest| && rest[i - 1].CodePoint? && rest[i].CodePoint?
      ensures Pair(table, rest[i - 1].cp, rest[i].cp) == 0
    {
      assert all[i] == rest[i - 1] && all[i + 1] == rest[i];
    }
  }

  lemma {:induction false} SettledIsFixed(table: Table, pending: Pending, items: seq<Item>)
    requires Settled(table, Emit(pending, items))
    ensures ComposeFrom(table, pending, items) == Emit(pending, items)
    decreases |items|
  {
    if items != [] {
      var first, rest := items[0], items[1..];
      assert [first] + rest == items;
      if pending.Holding? {
        SettledRest(table, CodePoint(pending.cp), items);
      }
      SettledRest(table, first, rest);
      if first.RawByte? {
        SettledIsFixed(table, Nothing, rest);
      } else {
        SettledIsFixed(table, Holding(first.cp), rest);
      }
    }
  }

  /** Composing leaves exactly the settled sequences alone. */
  lemma ComposeFixpoints(table: Table, items: seq<Item>)
    requires WellFormed(table)
    ensures Compose(table, items) == items <==> Settled(table, items)
  {
    ComposeSettles(table, Nothing, items);
    if Settled(table, items) {
      SettledIsFixed(table, Nothing, items);
    }
  }

  /** Composing something away leaves fewer items; as many items means nothing composed. */
  lemma {:induction false} ComposeCounts(table: Table, pending: Pending, items: seq<Item>)
    ensures |ComposeFrom(table, pending, items)| <= |Emit(pending, items)|
    ensures |ComposeFrom(table, pending, items)| == |Emit(pending, items)| ==>
              ComposeFrom(table, pending, items) == Emit(pending, items)
    decreases |items|
  {
    if items != [] {
      var first, rest := items[0], items[1..];
      assert [first] + rest == items;
      if first.RawByte? {
        ComposeCounts(table, Nothing, rest);
      } else if pending.Holding? && Pair(table, pending.cp, first.cp) != 0 {
        ComposeCounts(table, Holding(Pair(table, pending.cp, first.cp)), rest);
      } else {
        ComposeCounts(table, Holding(first.cp), rest);
      }
    }
  }

  /** On every byte string, malformed ones included, composing twice is composing once. */
  lemma ComposeIdempotent(table: Table, s: seq<Byte>)
    requires WellFormed(table)
    ensures ComposeBytes(table, ComposeBytes(table, s)) == ComposeBytes(table, s)
  {
    ComposedBytesDecode(table, s);
    ComposeSettles(table, Nothing, Decode(s));
    ComposeFixpoints(table, Compose(table, Decode(s)));
  }

  // ----- one key for every spelling, and for nothing else

  /** b spells out one of a's composed characters as its base and mark. */
  ghost predicate SpellsOut(table: Table, a: seq<Byte>, b: seq<Byte>) {
    exists i: nat, pre: seq<Byte>, post: seq<Byte> :: SpellsOutAt(table, i, pre, post, a, b)
  }

  predicate SpellsOutAt(table: Table, i: nat, pre: seq<Byte>, post: seq<Byte>, a: seq<Byte>, b: seq<Byte>) {
    && i < |table|
    && a == pre + EncodeCodePoint(table[i].composed) + post
    && b == pre + EncodeCodePoint(table[i].base) + EncodeCodePoint(table[i].mark) + post
  }

  /** Each string spells out a character of its neighbour, in one direction or the other. */
  ghost predicate IsTrail(table: Table, trail: seq<seq<Byte>>) {
    trail != [] &&
    forall k :: 0 < k < |trail| ==> SpellsOut(table, trail[k - 1], trail[k]) || SpellsOut(table, trail[k], trail[k - 1])
  }

  ghost predicate SameSpelling(table: Table, a: seq<Byte>, b: seq<Byte>) {
    exists trail :: IsTrail(table, trail) && trail[0] == a && trail[|trail| - 1] == b
  }

  function Shortened(s: seq<Byte>): seq<Byte> {
    Encode(Decode(s))
  }

  lemma {:induction false} ComposeRow(table: Table, pending: Pending, pre: seq<Item>, i: nat, post: seq<Item>)
    requires WellFormed(table) && i < |table|
    ensures ComposeFrom(table, pending, pre + [CodePoint(table[i].composed)] + post) ==
            ComposeFrom(table, pending, pre + [CodePoint(table[i].base), CodePoint(table[i].mark)] + post)
    decreases |pre|
  {
    var row := table[i];
    var one, two := [CodePoint(row.composed)], [CodePoint(row.base), CodePoint(row.mark)];
    if pre == [] {
      PairOfRow(table, i);
      assert (pre + one + post)[1..] == post;
      assert (pre + two + post)[1..] == [CodePoint(row.mark)] + post;
      assert ([CodePoint(row.mark)] + post)[1..] == post;
      assert RowOk(row);
      if pending.Holding? {
        NotAMark(table, pending.cp, row.base);
        NotAMark(table, pending.cp, row.composed);
      }
    } else {
      assert (pre + one + post)[1..] == pre[1..] + one + post;
      assert (pre + two + post)[1..] == pre[1..] + two + post;
      var next := if pre[0].RawByte? then Nothing
                  else if pending.Holding? && Pair(table, pending.cp, pre[0].cp) != 0 then
                    Holding(Pair(table, pending.cp, pre[0].cp))
                  else Holding(pre[0].cp);
      ComposeRow(table, next, pre[1..], i, post);
    }
  }

  /** Spelling one character out, anywhere in any bytes, does not change what composing gives. */
  lemma ComposeSpelledOut(table: Table, a: seq<Byte>, b: seq<Byte>)
    requires WellFormed(table) && SpellsOut(table, a, b)
    ensures ComposeBytes(table, a) == ComposeBytes(table, b)
  {
    var i: nat, pre, post :| SpellsOutAt(table, i, pre, post, a, b);
    DecodeAround(pre, table[i].composed, post);
    DecodePairAround(pre, table[i].base, table[i].mark, post);
    ComposeRow(table, Nothing, Decode(pre), i, Decode(post));
  }

  lemma {:induction false} TrailKeepsComposed(table: Table, trail: seq<seq<Byte>>)
    requires WellFormed(table) && IsTrail(table, trail)
    ensures ComposeBytes(table, trail[0]) == ComposeBytes(table, trail[|trail| - 1])
  {
    if |trail| > 1 {
      if SpellsOut(table, trail[0], trail[1]) {
        ComposeSpelledOut(table, trail[0], trail[1]);
      } else {
        assert SpellsOut(table, trail[1], trail[1 - 1]);
        ComposeSpelledOut(table, trail[1], trail[0]);
      }
      TrailKeepsComposed(table, trail[1..]);
    }
  }

  /** A pass only ever replaces a base and its mark by what they compose to. */
  lemma {:induction false} ComposeTrail(table: Table, done: seq<Item>, pending: Pending, items: seq<Item>)
    returns (trail: seq<seq<Byte>>)
    ensures IsTrail(table, trail)
    ensures trail[0] == Encode(done + Emit(pending, items))
    ensures trail[|trail| - 1] == Encode(done + ComposeFrom(table, pending, items))
    decreases |items|
  {
    if items == [] {
      return [Encode(done + Emit(pending, items))];
    }
    var first, rest := items[0], items[1..];
    assert [first] + rest == items;
    if first.RawByte? {
      trail := ComposeTrail(table, done + Emit(pending, [first]), Nothing, rest);
      EmitMoves(done, pending, [first], rest);
      EmitMoves(done, pending, [first], Compose(table, rest));
    } else if pending.Holding? && Pair(table, pending.cp, first.cp) != 0 {
      trail := ComposeTrail(table, done, Holding(Pair(table, pending.cp, first.cp)), rest);
      SpellsOutPair(table, done, pending.cp, first.cp, rest);
      EmitTwo(pending.cp, first, rest);
      trail := LongerTrail(table, Encode(done + Emit(pending, items)), trail);
    } else {
      trail := ComposeTrail(table, done + Emit(pending, []), Holding(first.cp), rest);
      EmitMoves(done, pending, [], items);
      EmitMoves(done, pending, [], ComposeFrom(table, Holding(first.cp), rest));
    }
  }

  lemma LongerTrail(table: Table, a: seq<Byte>, trail: seq<seq<Byte>>) returns (longer: seq<seq<Byte>>)
    requires IsTrail(table, trail) && SpellsOut(table, trail[0], a)
    ensures IsTrail(table, longer) && longer[0] == a && longer[|longer| - 1] == trail[|trail| - 1]
  {
    longer := [a] + trail;
    forall k | 0 < k < |longer|
      ensures SpellsOut(table, longer[k - 1], longer[k]) || SpellsOut(table, longer[k], longer[k - 1])
    {
      assert longer[k] == trail[k - 1];
      if k > 1 { assert longer[k - 1] == trail[k - 2]; }
    }
  }

  lemma EmitTwo(cp: Scalar, first: Item, rest: seq<Item>)
    ensures Emit(Holding(cp), [first] + rest) == [CodePoint(cp), first] + rest
  {
  }

  lemma EmitMoves(done: seq<Item>, pending: Pending, some: seq<Item>, tail: seq<Item>)
    ensures done + Emit(pending, some) + tail == done + Emit(pending, some + tail)
    ensures [] + tail == tail
  {
    if pending.Holding? {
      Regroup(done, [CodePoint(pending.cp)], some, tail);
    } else {
      Associate(done, some, tail);
    }
  }

  lemma SpellsOutPair(table: Table, done: seq<Item>, base: Scalar, mark: Scalar, rest: seq<Item>)
    requires Pair(table, base, mark) != 0
    ensures SpellsOut(table, Encode(done + Emit(Holding(Pair(table, base, mark)), rest)),
                      Encode(done + ([CodePoint(base), CodePoint(mark)] + rest)))
  {
    var i :| 0 <= i < |table| && table[i].base == base && table[i].mark == mark
             && Pair(table, base, mark) == table[i].composed;
    var composed := table[i].composed;
    EncodeOneMore(done, composed, rest);
    EncodeOneMore(done + [CodePoint(base)], mark, rest);
    EncodeOneMore(done, base, []);
    assert done + [CodePoint(base)] + ([CodePoint(mark)] + rest) == done + ([CodePoint(base), CodePoint(mark)] + rest);
    assert done + ([CodePoint(base)] + []) == done + [CodePoint(base)];
    var a := Encode(done + ([CodePoint(composed)] + rest));
    var b := Encode(done + ([CodePoint(base), CodePoint(mark)] + rest));
    assert SpellsOutAt(table, i, Encode(done), Encode(rest), a, b);
  }

  lemma EncodeOneMore(done: seq<Item>, cp: Scalar, rest: seq<Item>)
    ensures Encode(done + ([CodePoint(cp)] + rest)) == Encode(done) + EncodeCodePoint(cp) + Encode(rest)
  {
    assert done + ([CodePoint(cp)] + rest) == done + [CodePoint(cp)] + rest;
    EncodeAround(done, cp, rest);
  }

  lemma SameSpellingAsComposed(table: Table, s: seq<Byte>)
    ensures SameSpelling(table, Shortened(s), ComposeBytes(table, s))
  {
    var trail := ComposeTrail(table, [], Nothing, Decode(s));
    assert [] + Decode(s) == Decode(s);
    assert [] + Compose(table, Decode(s)) == Compose(table, Decode(s));
  }

  lemma {:induction false} ReverseTrail(table: Table, trail: seq<seq<Byte>>) returns (back: seq<seq<Byte>>)
    requires IsTrail(table, trail)
    ensures IsTrail(table, back) && back[0] == trail[|trail| - 1] && back[|back| - 1] == trail[0]
  {
    var n := |trail|;
    back := seq(n, k requires 0 <= k < n => trail[n - 1 - k]);
    forall k | 0 < k < n
      ensures SpellsOut(table, back[k - 1], back[k]) || SpellsOut(table, back[k], back[k - 1])
    {
      assert back[k] == trail[(n - k) - 1] && back[k - 1] == trail[n - k];
    }
  }

  lemma ShortenedComposes(table: Table, s: seq<Byte>)
    ensures ComposeBytes(table, Shortened(s)) == ComposeBytes(table, s)
  {
    DecodeIsStable(s);
    DecodeEncode(Decode(s));
  }

  lemma SameSpellingJoins(table: Table, a: seq<Byte>, b: seq<Byte>, c: seq<Byte>)
    requires SameSpelling(table, a, c) && SameSpelling(table, b, c)
    ensures SameSpelling(table, a, b)
  {
    var there :| IsTrail(table, there) && there[0] == a && there[|there| - 1] == c;
    var other :| IsTrail(table, other) && other[0] == b && other[|other| - 1] == c;
    var back := ReverseTrail(table, other);
    var trail := there + back[1..];
    forall k | 0 < k < |trail|
      ensures SpellsOut(table, trail[k - 1], trail[k]) || SpellsOut(table, trail[k], trail[k - 1])
    {
      if k < |there| {
        assert trail[k] == there[k] && trail[k - 1] == there[k - 1];
      } else {
        var j := k - |there| + 1;
        assert trail[k] == back[j] && trail[k - 1] == back[j - 1];
      }
    }
    assert trail[0] == a && trail[|trail| - 1] == b && IsTrail(table, trail);
  }

  /**
   Two strings compose to the same bytes exactly when one can be turned into the other by
   spelling characters out and composing them, any number of times and to any depth.
   */
  lemma ComposeDecidesSpelling(table: Table, a: seq<Byte>, b: seq<Byte>)
    requires WellFormed(table)
    ensures ComposeBytes(table, a) == ComposeBytes(table, b) <==> SameSpelling(table, Shortened(a), Shortened(b))
  {
    if SameSpelling(table, Shortened(a), Shortened(b)) {
      var trail :| IsTrail(table, trail) && trail[0] == Shortened(a) && trail[|trail| - 1] == Shortened(b);
      TrailKeepsComposed(table, trail);
      ShortenedComposes(table, a);
      ShortenedComposes(table, b);
    }
    if ComposeBytes(table, a) == ComposeBytes(table, b) {
      SameSpellingAsComposed(table, a);
      SameSpellingAsComposed(table, b);
      SameSpellingJoins(table, Shortened(a), Shortened(b), ComposeBytes(table, a));
    }
  }

  // ----- composing keeps structure

  /** What is held back after one item more, and what is let go before it. */
  ghost function HeldAfter(table: Table, pending: Pending, first: Item): Pending {
    if first.RawByte? then Nothing
    else if pending.Holding? && Pair(table, pending.cp, first.cp) != 0 then Holding(Pair(table, pending.cp, first.cp))
    else Holding(first.cp)
  }

  ghost function LetGo(table: Table, pending: Pending, first: Item): seq<Item> {
    if first.RawByte? then Emit(pending, [first])
    else if pending.Holding? && Pair(table, pending.cp, first.cp) != 0 then []
    else Emit(pending, [])
  }

  lemma ComposeOne(table: Table, pending: Pending, first: Item, rest: seq<Item>)
    ensures ComposeFrom(table, pending, [first] + rest) ==
            LetGo(table, pending, first) + ComposeFrom(table, HeldAfter(table, pending, first), rest)
  {
    assert ([first] + rest)[1..] == rest;
    if first.RawByte? {
      EmitMoves([], pending, [first], Compose(table, rest));
    } else {
      EmitMoves([], pending, [], ComposeFrom(table, Holding(first.cp), rest));
    }
  }

  lemma StructuralPairsWithNone(table: Table, cp: Scalar, other: Scalar)
    requires WellFormed(table) && Structural(cp)
    ensures Pair(table, other, cp) == 0 && Pair(table, cp, other) == 0
  {
    assert forall i :: 0 <= i < |table| ==> RowOk(table[i]);
    assert !IsBase(table, cp) && !IsMark(table, cp);
    NotAMark(table, other, cp);
    NotABase(table, cp, other);
  }

  lemma ComposeAfterStructural(table: Table, cp: Scalar, b: seq<Item>)
    requires WellFormed(table) && Structural(cp)
    ensures ComposeFrom(table, Holding(cp), b) == [CodePoint(cp)] + Compose(table, b)
  {
    if b != [] {
      var first, rest := b[0], b[1..];
      assert b == [first] + rest;
      if first.CodePoint? { StructuralPairsWithNone(table, cp, first.cp); }
      ComposeOne(table, Holding(cp), first, rest);
      ComposeOne(table, Nothing, first, rest);
      var free, next := LetGo(table, Nothing, first), HeldAfter(table, Nothing, first);
      assert LetGo(table, Holding(cp), first) == [CodePoint(cp)] + free;
      Associate([CodePoint(cp)], free, ComposeFrom(table, next, rest));
    }
  }

  /** A structural character is let go as it is. */
  lemma ComposeAtStructural(table: Table, pending: Pending, cp: Scalar, b: seq<Item>)
    requires WellFormed(table) && Structural(cp)
    ensures ComposeFrom(table, pending, [CodePoint(cp)] + b) == Emit(pending, []) + [CodePoint(cp)] + Compose(table, b)
  {
    if pending.Holding? { StructuralPairsWithNone(table, cp, pending.cp); }
    ComposeOne(table, pending, CodePoint(cp), b);
    ComposeAfterStructural(table, cp, b);
    Associate(Emit(pending, []), [CodePoint(cp)], Compose(table, b));
  }

  /** Nothing composes with a structural character, so a string composes piece by piece around one. */
  lemma {:induction false} ComposeAround(table: Table, pending: Pending, a: seq<Item>, cp: Scalar, b: seq<Item>)
    requires WellFormed(table) && Structural(cp)
    ensures ComposeFrom(table, pending, a + [CodePoint(cp)] + b) ==
            ComposeFrom(table, pending, a) + [CodePoint(cp)] + Compose(table, b)
    decreases |a|
  {
    if a == [] {
      assert a + [CodePoint(cp)] + b == [CodePoint(cp)] + b;
      ComposeAtStructural(table, pending, cp, b);
    } else {
      var first, rest, next := a[0], a[1..], HeldAfter(table, pending, a[0]);
      assert a == [first] + rest && a + [CodePoint(cp)] + b == [first] + (rest + [CodePoint(cp)] + b);
      ComposeOne(table, pending, first, rest);
      ComposeOne(table, pending, first, rest + [CodePoint(cp)] + b);
      ComposeAround(table, next, rest, cp, b);
      Regroup(LetGo(table, pending, first), ComposeFrom(table, next, rest), [CodePoint(cp)], Compose(table, b));
    }
  }

  /** Composing never makes a string longer. */
  lemma {:induction false} ComposeNeverLengthens(table: Table, pending: Pending, items: seq<Item>)
    requires WellFormed(table)
    ensures |Encode(ComposeFrom(table, pending, items))| <= |Encode(Emit(pending, items))|
    decreases |items|
  {
    if items != [] {
      EncodeEmit(pending, items, []);
      match items[0]
      case RawByte(b) =>
        var tail := ComposeFrom(table, Nothing, items[1..]);
        ComposeNeverLengthens(table, Nothing, items[1..]);
        assert ([items[0]] + tail)[1..] == tail;
        EncodeEmit(pending, [items[0]] + tail, []);
      case CodePoint(cp) =>
        var composed := if pending.Holding? then Pair(table, pending.cp, cp) else 0;
        if composed != 0 {
          ComposeNeverLengthens(table, Holding(composed), items[1..]);
          EncodeEmit(Holding(composed), items[1..], []);
          var i :| 0 <= i < |table| && table[i].base == pending.cp && table[i].mark == cp
                   && table[i].composed == composed;
          assert RowOk(table[i]);
        } else {
          ComposeNeverLengthens(table, Holding(cp), items[1..]);
          EncodeEmit(pending, ComposeFrom(table, Holding(cp), items[1..]), []);
          assert Emit(Holding(cp), items[1..]) == items;
        }
    }
  }
}
