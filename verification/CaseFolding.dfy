/** Lowercasing of path_key.cpp: `lowerCodePoint` and `lowerUtf8`. */
module CaseFolding {
  import opened Utf8

  function LowerCodePoint(cp: Scalar): Scalar {
    if 0x41 <= cp <= 0x5A then cp + 32
    else if 0x00C0 <= cp <= 0x00D6 || 0x00D8 <= cp <= 0x00DE then cp + 32
    else if 0x0100 <= cp <= 0x0137 then (if cp % 2 == 0 then cp + 1 else cp)
    else if 0x0139 <= cp <= 0x0148 then (if cp % 2 == 1 then cp + 1 else cp)
    else if 0x014A <= cp <= 0x0177 then (if cp % 2 == 0 then cp + 1 else cp)
    else if cp == 0x0178 then 0x00FF
    else if 0x0179 <= cp <= 0x017E then (if cp % 2 == 1 then cp + 1 else cp)
    else if 0x0391 <= cp <= 0x03A1 || 0x03A3 <= cp <= 0x03AB then cp + 32
    else if cp == 0x0386 then 0x03AC
    else if cp == 0x0388 then 0x03AD
    else if cp == 0x0389 then 0x03AE
    else if cp == 0x038A then 0x03AF
    else if cp == 0x038C then 0x03CC
    else if cp == 0x038E then 0x03CD
    else if cp == 0x038F then 0x03CE
    else if 0x0410 <= cp <= 0x042F then cp + 32
    else if 0x0400 <= cp <= 0x040F then cp + 80
    else cp
  }

  /** The capitals the mapping knows: exactly the code points it moves. */
  predicate IsCapital(cp: Scalar) {
    LowerCodePoint(cp) != cp
  }

  /**
   No lowercased code point is itself a capital, lowercasing keeps the encoded width, and only the
   ASCII capitals land in ASCII.
   */
  lemma LowerCodePointFacts(cp: Scalar)
    ensures !IsCapital(LowerCodePoint(cp))
    ensures |EncodeCodePoint(LowerCodePoint(cp))| == |EncodeCodePoint(cp)|
    ensures LowerCodePoint(cp) < 0x80 ==> LowerCodePoint(cp) == cp || 0x61 <= LowerCodePoint(cp) <= 0x7A
    ensures cp < 0x41 || 0x5A < cp < 0x80 ==> LowerCodePoint(cp) == cp
  {
  }

  /** One case pair per capital: no two capitals share a small letter. */
  lemma CapitalsStayApart(a: Scalar, b: Scalar)
    requires IsCapital(a) && IsCapital(b) && LowerCodePoint(a) == LowerCodePoint(b)
    ensures a == b
  {
  }

  /** The capitals, one by one or by the parity they have in blocks where the two cases take turns. */
  lemma CapitalsAre(cp: Scalar)
    ensures IsCapital(cp) <==>
            || 0x41 <= cp <= 0x5A
            || 0xC0 <= cp <= 0xD6 || 0xD8 <= cp <= 0xDE
            || (0x100 <= cp <= 0x137 && cp % 2 == 0)
            || (0x139 <= cp <= 0x148 && cp % 2 == 1)
            || (0x14A <= cp <= 0x177 && cp % 2 == 0)
            || cp == 0x178
            || (0x179 <= cp <= 0x17E && cp % 2 == 1)
            || cp == 0x386 || 0x388 <= cp <= 0x38A || cp == 0x38C || cp == 0x38E || cp == 0x38F
            || 0x391 <= cp <= 0x3A1 || 0x3A3 <= cp <= 0x3AB
            || 0x400 <= cp <= 0x42F
  {
  }

  /** The capitals from first to last have the code points from small to smallLast, in order, as their small letters. */
  ghost predicate InOrderOnto(first: Scalar, last: Scalar, small: Scalar, smallLast: Scalar) {
    && (forall a :: first <= a <= last && IsCapital(a) ==> small <= LowerCodePoint(a) <= smallLast)
    && (forall a, b :: first <= a < b <= last && IsCapital(a) && IsCapital(b) ==> LowerCodePoint(a) < LowerCodePoint(b))
    && (forall c :: small <= c <= smallLast && !IsCapital(c) ==>
          exists a :: first <= a <= last && IsCapital(a) && LowerCodePoint(a) == c)
  }

  lemma Onto(first: Scalar, last: Scalar, small: Scalar, smallLast: Scalar)
    requires last - first == smallLast - small
    requires forall a :: first <= a <= last && IsCapital(a) ==> LowerCodePoint(a) == a + (small - first)
    requires forall c: Scalar :: small <= c <= smallLast && !IsCapital(c) ==>
               c - (small - first) >= 0 && IsCapital(c - (small - first))
    ensures InOrderOnto(first, last, small, smallLast)
  {
    forall c | small <= c <= smallLast && !IsCapital(c)
      ensures exists a :: first <= a <= last && IsCapital(a) && LowerCodePoint(a) == c
    {
      var a: Scalar := c - (small - first);
      assert first <= a <= last && IsCapital(a) && LowerCodePoint(a) == c;
    }
  }

  // Block by block, each capital has its own small letter, in the order of the alphabet, and none is left over.

  /** ASCII. */
  lemma AsciiFollows()
    ensures InOrderOnto(0x41, 0x5A, 0x61, 0x7A)
  {
    Onto(0x41, 0x5A, 0x61, 0x7A);
  }

  /** Latin-1 but for the multiplication sign, with the capital of its last letter. */
  lemma LatinFollows()
    ensures InOrderOnto(0xC0, 0xD6, 0xE0, 0xF6)
    ensures InOrderOnto(0xD8, 0xDE, 0xF8, 0xFE)
    ensures InOrderOnto(0x178, 0x178, 0xFF, 0xFF)
  {
    Onto(0xC0, 0xD6, 0xE0, 0xF6);
    Onto(0xD8, 0xDE, 0xF8, 0xFE);
    Onto(0x178, 0x178, 0xFF, 0xFF);
  }

  /** Latin Extended-A, where capital and small letter take turns. */
  lemma LatinExtendedFollows()
    ensures InOrderOnto(0x100, 0x136, 0x101, 0x137)
    ensures InOrderOnto(0x139, 0x147, 0x13A, 0x148)
  {
    Onto(0x100, 0x136, 0x101, 0x137);
    Onto(0x139, 0x147, 0x13A, 0x148);
  }

  /** Its second half. */
  lemma LatinExtendedOnFollows()
    ensures InOrderOnto(0x14A, 0x176, 0x14B, 0x177)
    ensures InOrderOnto(0x179, 0x17D, 0x17A, 0x17E)
  {
    Onto(0x14A, 0x176, 0x14B, 0x177);
    Onto(0x179, 0x17D, 0x17A, 0x17E);
  }

  /** The accented Greek letters alpha, epsilon, eta and iota. */
  lemma AccentedGreekFollows()
    ensures InOrderOnto(0x386, 0x386, 0x3AC, 0x3AC)
    ensures InOrderOnto(0x388, 0x38A, 0x3AD, 0x3AF)
  {
    Onto(0x386, 0x386, 0x3AC, 0x3AC);
    Onto(0x388, 0x38A, 0x3AD, 0x3AF);
  }

  /** And omicron, upsilon and omega. */
  lemma AccentedGreekOnFollows()
    ensures InOrderOnto(0x38C, 0x38C, 0x3CC, 0x3CC)
    ensures InOrderOnto(0x38E, 0x38F, 0x3CD, 0x3CE)
  {
    Onto(0x38C, 0x38C, 0x3CC, 0x3CC);
    Onto(0x38E, 0x38F, 0x3CD, 0x3CE);
  }

  /** The other Greek letters. */
  lemma GreekFollows()
    ensures InOrderOnto(0x391, 0x3A1, 0x3B1, 0x3C1)
    ensures InOrderOnto(0x3A3, 0x3AB, 0x3C3, 0x3CB)
  {
    Onto(0x391, 0x3A1, 0x3B1, 0x3C1);
    Onto(0x3A3, 0x3AB, 0x3C3, 0x3CB);
  }

  /** Cyrillic. */
  lemma CyrillicFollows()
    ensures InOrderOnto(0x400, 0x40F, 0x450, 0x45F)
    ensures InOrderOnto(0x410, 0x42F, 0x430, 0x44F)
  {
    Onto(0x400, 0x40F, 0x450, 0x45F);
    Onto(0x410, 0x42F, 0x430, 0x44F);
  }

  function LowerItem(it: Item): Item {
    if it.CodePoint? then CodePoint(LowerCodePoint(it.cp)) else it
  }

  function Lower(items: seq<Item>): (out: seq<Item>)
    ensures |out| == |items|
  {
    if items == [] then [] else [LowerItem(items[0])] + Lower(items[1..])
  }

  /** `lowerUtf8` as a function of the bytes. */
  function LowerBytes(s: seq<Byte>): seq<Byte> {
    Encode(Lower(Decode(s)))
  }

  method LowerUtf8(input: seq<Byte>) returns (out: seq<Byte>)
    ensures out == LowerBytes(input)
  {
    out := [];
    var i := 0;
    assert input[0..] == input;
    while i < |input|
      invariant 0 <= i <= |input|
      invariant LowerBytes(input) == out + LowerBytes(input[i..])
    {
      ghost var rest := input[i..];
      var accepted, length, cp := ScanSequence(input, i);
      LowerStep(rest, out);
      if !accepted {
        out := out + [input[i]];
        i := i + 1;
      } else {
        out := out + EncodeCodePoint(LowerCodePoint(cp));
        i := i + length;
      }
      assert input[i..] == rest[Width(rest)..];
    }
  }

  lemma LowerStep(s: seq<Byte>, out: seq<Byte>)
    requires s != []
    ensures out + LowerBytes(s) == out + EncodeItem(LowerItem(First(s))) + LowerBytes(s[Width(s)..])
  {
    assert Decode(s)[1..] == Decode(s[Width(s)..]);
    assert Lower(Decode(s))[1..] == Lower(Decode(s)[1..]);
  }

  // ----- what lowercasing keeps

  lemma {:induction false} LowerAt(items: seq<Item>, i: nat)
    requires i < |items|
    ensures Lower(items)[i] == LowerItem(items[i])
  {
    if i > 0 { LowerAt(items[1..], i - 1); }
  }

  lemma {:induction false} LowerAppend(a: seq<Item>, b: seq<Item>)
    ensures Lower(a + b) == Lower(a) + Lower(b)
  {
    if a == [] {
      assert a + b == b;
    } else {
      assert (a + b)[1..] == a[1..] + b;
      LowerAppend(a[1..], b);
    }
  }

  lemma LowerAround(a: seq<Item>, cp: Scalar, b: seq<Item>)
    ensures Lower(a + [CodePoint(cp)] + b) == Lower(a) + [CodePoint(LowerCodePoint(cp))] + Lower(b)
  {
    LowerAppend(a + [CodePoint(cp)], b);
    LowerAppend(a, [CodePoint(cp)]);
    assert [CodePoint(cp)][1..] == [];
  }

  lemma {:induction false} LowerKeepsStable(items: seq<Item>)
    ensures RawRun(Lower(items)) == RawRun(items)
    ensures RawBytes(Lower(items)) == RawBytes(items)
    ensures Stable(items) ==> Stable(Lower(items))
    ensures |Encode(Lower(items))| == |Encode(items)|
  {
    if items != [] {
      LowerKeepsStable(items[1..]);
      assert Lower(items)[1..] == Lower(items[1..]);
      if items[0].CodePoint? { LowerCodePointFacts(items[0].cp); }
    }
  }

  lemma {:induction false} LowerTwice(items: seq<Item>)
    ensures Lower(Lower(items)) == Lower(items)
  {
    if items != [] {
      LowerTwice(items[1..]);
      assert Lower(items)[1..] == Lower(items[1..]);
      if items[0].CodePoint? { LowerCodePointFacts(items[0].cp); }
    }
  }

  /** The lowered bytes decode to the lowered items, and every rejected byte is still there. */
  lemma LoweredBytesDecode(s: seq<Byte>)
    ensures Decode(LowerBytes(s)) == Lower(Decode(s))
    ensures RawBytes(Decode(LowerBytes(s))) == RawBytes(Decode(s))
    ensures ShortestForm(LowerBytes(s))
  {
    DecodeIsStable(s);
    LowerKeepsStable(Decode(s));
    DecodeEncode(Lower(Decode(s)));
  }

  lemma LowerIdempotent(s: seq<Byte>)
    ensures LowerBytes(LowerBytes(s)) == LowerBytes(s)
  {
    LoweredBytesDecode(s);
    LowerTwice(Decode(s));
  }

  /** Lowercasing never lengthens, and keeps the length exactly of what is in shortest form. */
  lemma LowerKeepsLength(s: seq<Byte>)
    ensures |LowerBytes(s)| <= |s|
    ensures |LowerBytes(s)| == |s| <==> ShortestForm(s)
  {
    LowerKeepsStable(Decode(s));
    ShortestFormByLength(s);
  }
}
