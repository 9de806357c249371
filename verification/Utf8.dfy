/**
 Bytes, code points and the decoder both UTF-8 scanners of path_key.cpp share.

 A byte string decodes to items: a code point for every sequence the scanners
 accept, a raw byte for every byte they copy through. Bit masks and shifts are
 written as the arithmetic they stand for (`b & 0xC0 == 0x80` is a range test,
 `cp << 6 | b & 0x3F` is `64 * cp + b % 64`).
 */
module Utf8 {
  import opened Sequences

  type Byte = b: int | 0 <= b < 0x100

  /** The values four bytes can carry; the scanners accept all of them, surrogates included. */
  type Scalar = c: int | 0 <= c < 0x20_0000

  datatype Item = CodePoint(cp: Scalar) | RawByte(raw: Byte)

  predicate IsContinuation(b: Byte) {
    0x80 <= b < 0xC0
  }

  /** How many bytes a lead byte announces; 0 for a byte that cannot lead. */
  function SequenceLength(b: Byte): (n: nat)
    ensures n <= 4
  {
    if b < 0x80 then 1
    else if 0xC0 <= b < 0xE0 then 2
    else if 0xE0 <= b < 0xF0 then 3
    else if 0xF0 <= b < 0xF8 then 4
    else 0
  }

  function LeadLimit(length: nat): nat {
    if length == 1 then 0x80 else if length == 2 then 0x20 else if length == 3 then 0x10 else 0x08
  }

  /** The payload bits of a lead byte. */
  function LeadBits(b: Byte): (v: nat)
    requires SequenceLength(b) != 0
    ensures v < LeadLimit(SequenceLength(b))
  {
    if b < 0x80 then b
    else if b < 0xE0 then b - 0xC0
    else if b < 0xF0 then b - 0xE0
    else b - 0xF0
  }

  /** The number of continuation bytes s begins with. */
  function Run(s: seq<Byte>): (n: nat)
    ensures n <= |s|
    ensures forall k :: 0 <= k < n ==> IsContinuation(s[k])
    ensures n < |s| ==> !IsContinuation(s[n])
  {
    if s != [] && IsContinuation(s[0]) then 1 + Run(s[1..]) else 0
  }

  /** Whether s begins with a complete sequence, which is all the scanners ask of it. */
  predicate Accepts(s: seq<Byte>)
    requires s != []
  {
    var n := SequenceLength(s[0]);
    0 < n <= 1 + Run(s[1..])
  }

  /** The value of the first k bytes of a sequence led by s[0]. */
  function Accumulated(s: seq<Byte>, k: nat): (v: nat)
    requires 1 <= k <= 4 && k <= |s| && SequenceLength(s[0]) != 0
    ensures k == 1 ==> v < LeadLimit(SequenceLength(s[0]))
    ensures k == 2 ==> v < 0x40 * LeadLimit(SequenceLength(s[0]))
    ensures k == 3 ==> v < 0x1000 * LeadLimit(SequenceLength(s[0]))
    ensures k == 4 ==> v < 0x4_0000 * LeadLimit(SequenceLength(s[0]))
  {
    if k == 1 then LeadBits(s[0]) else 64 * Accumulated(s, k - 1) + s[k - 1] % 64
  }

  function Width(s: seq<Byte>): (n: nat)
    requires s != []
    ensures 1 <= n <= |s|
  {
    if Accepts(s) then SequenceLength(s[0]) else 1
  }

  function First(s: seq<Byte>): Item
    requires s != []
  {
    if Accepts(s) then CodePoint(Accumulated(s, SequenceLength(s[0]))) else RawByte(s[0])
  }

  /** The value the payload bits of n bytes spell. */
  function Spelled(s: seq<Byte>, n: nat): int
    requires 1 <= n <= 4 && n <= |s|
  {
    if n == 1 then s[0] as int
    else if n == 2 then 64 * (s[0] as int - 0xC0) + (s[1] as int - 0x80)
    else if n == 3 then 64 * (64 * (s[0] as int - 0xE0) + (s[1] as int - 0x80)) + (s[2] as int - 0x80)
    else 64 * (64 * (64 * (s[0] as int - 0xF0) + (s[1] as int - 0x80)) + (s[2] as int - 0x80)) + (s[3] as int - 0x80)
  }

  /** The sequence a lead byte announces, if it is there, or the byte as it stands. */
  lemma FirstMeans(s: seq<Byte>)
    requires s != []
    ensures var n := if s[0] < 0x80 then 1 else if s[0] < 0xC0 then 0 else if s[0] < 0xE0 then 2
                     else if s[0] < 0xF0 then 3 else if s[0] < 0xF8 then 4 else 0;
            if 0 < n <= |s| && forall k :: 1 <= k < n ==> 0x80 <= s[k] < 0xC0
            then Width(s) == n && First(s) == CodePoint(Spelled(s, n))
            else Width(s) == 1 && First(s) == RawByte(s[0])
  {
    var n := SequenceLength(s[0]);
    if n <= |s| {
      RunReaches(s, n);
    }
    if Accepts(s) {
      AccumulatedMeans(s);
    }
  }

  lemma RunReaches(s: seq<Byte>, n: nat)
    requires n <= |s| && s != []
    ensures n <= 1 + Run(s[1..]) <==> forall k :: 1 <= k < n ==> 0x80 <= s[k] < 0xC0
  {
    var run := Run(s[1..]);
    assert forall k :: 1 <= k < |s| ==> s[k] == s[1..][k - 1];
    assert 1 + run < |s| ==> !(0x80 <= s[1 + run] < 0xC0);
  }

  lemma AccumulatedMeans(s: seq<Byte>)
    requires s != [] && Accepts(s)
    ensures Accumulated(s, SequenceLength(s[0])) == Spelled(s, SequenceLength(s[0]))
  {
    var n := SequenceLength(s[0]);
    RunReaches(s, n);
    assert Accumulated(s, 1) == LeadBits(s[0]);
    if n >= 2 { NextBits(s, 1); }
    if n >= 3 { NextBits(s, 2); }
    if n >= 4 { NextBits(s, 3); }
  }

  lemma NextBits(s: seq<Byte>, k: nat)
    requires 1 <= k < 4 && k < |s| && SequenceLength(s[0]) != 0 && 0x80 <= s[k] < 0xC0
    ensures Accumulated(s, k + 1) == 64 * Accumulated(s, k) + (s[k] as int - 0x80)
  {
    assert s[k] % 64 == s[k] as int - 0x80;
  }

  function Decode(s: seq<Byte>): seq<Item> {
    if s == [] then [] else [First(s)] + Decode(s[Width(s)..])
  }

  function EncodeCodePoint(cp: Scalar): (s: seq<Byte>)
    ensures 1 <= |s| <= 4 && !IsContinuation(s[0])
    ensures forall k :: 1 <= k < |s| ==> IsContinuation(s[k])
    ensures SequenceLength(s[0]) == |s|
  {
    if cp < 0x80 then [cp]
    else if cp < 0x800 then [0xC0 + cp / 0x40, 0x80 + cp % 0x40]
    else if cp < 0x1_0000 then [0xE0 + cp / 0x1000, 0x80 + cp / 0x40 % 0x40, 0x80 + cp % 0x40]
    else [0xF0 + cp / 0x4_0000, 0x80 + cp / 0x1000 % 0x40, 0x80 + cp / 0x40 % 0x40, 0x80 + cp % 0x40]
  }

  function EncodeItem(it: Item): (s: seq<Byte>)
    ensures s != []
  {
    match it
    case CodePoint(cp) => EncodeCodePoint(cp)
    case RawByte(b) => [b]
  }

  function Encode(items: seq<Item>): seq<Byte> {
    if items == [] then [] else EncodeItem(items[0]) + Encode(items[1..])
  }

  /** The rejected bytes of an item sequence, in order. */
  function RawBytes(items: seq<Item>): seq<Byte> {
    if items == [] then []
    else (if items[0].RawByte? then [items[0].raw] else []) + RawBytes(items[1..])
  }

  /** The number of raw continuation bytes an item sequence begins with. */
  function RawRun(items: seq<Item>): nat {
    if items != [] && items[0].RawByte? && IsContinuation(items[0].raw) then 1 + RawRun(items[1..]) else 0
  }

  /** Every raw byte is one the decoder rejects again where it stands. */
  predicate Stable(items: seq<Item>) {
    items == [] ||
    (Stable(items[1..]) &&
     (items[0].RawByte? ==>
        var n := SequenceLength(items[0].raw);
        n == 0 || 1 + RawRun(items[1..]) < n))
  }

  /** Written with the fewest bytes: decoding and encoding gives the string back. */
  predicate ShortestForm(s: seq<Byte>) {
    Encode(Decode(s)) == s
  }

  // ----- runs of continuation bytes

  lemma {:induction false} RunAppend(a: seq<Byte>, b: seq<Byte>)
    ensures Run(a + b) == if Run(a) == |a| then |a| + Run(b) else Run(a)
  {
    if a == [] {
      assert a + b == b;
    } else {
      assert (a + b)[1..] == a[1..] + b;
      RunAppend(a[1..], b);
    }
  }

  lemma {:induction false} RunAtLeast(s: seq<Byte>, n: nat)
    requires n <= |s| && forall k :: 0 <= k < n ==> IsContinuation(s[k])
    ensures n <= Run(s)
  {
    if n > 0 {
      RunAtLeast(s[1..], n - 1);
    }
  }

  lemma {:induction false} RunOfEncoding(items: seq<Item>)
    ensures Run(Encode(items)) == RawRun(items)
  {
    if items != [] {
      RunOfEncoding(items[1..]);
      if items[0].RawByte? {
        assert Encode(items)[1..] == Encode(items[1..]);
      }
    }
  }

  lemma {:induction false} RunOfDecoding(s: seq<Byte>)
    ensures RawRun(Decode(s)) == Run(s)
  {
    if s != [] && IsContinuation(s[0]) {
      assert Width(s) == 1;
      RunOfDecoding(s[1..]);
    }
  }

  // ----- decoding and encoding undo each other

  /** Shifting twice by six bits is shifting by twelve. */
  lemma ShiftTwice(n: nat)
    ensures n / 0x1000 == n / 0x40 / 0x40 && n / 0x4_0000 == n / 0x1000 / 0x40
  {
  }

  lemma AccumulatedOfEncoding(cp: Scalar)
    ensures var e := EncodeCodePoint(cp); Accumulated(e, |e|) == cp
  {
    var e := EncodeCodePoint(cp);
    ShiftTwice(cp);
    if |e| == 2 {
      AccumulateNext(e, 2, cp / 0x40, cp);
    } else if |e| == 3 {
      AccumulateNext(e, 2, cp / 0x1000, cp / 0x40);
      AccumulateNext(e, 3, cp / 0x40, cp);
    } else if |e| == 4 {
      AccumulateNext(e, 2, cp / 0x4_0000, cp / 0x1000);
      AccumulateNext(e, 3, cp / 0x1000, cp / 0x40);
      AccumulateNext(e, 4, cp / 0x40, cp);
    }
  }

  lemma AccumulateNext(e: seq<Byte>, k: nat, high: nat, value: nat)
    requires 2 <= k <= 4 && k <= |e| && SequenceLength(e[0]) != 0
    requires Accumulated(e, k - 1) == high == value / 0x40 && e[k - 1] == 0x80 + value % 0x40
    ensures Accumulated(e, k) == value
  {
  }

  lemma FirstOfEncoding(cp: Scalar, rest: seq<Byte>)
    ensures var s := EncodeCodePoint(cp) + rest;
            First(s) == CodePoint(cp) && Width(s) == |EncodeCodePoint(cp)| && s[Width(s)..] == rest
  {
    var e := EncodeCodePoint(cp);
    RunAppend(e[1..], rest);
    assert (e + rest)[1..] == e[1..] + rest;
    assert Accepts(e + rest);
    AccumulatedPrefix(e, rest, |e|);
    AccumulatedOfEncoding(cp);
  }

  /** A raw byte the rest does not complete to a sequence is rejected again. */
  lemma FirstOfRaw(b: Byte, rest: seq<Byte>)
    requires SequenceLength(b) == 0 || 1 + Run(rest) < SequenceLength(b)
    ensures First([b] + rest) == RawByte(b) && Width([b] + rest) == 1
  {
    assert ([b] + rest)[1..] == rest;
  }

  /** Stable items survive a trip through bytes. */
  lemma {:induction false} DecodeEncode(items: seq<Item>)
    requires Stable(items)
    ensures Decode(Encode(items)) == items
  {
    if items != [] {
      var first, rest := items[0], Encode(items[1..]);
      DecodeEncode(items[1..]);
      if first.CodePoint? {
        FirstOfEncoding(first.cp, rest);
      } else {
        RunOfEncoding(items[1..]);
        FirstOfRaw(first.raw, rest);
        assert ([first.raw] + rest)[1..] == rest;
      }
      DecodeNext(EncodeItem(first) + rest, first, rest);
      assert items == [first] + items[1..];
    }
  }

  /** Whatever the bytes, what the decoder rejects it rejects again in what it produced. */
  lemma {:induction false} DecodeIsStable(s: seq<Byte>)
    ensures Stable(Decode(s))
  {
    if s != [] {
      DecodeIsStable(s[Width(s)..]);
      if !Accepts(s) {
        RunOfDecoding(s[1..]);
      }
    }
  }

  /** Re-encoding what was decoded is in shortest form, and decodes to the same items. */
  lemma EncodingIsShortest(items: seq<Item>)
    requires Stable(items)
    ensures ShortestForm(Encode(items))
  {
    DecodeEncode(items);
  }

  /** A string splits into decodable halves wherever the second half does not begin mid-sequence. */
  lemma {:induction false} DecodeAppend(a: seq<Byte>, b: seq<Byte>)
    requires b == [] || !IsContinuation(b[0])
    ensures Decode(a + b) == Decode(a) + Decode(b)
  {
    if a == [] {
      assert a + b == b;
    } else {
      FirstOfAppend(a, b);
      var first, rest := First(a), a[Width(a)..];
      DropAppend(a, b, Width(a));
      DecodeNext(a + b, first, rest + b);
      DecodeAppend(rest, b);
      Associate([first], Decode(rest), Decode(b));
    }
  }

  lemma DecodeNext(s: seq<Byte>, first: Item, rest: seq<Byte>)
    requires s != [] && First(s) == first && s[Width(s)..] == rest
    ensures Decode(s) == [first] + Decode(rest)
  {
  }

  lemma FirstOfAppend(a: seq<Byte>, b: seq<Byte>)
    requires a != [] && (b == [] || !IsContinuation(b[0]))
    ensures First(a + b) == First(a) && Width(a + b) == Width(a)
  {
    RunAppend(a[1..], b);
    assert (a + b)[1..] == a[1..] + b;
    assert Accepts(a + b) == Accepts(a);
    if Accepts(a) {
      AccumulatedPrefix(a, b, Width(a));
    }
  }

  lemma {:induction false} AccumulatedPrefix(a: seq<Byte>, b: seq<Byte>, k: nat)
    requires 1 <= k <= 4 && k <= |a| && SequenceLength(a[0]) != 0
    ensures Accumulated(a + b, k) == Accumulated(a, k)
  {
    if k > 1 {
      AccumulatedPrefix(a, b, k - 1);
    }
  }

  lemma {:induction false} EncodeAppend(a: seq<Item>, b: seq<Item>)
    ensures Encode(a + b) == Encode(a) + Encode(b)
  {
    if a == [] {
      assert a + b == b;
    } else {
      assert (a + b)[1..] == a[1..] + b;
      EncodeAppend(a[1..], b);
    }
  }

  lemma EncodeAround(a: seq<Item>, cp: Scalar, b: seq<Item>)
    ensures Encode(a + [CodePoint(cp)] + b) == Encode(a) + EncodeCodePoint(cp) + Encode(b)
  {
    EncodeAppend(a + [CodePoint(cp)], b);
    EncodeAppend(a, [CodePoint(cp)]);
    assert [CodePoint(cp)][1..] == [];
  }

  /** A code point written out in the middle of any bytes is decoded as itself. */
  lemma DecodeAround(pre: seq<Byte>, cp: Scalar, post: seq<Byte>)
    ensures Decode(pre + EncodeCodePoint(cp) + post) == Decode(pre) + [CodePoint(cp)] + Decode(post)
  {
    var e := EncodeCodePoint(cp);
    calc {
      Decode(pre + e + post);
    ==  { assert pre + e + post == pre + (e + post); }
      Decode(pre + (e + post));
    ==  { DecodeAppend(pre, e + post); }
      Decode(pre) + Decode(e + post);
    ==  { FirstOfEncoding(cp, post); }
      Decode(pre) + ([CodePoint(cp)] + Decode(post));
    ==
      Decode(pre) + [CodePoint(cp)] + Decode(post);
    }
  }

  // ----- over-long forms only ever shrink

  /** A sequence encodes back to no more bytes than it was read from, and to the same ones if to as many. */
  lemma EncodingOfFirst(s: seq<Byte>)
    requires s != []
    ensures |EncodeItem(First(s))| <= Width(s)
    ensures |EncodeItem(First(s))| == Width(s) ==> EncodeItem(First(s)) == s[..Width(s)]
  {
    if Accepts(s) && |EncodeItem(First(s))| == Width(s) {
      EncodingIsSame(s, Width(s), Accumulated(s, Width(s)));
    }
  }

  lemma EncodingIsSame(s: seq<Byte>, n: nat, cp: Scalar)
    requires s != [] && Accepts(s) && n == Width(s) && cp == Accumulated(s, n) && |EncodeCodePoint(cp)| == n
    ensures EncodeCodePoint(cp) == s[..n]
  {
    if n == 1 {
      assert s[..1] == [s[0]];
    } else if n == 2 {
      LastByte(s, 2, cp);
      assert s[..2] == [s[0], s[1]];
    } else if n == 3 {
      SameThree(s, cp);
    } else {
      SameFour(s, cp);
    }
  }

  lemma SameThree(s: seq<Byte>, cp: Scalar)
    requires s != [] && Accepts(s) && Width(s) == 3 && cp == Accumulated(s, 3) && 0x800 <= cp < 0x1_0000
    ensures EncodeCodePoint(cp) == s[..3]
  {
    ShiftTwice(cp);
    LastByte(s, 3, cp);
    LastByte(s, 2, cp / 0x40);
    assert s[..3] == [s[0], s[1], s[2]];
  }

  lemma SameFour(s: seq<Byte>, cp: Scalar)
    requires s != [] && Accepts(s) && Width(s) == 4 && cp == Accumulated(s, 4) && 0x1_0000 <= cp
    ensures EncodeCodePoint(cp) == s[..4]
  {
    ShiftTwice(cp);
    LastByte(s, 4, cp);
    LastByte(s, 3, cp / 0x40);
    LastByte(s, 2, cp / 0x1000);
    assert s[..4] == [s[0], s[1], s[2], s[3]];
  }

  lemma LastByte(s: seq<Byte>, k: nat, value: nat)
    requires s != [] && Accepts(s) && 1 <= k <= Width(s) && value == Accumulated(s, k)
    ensures k > 1 ==> s[k - 1] == 0x80 + value % 0x40 && Accumulated(s, k - 1) == value / 0x40
    ensures k <= 2 ==> LeadBits(s[0]) == if k == 1 then value else value / 0x40
  {
    if k > 1 {
      assert IsContinuation(s[1..][k - 2]);
    }
  }

  /** Re-encoding never lengthens, and keeps the length exactly of what is in shortest form. */
  lemma {:induction false} ShortestFormByLength(s: seq<Byte>)
    ensures |Encode(Decode(s))| <= |s|
    ensures |Encode(Decode(s))| == |s| <==> ShortestForm(s)
  {
    if s != [] {
      var head, rest := s[..Width(s)], s[Width(s)..];
      EncodingOfFirst(s);
      ShortestFormByLength(rest);
      ReencodeNext(s);
      assert s == head + rest;
      SameByLength(EncodeItem(First(s)), Encode(Decode(rest)), head, rest, Encode(Decode(s)), s);
    }
  }

  lemma ReencodeNext(s: seq<Byte>)
    requires s != []
    ensures Encode(Decode(s)) == EncodeItem(First(s)) + Encode(Decode(s[Width(s)..]))
  {
    assert Decode(s)[1..] == Decode(s[Width(s)..]);
  }

  lemma SameByLength(a: seq<Byte>, b: seq<Byte>, c: seq<Byte>, d: seq<Byte>, ab: seq<Byte>, cd: seq<Byte>)
    requires ab == a + b && cd == c + d
    requires |a| <= |c| && |b| <= |d| && (|a| == |c| ==> a == c) && (|b| == |d| ==> b == d)
    ensures |ab| <= |cd| && (|ab| == |cd| <==> ab == cd)
  {
  }

  lemma DecodePairAround(pre: seq<Byte>, a: Scalar, b: Scalar, post: seq<Byte>)
    ensures Decode(pre + EncodeCodePoint(a) + EncodeCodePoint(b) + post) ==
            Decode(pre) + [CodePoint(a), CodePoint(b)] + Decode(post)
  {
    var upTo := pre + EncodeCodePoint(a);
    DecodeAround(upTo, b, post);
    DecodeAround(pre, a, []);
    assert upTo + [] == upTo;
    RegroupPair(Decode(pre), CodePoint(a), CodePoint(b), Decode(post));
  }

  lemma RegroupPair(pre: seq<Item>, a: Item, b: Item, post: seq<Item>)
    ensures pre + [a] + [] + [b] + post == pre + [a, b] + post
  {
    assert pre + [a] + [] + [b] == pre + [a, b];
  }

  /** The scanner itself: reads one sequence at i, or finds that there is none to read. */
  method ScanSequence(input: seq<Byte>, i: nat) returns (accepted: bool, length: nat, cp: nat)
    requires i < |input|
    ensures accepted == Accepts(input[i..])
    ensures accepted ==> length == Width(input[i..]) && cp < 0x20_0000 && First(input[i..]) == CodePoint(cp)
  {
    ghost var s := input[i..];
    length := SequenceLength(input[i]);
    cp := 0;
    if length == 0 || i + length > |input| {
      return false, length, cp;
    }
    cp := LeadBits(input[i]);
    var k := 1;
    while k < length
      invariant 1 <= k <= length
      invariant forall j :: 0 <= j < k - 1 ==> IsContinuation(s[1..][j])
      invariant cp == Accumulated(s, k)
    {
      if !IsContinuation(input[i + k]) {
        assert s[1..][k - 1] == input[i + k];
        return false, length, cp;
      }
      cp := 64 * cp + input[i + k] % 64;
      k := k + 1;
    }
    RunAtLeast(s[1..], length - 1);
    return true, length, cp;
  }
}
