/** One key for every spelling of a path: composed and spelled-out characters anywhere in it. */
module KeySpelling {
  import opened Utf8
  import opened Composition
  import opened LexicalPath
  import opened Folding
  import opened PathKey

  /** Two components normalisation treats alike and folding makes equal. */
  ghost predicate Alike(table: Table, x: Component, y: Component) {
    x == y || (KindOf(x) == Name && KindOf(y) == Name && Fold(table, x) == Fold(table, y))
  }

  ghost predicate AllAlike(table: Table, xs: seq<Component>, ys: seq<Component>) {
    |xs| == |ys| && forall i :: 0 <= i < |xs| ==> Alike(table, xs[i], ys[i])
  }

  lemma {:induction false} NormalAlike(table: Table, absolute: bool, xs: seq<Component>, ys: seq<Component>)
    requires AllAlike(table, xs, ys)
    ensures AllAlike(table, Normal(absolute, xs), Normal(absolute, ys))
  {
    if xs != [] {
      NormalAlike(table, absolute, Init(xs), Init(ys));
      assert Alike(table, Last(xs), Last(ys));
      var nx, ny := Normal(absolute, Init(xs)), Normal(absolute, Init(ys));
      if nx != [] {
        assert Alike(table, Last(nx), Last(ny));
      }
    }
  }

  lemma {:induction false} FoldAllAlike(table: Table, xs: seq<Component>, ys: seq<Component>)
    requires AllAlike(table, xs, ys)
    ensures FoldAll(table, xs) == FoldAll(table, ys)
  {
    if xs != [] {
      FoldAllAlike(table, Init(xs), Init(ys));
      assert Alike(table, Last(xs), Last(ys));
    }
  }

  // ----- the character, spelled either way

  function Whole(table: Table, i: nat): seq<Byte>
    requires i < |table|
  {
    EncodeCodePoint(table[i].composed)
  }

  function SpeltOut(table: Table, i: nat): seq<Byte>
    requires i < |table|
  {
    EncodeCodePoint(table[i].base) + EncodeCodePoint(table[i].mark)
  }

  /** Bytes that hold no structural character, do not end in one and are not dots. */
  ghost predicate Wordy(s: seq<Byte>) {
    && s != []
    && (forall k :: 0 <= k < |s| ==> !Structural(s[k]))
    && (exists k :: 0 <= k < |s| && s[k] >= 0x80)
  }

  lemma RowIsWordy(table: Table, i: nat)
    requires WellFormed(table) && i < |table|
    ensures Wordy(Whole(table, i)) && Wordy(SpeltOut(table, i))
  {
    var row := table[i];
    assert RowOk(row);
    var c, b, m := EncodeCodePoint(row.composed), EncodeCodePoint(row.base), EncodeCodePoint(row.mark);
    assert Whole(table, i)[0] >= 0x80 && SpeltOut(table, i)[|b|] == m[0] >= 0x80;
    assert forall k :: 1 <= k < |b| ==> IsContinuation(b[k]);
  }

  lemma WordyName(a: seq<Byte>, x: seq<Byte>, b: seq<Byte>)
    requires Wordy(x)
    ensures KindOf(a + x + b) == Name
  {
    var k :| 0 <= k < |x| && x[k] >= 0x80;
    assert (a + x + b)[|a| + k] == x[k];
  }

  lemma SpeltAlike(table: Table, i: nat, a: seq<Byte>, b: seq<Byte>)
    requires WellFormed(table) && i < |table|
    ensures Alike(table, a + Whole(table, i) + b, a + SpeltOut(table, i) + b)
  {
    var s, t := a + Whole(table, i) + b, a + SpeltOut(table, i) + b;
    assert SpellsOutAt(table, i, a, b, s, t);
    ComposeSpelledOut(table, s, t);
    RowIsWordy(table, i);
    WordyName(a, Whole(table, i), b);
    WordyName(a, SpeltOut(table, i), b);
  }

  // ----- splitting around it

  /** Two lists of components run together, the last of one and the first of the other joined by x. */
  function Around(before: seq<Component>, x: seq<Byte>, after: seq<Component>): (comps: seq<Component>)
    requires before != [] && after != []
    ensures |comps| == |before| + |after| - 1
  {
    Init(before) + [Last(before) + x + after[0]] + after[1..]
  }

  lemma AroundCons(c: Component, before: seq<Component>, x: seq<Byte>, after: seq<Component>)
    requires before != [] && after != []
    ensures Around([c] + before, x, after) == [c] + Around(before, x, after)
  {
    assert Init([c] + before) == [c] + Init(before);
  }

  lemma {:induction false} SplitAroundWord(a: seq<Byte>, x: seq<Byte>, b: seq<Byte>)
    requires Wordy(x)
    ensures Split(a + x + b) == Around(Split(a), x, Split(b))
  {
    var s, n := a + x + b, FindSlash(a);
    FindSlashFinds(a);
    if n < |a| {
      FindSlashIs(s, n);
      assert s[..n] == a[..n];
      assert s[n + 1..] == a[n + 1..] + x + b;
      SplitAroundWord(a[n + 1..], x, b);
      AroundCons(a[..n], Split(a[n + 1..]), x, Split(b));
    } else {
      WordFirst(a, x, b);
    }
  }

  lemma WordFirst(a: seq<Byte>, x: seq<Byte>, b: seq<Byte>)
    requires Wordy(x) && SLASH !in a
    ensures Split(a + x + b) == Around([a], x, Split(b))
  {
    assert SLASH !in x;
    if SLASH in b {
      var head, tail := AtFirstSlash(b);
      WordBeforeSlash(a, x, head, tail);
    } else {
      SplitOfOne(b);
      SplitOfOne(a + x + b);
      AroundOne(a, x, [b]);
    }
  }

  lemma WordBeforeSlash(a: seq<Byte>, x: seq<Byte>, head: seq<Byte>, tail: seq<Byte>)
    requires SLASH !in a + x + head
    ensures Split(a + x + (head + [SLASH] + tail)) == Around([a], x, Split(head + [SLASH] + tail))
  {
    SplitOfOne(head);
    SplitAppend(head, tail);
    SplitOfOne(a + x + head);
    SplitAppend(a + x + head, tail);
    assert a + x + (head + [SLASH] + tail) == a + x + head + [SLASH] + tail;
    AroundOne(a, x, [head] + Split(tail));
  }

  lemma AroundOne(a: Component, x: seq<Byte>, after: seq<Component>)
    requires after != []
    ensures Around([a], x, after) == [a + x + after[0]] + after[1..]
  {
  }

  lemma AroundAlike(table: Table, before: seq<Component>, x: seq<Byte>, y: seq<Byte>, after: seq<Component>)
    requires before != [] && after != []
    requires Alike(table, Last(before) + x + after[0], Last(before) + y + after[0])
    ensures AllAlike(table, Around(before, x, after), Around(before, y, after))
  {
  }

  lemma SplitSpeltAlike(table: Table, i: nat, a: seq<Byte>, b: seq<Byte>)
    requires WellFormed(table) && i < |table|
    ensures AllAlike(table, Split(a + Whole(table, i) + b), Split(a + SpeltOut(table, i) + b))
  {
    RowIsWordy(table, i);
    SplitAroundWord(a, Whole(table, i), b);
    SplitAroundWord(a, SpeltOut(table, i), b);
    SpeltAlike(table, i, Last(Split(a)), Split(b)[0]);
    AroundAlike(table, Split(a), Whole(table, i), SpeltOut(table, i), Split(b));
  }

  lemma AbsoluteBeforeWord(a: seq<Byte>, x: seq<Byte>, b: seq<Byte>)
    requires Wordy(x)
    ensures IsAbsolute(a + x + b) == IsAbsolute(a)
  {
    assert !Structural(x[0]);
    assert (a + x + b)[0] == if a == [] then x[0] else a[0];
  }

  // ----- cleaning around it

  function StripAll(s: seq<Byte>): seq<Byte> {
    if s != [] && IsSeparator(Last(s)) then StripAll(Init(s)) else s
  }

  lemma {:induction false} StripAfter(u: seq<Byte>, tail: seq<Byte>)
    requires u != [] && !IsSeparator(Last(u))
    ensures StripSeparators(u + tail) == u + StripAll(tail)
  {
    if tail == [] {
      assert u + tail == u;
    } else {
      assert Init(u + tail) == u + Init(tail) && Last(u + tail) == Last(tail);
      StripAfter(u, Init(tail));
    }
  }

  lemma {:induction false} TrimAllPad(s: seq<Byte>)
    requires AllPad(s)
    ensures TrimPad(s) == []
  {
    if s != [] { TrimAllPad(Init(s)); }
  }

  /** Cleaning leaves a word alone, and what it does to either side does not depend on the word. */
  lemma CleanAroundWord(a: seq<Byte>, x: seq<Byte>, b: seq<Byte>)
    requires Wordy(x)
    ensures Clean(a + x + b) == Slashed(a) + x + Slashed(StripAll(TrimPad(b)))
  {
    var u, tail := a + x, StripAll(TrimPad(b));
    assert Last(u) == Last(x) && !Structural(Last(x));
    TrimPadAppend(u, b);
    if AllPad(b) {
      TrimAllPad(b);
      assert u + [] == u;
    }
    StripAfter(u, TrimPad(b));
    SlashedAppend(u, tail);
    SlashedAppend(a, x);
    SlashedWord(x);
  }

  lemma SlashedWord(x: seq<Byte>)
    requires Wordy(x)
    ensures Slashed(x) == x
  {
    assert forall k :: 0 <= k < |x| ==> !Structural(x[k]);
  }

  /** Spelling a character out, anywhere in a path, leaves its key alone. */
  lemma KeySpelledOut(table: Table, p: seq<Byte>, q: seq<Byte>)
    requires WellFormed(table) && SpellsOut(table, p, q)
    ensures Key(table, p) == Key(table, q)
  {
    var i: nat, a, b :| SpellsOutAt(table, i, a, b, p, q);
    KeptSpeltAlike(table, i, a, b, p, q);
    FoldAllAlike(table, Kept(Clean(p)), Kept(Clean(q)));
    KeyByComponents(table, p);
    KeyByComponents(table, q);
  }

  lemma KeptSpeltAlike(table: Table, i: nat, a: seq<Byte>, b: seq<Byte>, p: seq<Byte>, q: seq<Byte>)
    requires WellFormed(table) && SpellsOutAt(table, i, a, b, p, q)
    ensures Anchored(p) == Anchored(q) && AllAlike(table, Kept(Clean(p)), Kept(Clean(q)))
  {
    RowIsWordy(table, i);
    CleanAroundWord(a, Whole(table, i), b);
    CleanAroundWord(a, SpeltOut(table, i), b);
    assert q == a + SpeltOut(table, i) + b;
    CleanedSpeltAlike(table, i, Slashed(a), Slashed(StripAll(TrimPad(b))));
  }

  lemma CleanedSpeltAlike(table: Table, i: nat, a: seq<Byte>, b: seq<Byte>)
    requires WellFormed(table) && i < |table|
    ensures var p, q := a + Whole(table, i) + b, a + SpeltOut(table, i) + b;
            IsAbsolute(p) == IsAbsolute(q) && AllAlike(table, Kept(p), Kept(q))
  {
    RowIsWordy(table, i);
    SplitSpeltAlike(table, i, a, b);
    AbsoluteBeforeWord(a, Whole(table, i), b);
    AbsoluteBeforeWord(a, SpeltOut(table, i), b);
    NormalAlike(table, IsAbsolute(a), Split(a + Whole(table, i) + b), Split(a + SpeltOut(table, i) + b));
  }

  lemma {:induction false} KeyOfTrail(table: Table, trail: seq<seq<Byte>>)
    requires WellFormed(table) && IsTrail(table, trail)
    ensures Key(table, trail[0]) == Key(table, trail[|trail| - 1])
  {
    if |trail| > 1 {
      if SpellsOut(table, trail[0], trail[1]) {
        KeySpelledOut(table, trail[0], trail[1]);
      } else {
        assert SpellsOut(table, trail[1], trail[1 - 1]);
        KeySpelledOut(table, trail[1], trail[0]);
      }
      KeyOfTrail(table, trail[1..]);
    }
  }

  /** Every spelling of a path, to any depth, has one key. */
  lemma SameSpellingSameKey(table: Table, p: seq<Byte>, q: seq<Byte>)
    requires WellFormed(table) && SameSpelling(table, p, q)
    ensures Key(table, p) == Key(table, q)
  {
    var trail :| IsTrail(table, trail) && trail[0] == p && trail[|trail| - 1] == q;
    KeyOfTrail(table, trail);
  }
}
