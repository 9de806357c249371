/**
 The path key: `normalizedPathKey`, `samePath` and `pathIsAtOrUnder` of path_key.cpp, with
 `pathIsUnder` of stick_path_match.hpp.
 */
module PathKey {
  import opened Utf8
  import opened Composition
  import opened CaseFolding
  import opened LexicalPath
  import opened Folding

  const BACKSLASH: Byte := 0x5C

  predicate IsPad(b: Byte) {
    b == 0x20 || b == 0x09 || b == 0x00
  }

  predicate IsSeparator(b: Byte) {
    b == SLASH || b == BACKSLASH
  }

  function TrimPad(s: seq<Byte>): seq<Byte> {
    if s != [] && IsPad(Last(s)) then TrimPad(Init(s)) else s
  }

  function StripSeparators(s: seq<Byte>): seq<Byte> {
    if |s| > 1 && IsSeparator(Last(s)) then StripSeparators(Init(s)) else s
  }

  function Slashed(s: seq<Byte>): (out: seq<Byte>)
    ensures |out| == |s|
    ensures forall i :: 0 <= i < |s| ==> out[i] == if s[i] == BACKSLASH then SLASH else s[i]
  {
    seq(|s|, i requires 0 <= i < |s| => if s[i] == BACKSLASH then SLASH else s[i])
  }

  /** The path as lexical normalisation gets it: unpadded, without a trailing separator, all slashes. */
  function Clean(path: seq<Byte>): seq<Byte> {
    Slashed(StripSeparators(TrimPad(path)))
  }

  /** `normalizedPathKey` as a function of the bytes. */
  ghost function Key(table: Table, path: seq<Byte>): seq<Byte> {
    Fold(table, Lexical(Clean(path)))
  }

  method NormalizedPathKey(table: Table, path: seq<Byte>) returns (key: seq<Byte>)
    requires Sorted(table)
    ensures key == Key(table, path)
  {
    EmptyKey(table);
    if path == [] {
      return path;
    }
    var slashed := path;
    while slashed != [] && IsPad(Last(slashed))
      invariant TrimPad(slashed) == TrimPad(path)
    {
      slashed := Init(slashed);
    }
    assert slashed == TrimPad(path);
    while |slashed| > 1 && IsSeparator(Last(slashed))
      invariant StripSeparators(slashed) == StripSeparators(TrimPad(path))
    {
      slashed := Init(slashed);
    }
    if slashed == [] {
      return [];
    }
    var normal := LexicallyNormalizedPath(Slashed(slashed));
    var composed := ComposeUtf8(table, normal);
    key := LowerUtf8(composed);
  }

  lemma EmptyKey(table: Table)
    ensures Lexical([]) == [] && Key(table, []) == []
    ensures forall path {:trigger Clean(path)} :: StripSeparators(TrimPad(path)) == [] ==> Clean(path) == []
  {
    var empty: seq<Component> := [[]];
    assert Split([]) == empty && Init(empty) == [];
    assert Clean([]) == [];
    FoldOfEmpty(table);
  }

  ghost predicate SamePath(table: Table, a: seq<Byte>, b: seq<Byte>) {
    a != [] && b != [] && Key(table, a) == Key(table, b)
  }

  predicate PathIsUnder(path: seq<Byte>, root: seq<Byte>) {
    if root == [] || path == [] then false
    else if path == root then true
    else if |path| <= |root| then false
    else if path[..|root|] != root then false
    else IsSeparator(Last(root)) || IsSeparator(path[|root|])
  }

  ghost predicate PathIsAtOrUnder(table: Table, path: seq<Byte>, root: seq<Byte>) {
    path != [] && root != [] && PathIsUnder(Key(table, path), Key(table, root))
  }

  // ----- the key works component by component

  /** The components of a path's key. */
  ghost function KeyComponents(table: Table, path: seq<Byte>): seq<Component> {
    FoldAll(table, Kept(Clean(path)))
  }

  predicate Anchored(path: seq<Byte>) {
    IsAbsolute(Clean(path))
  }

  /** The key is the folded components of the normalised path, joined again; on every byte string. */
  lemma KeyByComponents(table: Table, path: seq<Byte>)
    requires WellFormed(table)
    ensures Key(table, path) == Root(Anchored(path)) + Join(KeyComponents(table, path))
  {
    var kept := Kept(Clean(path));
    FoldJoin(table, kept);
    FoldRooted(table, Anchored(path), Join(kept));
  }

  lemma FoldRooted(table: Table, absolute: bool, s: seq<Byte>)
    requires WellFormed(table)
    ensures Fold(table, Root(absolute) + s) == Root(absolute) + Fold(table, s)
  {
    if absolute {
      FoldAfterSlash(table, s);
    } else {
      assert [] + s == s;
    }
  }

  lemma FoldAfterSlash(table: Table, s: seq<Byte>)
    requires WellFormed(table)
    ensures Fold(table, [SLASH] + s) == [SLASH] + Fold(table, s)
  {
    FoldAround(table, [], SLASH, s);
    FoldOfEmpty(table);
    assert [] + [SLASH] + s == [SLASH] + s;
  }

  /** Paths that lead to the same place from every start directory get one key. */
  lemma SameMeaningSameKey(table: Table, p: seq<Byte>, q: seq<Byte>)
    requires SameMeaning(Clean(p), Clean(q))
    ensures Key(table, p) == Key(table, q)
  {
    LexicalDecidesMeaning(Clean(p), Clean(q));
  }

  // ----- padding and separators

  predicate AllPad(s: seq<Byte>) {
    forall i :: 0 <= i < |s| ==> s[i] == 0x20 || s[i] == 0x09 || s[i] == 0x00
  }

  predicate AllSeparators(s: seq<Byte>) {
    forall i :: 0 <= i < |s| ==> s[i] == 0x2F || s[i] == 0x5C
  }

  /** Spaces, tabs and NULs are cut from the end, and no more than all of them. */
  lemma {:induction false} TrimPadCuts(s: seq<Byte>)
    ensures var n := |TrimPad(s)|;
            && n <= |s| && TrimPad(s) == s[..n] && AllPad(s[n..])
            && (n > 0 ==> s[n - 1] != 0x20 && s[n - 1] != 0x09 && s[n - 1] != 0x00)
  {
    if s != [] && IsPad(Last(s)) {
      TrimPadCuts(Init(s));
      var n := |TrimPad(s)|;
      assert s[n..] == Init(s)[n..] + [Last(s)];
    }
  }

  /** Slashes and backslashes are cut from the end, but for a first byte, and no more than all of them. */
  lemma {:induction false} StripSeparatorsCuts(s: seq<Byte>)
    ensures var n := |StripSeparators(s)|;
            && n <= |s| && StripSeparators(s) == s[..n] && AllSeparators(s[n..]) && (s != [] ==> n > 0)
            && (n > 1 ==> s[n - 1] != 0x2F && s[n - 1] != 0x5C)
  {
    if |s| > 1 && IsSeparator(Last(s)) {
      StripSeparatorsCuts(Init(s));
      var n := |StripSeparators(s)|;
      assert s[n..] == Init(s)[n..] + [Last(s)];
    }
  }

  lemma {:induction false} TrimPadAppend(p: seq<Byte>, tail: seq<Byte>)
    ensures TrimPad(p + tail) == if AllPad(tail) then TrimPad(p) else p + TrimPad(tail)
  {
    if tail == [] {
      assert p + tail == p;
    } else {
      assert Init(p + tail) == p + Init(tail) && Last(p + tail) == Last(tail);
      assert forall i :: 0 <= i < |tail| - 1 ==> tail[i] == Init(tail)[i];
      if IsPad(Last(tail)) { TrimPadAppend(p, Init(tail)); }
    }
  }

  lemma {:induction false} StripAppend(p: seq<Byte>, tail: seq<Byte>)
    requires p != [] && AllSeparators(tail)
    ensures StripSeparators(p + tail) == StripSeparators(p)
  {
    if tail == [] {
      assert p + tail == p;
    } else {
      assert Init(p + tail) == p + Init(tail) && Last(p + tail) == Last(tail);
      StripAppend(p, Init(tail));
    }
  }

  /** Trailing padding never counts. */
  lemma KeyIgnoresPadding(table: Table, p: seq<Byte>, pads: seq<Byte>)
    requires AllPad(pads)
    ensures Key(table, p + pads) == Key(table, p)
  {
    TrimPadAppend(p, pads);
  }

  /** Trailing separators do not count on an unpadded path. */
  lemma KeyIgnoresTrailingSeparators(table: Table, p: seq<Byte>, seps: seq<Byte>)
    requires p != [] && TrimPad(p) == p && AllSeparators(seps)
    ensures Key(table, p + seps) == Key(table, p)
  {
    TrimPadAppend(p, seps);
    if seps != [] {
      assert !IsPad(Last(seps));
      assert TrimPad(p + seps) == p + seps;
    }
    StripAppend(p, seps);
  }

  lemma {:induction false} TrimSlashed(p: seq<Byte>)
    ensures TrimPad(Slashed(p)) == Slashed(TrimPad(p))
    ensures Slashed(StripSeparators(p)) == StripSeparators(Slashed(p))
  {
    if p != [] {
      TrimSlashed(Init(p));
      assert Init(Slashed(p)) == Slashed(Init(p));
    }
  }

  lemma SlashedAppend(a: seq<Byte>, b: seq<Byte>)
    ensures Slashed(a + b) == Slashed(a) + Slashed(b)
  {
  }

  /** Which kind of separator a path is written with never counts. */
  lemma KeyIgnoresSeparatorKind(table: Table, p: seq<Byte>, q: seq<Byte>)
    requires Slashed(p) == Slashed(q)
    ensures Key(table, p) == Key(table, q)
  {
    TrimSlashed(p);
    TrimSlashed(q);
    TrimSlashed(TrimPad(p));
    TrimSlashed(TrimPad(q));
  }
}
