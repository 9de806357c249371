/**
 Lexical normalisation of path_key.cpp: `lexicallyNormalizedPath`, which collapses ".", ".." and
 doubled separators without asking the filesystem, set against what walking a path means.
 */
module LexicalPath {
  import opened Sequences
  import opened Utf8

  type Component = seq<Byte>

  const SLASH: Byte := 0x2F
  const DOT: Component := [0x2E]
  const DOT_DOT: Component := [0x2E, 0x2E]

  // ----- components

  /** The first separator, or the length of a string that holds none. */
  function FindSlash(s: seq<Byte>): (n: nat)
    ensures n <= |s|
  {
    if s == [] || s[0] == SLASH then 0 else 1 + FindSlash(s[1..])
  }

  lemma {:induction false} FindSlashFinds(s: seq<Byte>)
    ensures forall k :: 0 <= k < FindSlash(s) ==> s[k] != SLASH
    ensures FindSlash(s) < |s| ==> s[FindSlash(s)] == SLASH
  {
    if s != [] && s[0] != SLASH {
      FindSlashFinds(s[1..]);
      assert forall k :: 1 <= k < FindSlash(s) ==> s[k] == s[1..][k - 1];
    }
  }

  function Split(s: seq<Byte>): (comps: seq<Component>)
    ensures comps != []
  {
    var n := FindSlash(s);
    if n == |s| then [s] else [s[..n]] + Split(s[n + 1..])
  }

  function Join(comps: seq<Component>): seq<Byte> {
    if comps == [] then []
    else if |comps| == 1 then comps[0]
    else Join(Init(comps)) + [SLASH] + Last(comps)
  }

  function Init<T>(s: seq<T>): (r: seq<T>)
    requires s != []
  {
    s[..|s| - 1]
  }

  function Last<T>(s: seq<T>): T
    requires s != []
  {
    s[|s| - 1]
  }

  datatype Kind = Skip | Up | Name

  function KindOf(c: Component): Kind {
    if c == [] || c == DOT then Skip else if c == DOT_DOT then Up else Name
  }

  // ----- the algorithm

  /** What one component does to the components kept so far. */
  function Push(absolute: bool, kept: seq<Component>, c: Component): seq<Component> {
    match KindOf(c)
    case Skip => kept
    case Name => kept + [c]
    case Up =>
      if kept != [] && Last(kept) != DOT_DOT then Init(kept)
      else if absolute then kept
      else kept + [c]
  }

  function Normal(absolute: bool, comps: seq<Component>): seq<Component> {
    if comps == [] then [] else Push(absolute, Normal(absolute, Init(comps)), Last(comps))
  }

  predicate IsAbsolute(s: seq<Byte>) {
    s != [] && s[0] == SLASH
  }

  function Root(absolute: bool): seq<Byte> {
    if absolute then [SLASH] else []
  }

  /** The components normalisation keeps. */
  function Kept(s: seq<Byte>): seq<Component> {
    Normal(IsAbsolute(s), Split(s))
  }

  /** `lexicallyNormalizedPath` as a function of the bytes. */
  function Lexical(s: seq<Byte>): seq<Byte> {
    Root(IsAbsolute(s)) + Join(Kept(s))
  }

  method LexicallyNormalizedPath(input: seq<Byte>) returns (out: seq<Byte>)
    ensures out == Lexical(input)
  {
    var absolute := input != [] && input[0] == SLASH;
    PushAllIsKept(input);
    var segments := CollectComponents(absolute, input);
    out := WriteComponents(absolute, segments);
  }

  /** The splitting loop. */
  method CollectComponents(absolute: bool, input: seq<Byte>) returns (segments: seq<Component>)
    ensures segments == PushAll(absolute, [], Split(input))
  {
    ghost var left := Split(input);
    ghost var all := PushAll(absolute, [], left);
    assert input[0..] == input;
    var next;
    segments, next, left := TakeComponent(absolute, [], input, 0, left);
    while next != |input|
      invariant next <= |input|
      invariant next < |input| ==> left == Split(input[next + 1..])
      invariant all == if next == |input| then segments else PushAll(absolute, segments, left)
    {
      segments, next, left := TakeComponent(absolute, segments, input, next + 1, left);
    }
  }

  /** One turn of it: the component at i, and where it ends. */
  method TakeComponent(absolute: bool, kept: seq<Component>, input: seq<Byte>, i: nat, ghost left: seq<Component>)
    returns (segments: seq<Component>, next: nat, ghost more: seq<Component>)
    requires i <= |input| && left == Split(input[i..])
    ensures i <= next <= |input|
    ensures next < |input| ==> more == Split(input[next + 1..])
    ensures PushAll(absolute, kept, left) == if next == |input| then segments else PushAll(absolute, segments, more)
  {
    next := i + FindSlash(input[i..]);
    PushAllNext(absolute, kept, input[i..]);
    Slices(input, i, next);
    segments := PushComponent(absolute, kept, input[i..next]);
    more := if next < |input| then Split(input[next + 1..]) else [];
  }

  /** Pushing components one after another, which is what the loop has left to do. */
  function PushAll(absolute: bool, kept: seq<Component>, comps: seq<Component>): seq<Component>
    decreases |comps|
  {
    if comps == [] then kept else PushAll(absolute, Push(absolute, kept, comps[0]), comps[1..])
  }

  lemma {:induction false} PushAllIsNormal(absolute: bool, before: seq<Component>, comps: seq<Component>)
    ensures PushAll(absolute, Normal(absolute, before), comps) == Normal(absolute, before + comps)
    decreases |comps|
  {
    if comps == [] {
      assert before + comps == before;
    } else {
      assert Init(before + [comps[0]]) == before;
      PushAllIsNormal(absolute, before + [comps[0]], comps[1..]);
      assert before + [comps[0]] + comps[1..] == before + comps;
    }
  }

  lemma PushAllIsKept(s: seq<Byte>)
    ensures PushAll(IsAbsolute(s), [], Split(s)) == Kept(s)
  {
    PushAllIsNormal(IsAbsolute(s), [], Split(s));
    assert [] + Split(s) == Split(s);
  }

  lemma PushAllNext(absolute: bool, kept: seq<Component>, s: seq<Byte>)
    ensures var n := FindSlash(s);
            var after := Push(absolute, kept, s[..n]);
            PushAll(absolute, kept, Split(s)) ==
            if n == |s| then after else PushAll(absolute, after, Split(s[n + 1..]))
  {
    var n := FindSlash(s);
    if n == |s| {
      assert s[..n] == s;
      PushAllCons(absolute, kept, s, []);
    } else {
      PushAllCons(absolute, kept, s[..n], Split(s[n + 1..]));
    }
  }

  lemma PushAllCons(absolute: bool, kept: seq<Component>, c: Component, comps: seq<Component>)
    ensures PushAll(absolute, kept, [c] + comps) == PushAll(absolute, Push(absolute, kept, c), comps)
  {
    assert ([c] + comps)[1..] == comps;
  }

  lemma Slices<T>(s: seq<T>, i: nat, next: nat)
    requires i <= next <= |s|
    ensures s[i..][..next - i] == s[i..next]
    ensures next < |s| ==> s[i..][next - i + 1..] == s[next + 1..]
  {
  }

  method PushComponent(absolute: bool, kept: seq<Component>, c: Component) returns (segments: seq<Component>)
    ensures segments == Push(absolute, kept, c)
  {
    segments := kept;
    if c == [] || c == DOT {
    } else if c == DOT_DOT {
      if segments != [] && Last(segments) != DOT_DOT {
        segments := Init(segments);
      } else if !absolute {
        segments := segments + [c];
      }
    } else {
      segments := segments + [c];
    }
  }

  method WriteComponents(absolute: bool, segments: seq<Component>) returns (out: seq<Byte>)
    ensures out == Root(absolute) + Join(segments)
  {
    out := if absolute then [SLASH] else [];
    for s := 0 to |segments|
      invariant out == Root(absolute) + Join(segments[..s])
    {
      JoinNext(Root(absolute), segments, s);
      if s != 0 {
        out := out + [SLASH];
      }
      out := out + segments[s];
    }
    assert segments[..|segments|] == segments;
  }

  lemma JoinNext(root: seq<Byte>, comps: seq<Component>, s: nat)
    requires s < |comps|
    ensures root + Join(comps[..s + 1]) ==
            (if s == 0 then root else root + Join(comps[..s]) + [SLASH]) + comps[s]
  {
    assert Init(comps[..s + 1]) == comps[..s];
    var front := Join(comps[..s]);
    assert s > 0 ==> Join(comps[..s + 1]) == front + [SLASH] + comps[s];
    assert root + (front + [SLASH] + comps[s]) == root + front + [SLASH] + comps[s];
  }

  // ----- splitting and joining undo each other

  lemma {:induction false} SplitAppend(a: seq<Byte>, b: seq<Byte>)
    ensures Split(a + [SLASH] + b) == Split(a) + Split(b)
    decreases |a|
  {
    if SLASH in a {
      var first, rest := AtFirstSlash(a);
      SplitFirst(first, rest);
      SplitAppend(rest, b);
      SplitFirst(first, rest + [SLASH] + b);
      assert a + [SLASH] + b == first + [SLASH] + (rest + [SLASH] + b);
      Associate([first], Split(rest), Split(b));
    } else {
      SplitFirst(a, b);
    }
  }

  /** What stands before the first separator is the first component. */
  lemma SplitFirst(first: seq<Byte>, rest: seq<Byte>)
    requires SLASH !in first
    ensures Split(first + [SLASH] + rest) == [first] + Split(rest)
    ensures Split(first) == [first]
  {
    var s := first + [SLASH] + rest;
    FindSlashIs(s, |first|);
    FindSlashIs(first, |first|);
    assert s[..|first|] == first && s[|first| + 1..] == rest;
  }

  lemma AtFirstSlash(s: seq<Byte>) returns (a: seq<Byte>, b: seq<Byte>)
    requires SLASH in s
    ensures s == a + [SLASH] + b && SLASH !in a
  {
    var n := FindSlash(s);
    FindSlashFinds(s);
    a, b := s[..n], s[n + 1..];
  }

  lemma FindSlashIs(s: seq<Byte>, n: nat)
    requires n <= |s| && (forall k :: 0 <= k < n ==> s[k] != SLASH) && (n < |s| ==> s[n] == SLASH)
    ensures FindSlash(s) == n
  {
    FindSlashFinds(s);
  }

  lemma SplitOfOne(c: Component)
    requires SLASH !in c
    ensures Split(c) == [c]
  {
    SplitFirst(c, []);
  }

  predicate SlashFree(comps: seq<Component>) {
    forall k :: 0 <= k < |comps| ==> SLASH !in comps[k]
  }

  lemma {:induction false} SplitIsSlashFree(s: seq<Byte>)
    ensures SlashFree(Split(s))
  {
    var n := FindSlash(s);
    FindSlashFinds(s);
    if n < |s| {
      SplitIsSlashFree(s[n + 1..]);
    }
  }

  lemma {:induction false} SplitJoin(comps: seq<Component>)
    requires comps != [] && SlashFree(comps)
    ensures Split(Join(comps)) == comps
  {
    var last := Last(comps);
    SplitOfOne(last);
    if |comps| > 1 {
      SplitJoin(Init(comps));
      SplitAppend(Join(Init(comps)), last);
    }
  }

  lemma {:induction false} JoinSplit(s: seq<Byte>)
    ensures Join(Split(s)) == s
    decreases |s|
  {
    if SLASH in s {
      var first, rest := AtFirstSlash(s);
      SplitFirst(first, rest);
      JoinSplit(rest);
      JoinCons(first, Split(rest));
    } else {
      SplitOfOne(s);
    }
  }

  lemma {:induction false} JoinCons(c: Component, comps: seq<Component>)
    requires comps != []
    ensures Join([c] + comps) == c + [SLASH] + Join(comps)
  {
    var all := [c] + comps;
    if |comps| == 1 {
      assert Init(all) == [c];
    } else {
      JoinCons(c, Init(comps));
      assert Init(all) == [c] + Init(comps);
    }
  }

  // ----- the shape of what is kept

  /** No empty or "." component; ".." only in front, and in an absolute path not at all. */
  ghost predicate Canonical(absolute: bool, comps: seq<Component>) {
    && (forall i :: 0 <= i < |comps| ==> KindOf(comps[i]) != Skip)
    && (forall i :: 0 < i < |comps| && KindOf(comps[i]) == Up ==> KindOf(comps[i - 1]) == Up)
    && (absolute && comps != [] ==> KindOf(comps[0]) != Up)
  }

  lemma {:induction false} NormalIsCanonical(absolute: bool, comps: seq<Component>)
    ensures Canonical(absolute, Normal(absolute, comps))
    ensures SlashFree(comps) ==> SlashFree(Normal(absolute, comps))
  {
    if comps != [] {
      NormalIsCanonical(absolute, Init(comps));
    }
  }

  lemma {:induction false} CanonicalIsNormal(absolute: bool, comps: seq<Component>)
    requires Canonical(absolute, comps)
    ensures Normal(absolute, comps) == comps
  {
    if comps != [] {
      PushesBack(absolute, comps);
      CanonicalIsNormal(absolute, Init(comps));
    }
  }

  lemma PushesBack(absolute: bool, comps: seq<Component>)
    requires comps != [] && Canonical(absolute, comps)
    ensures Canonical(absolute, Init(comps))
    ensures Push(absolute, Init(comps), Last(comps)) == comps
  {
    assert comps == Init(comps) + [Last(comps)];
    if absolute { OnlyNames(comps); }
    assert |comps| > 1 ==> Last(Init(comps)) == comps[|comps| - 2];
  }

  lemma {:induction false} OnlyNames(comps: seq<Component>)
    requires Canonical(true, comps)
    ensures forall i :: 0 <= i < |comps| ==> KindOf(comps[i]) == Name
  {
    if comps != [] {
      OnlyNames(Init(comps));
      assert forall i :: 0 <= i < |comps| - 1 ==> KindOf(comps[i]) == KindOf(Init(comps)[i]);
      if |comps| > 1 { assert KindOf(comps[|comps| - 2]) == Name; }
    }
  }

  // ----- splitting the output again

  lemma {:induction false} NormalSkipsFirst(absolute: bool, comps: seq<Component>)
    ensures Normal(absolute, [[]] + comps) == Normal(absolute, comps)
  {
    var all := [[]] + comps;
    if comps == [] {
      assert Init(all) == [];
      assert all == [[]];
    } else {
      assert Init(all) == [[]] + Init(comps);
      NormalSkipsFirst(absolute, Init(comps));
    }
  }

  lemma {:induction false} JoinStart(comps: seq<Component>)
    requires comps != []
    ensures comps[0] <= Join(comps)
  {
    if |comps| > 1 {
      JoinStart(Init(comps));
    }
  }

  /** The output is as absolute as the input, and its own normal components are the ones it was made of. */
  lemma LexicalKeeps(s: seq<Byte>)
    ensures IsAbsolute(Lexical(s)) == IsAbsolute(s)
    ensures Kept(Lexical(s)) == Kept(s)
    ensures Canonical(IsAbsolute(s), Kept(s)) && SlashFree(Kept(s))
  {
    var absolute, kept := IsAbsolute(s), Kept(s);
    SplitIsSlashFree(s);
    NormalIsCanonical(absolute, Split(s));
    CanonicalIsNormal(absolute, kept);
    RejoinKept(absolute, kept);
  }

  lemma RejoinBody(absolute: bool, kept: seq<Component>)
    requires Canonical(absolute, kept) && SlashFree(kept)
    ensures !IsAbsolute(Join(kept))
    ensures Normal(absolute, Split(Join(kept))) == kept
  {
    if kept == [] {
      NormalSkipsFirst(absolute, []);
      assert Split([]) == [[]] + [];
    } else {
      CanonicalIsNormal(absolute, kept);
      SplitJoin(kept);
      JoinStart(kept);
      assert kept[0] != [] && kept[0][0] in kept[0];
    }
  }

  lemma RejoinKept(absolute: bool, kept: seq<Component>)
    requires Canonical(absolute, kept) && SlashFree(kept)
    ensures IsAbsolute(Root(absolute) + Join(kept)) == absolute
    ensures Kept(Root(absolute) + Join(kept)) == kept
  {
    var body := Join(kept);
    RejoinBody(absolute, kept);
    if absolute {
      SplitAppend([], body);
      assert [] + [SLASH] + body == [SLASH] + body;
      NormalSkipsFirst(absolute, Split(body));
    } else {
      assert Root(absolute) + body == body;
    }
  }

  /** By their bytes: no "" or "." among them; ".." only in front, and in an absolute path not at all. */
  ghost predicate Collapsed(absolute: bool, comps: seq<Component>) {
    && (forall i :: 0 <= i < |comps| ==> comps[i] != [] && comps[i] != [0x2E])
    && (forall i :: 0 <= i < |comps| && comps[i] == [0x2E, 0x2E] ==>
          !absolute && forall j :: 0 <= j < i ==> comps[j] == [0x2E, 0x2E])
  }

  lemma CanonicalIsCollapsed(absolute: bool, comps: seq<Component>)
    requires Canonical(absolute, comps)
    ensures Collapsed(absolute, comps)
  {
    if absolute {
      OnlyNames(comps);
    } else {
      UpsComeFirst(comps);
    }
  }

  /** The components of a path as written out: the root's empty one, then its own, and an empty one if it has none. */
  function Written(absolute: bool, comps: seq<Component>): seq<Component> {
    (if absolute then [[]] else []) + if comps == [] then [[]] else comps
  }

  /** The output, cut at its separators, is collapsed. */
  lemma OutputIsCollapsed(s: seq<Byte>)
    ensures Split(Lexical(s)) == Written(IsAbsolute(s), Kept(s))
    ensures Collapsed(IsAbsolute(s), Kept(s))
  {
    LexicalKeeps(s);
    CanonicalIsCollapsed(IsAbsolute(s), Kept(s));
    CutOutput(IsAbsolute(s), Kept(s));
  }

  lemma CutOutput(absolute: bool, kept: seq<Component>)
    requires SlashFree(kept)
    ensures Split(Root(absolute) + Join(kept)) == Written(absolute, kept)
  {
    var body := Join(kept);
    if kept == [] { SplitOfOne([]); } else { SplitJoin(kept); }
    if absolute {
      SplitFirst([], body);
      assert [] + [SLASH] + body == [SLASH] + body;
    } else {
      assert Root(absolute) + body == body;
    }
  }

  /** What stands between two separators, as components. */
  lemma SplitBetween(a: seq<Byte>, c: seq<Byte>, b: seq<Byte>)
    requires SLASH !in c
    ensures Split(a + [SLASH] + c + [SLASH] + b) == Split(a) + [c] + Split(b)
    ensures IsAbsolute(a + [SLASH] + c + [SLASH] + b) == IsAbsolute(a + [SLASH] + b)
  {
    SplitAppend(a, c + [SLASH] + b);
    SplitFirst(c, b);
    assert a + [SLASH] + c + [SLASH] + b == a + [SLASH] + (c + [SLASH] + b);
    Associate(Split(a), [c], Split(b));
  }

  lemma {:induction false} NormalFrom(absolute: bool, front: seq<Component>, other: seq<Component>,
                                      tail: seq<Component>)
    requires Normal(absolute, front) == Normal(absolute, other)
    ensures Normal(absolute, front + tail) == Normal(absolute, other + tail)
  {
    if tail == [] {
      assert front + tail == front && other + tail == other;
    } else {
      NormalFrom(absolute, front, other, Init(tail));
      assert Init(front + tail) == front + Init(tail) && Init(other + tail) == other + Init(tail);
    }
  }

  /** An empty component, or ".", between two separators changes nothing. */
  lemma LexicalSkips(a: seq<Byte>, c: seq<Byte>, b: seq<Byte>)
    requires c == [] || c == [0x2E]
    ensures Lexical(a + [SLASH] + c + [SLASH] + b) == Lexical(a + [SLASH] + b)
  {
    SplitBetween(a, c, b);
    SplitAppend(a, b);
    assert Init(Split(a) + [c]) == Split(a);
    NormalFrom(IsAbsolute(a + [SLASH] + b), Split(a) + [c], Split(a), Split(b));
  }

  /** A name and the ".." after it leave no trace. */
  lemma LexicalPops(a: seq<Byte>, c: seq<Byte>, b: seq<Byte>)
    requires SLASH !in c && c != [] && c != [0x2E] && c != [0x2E, 0x2E]
    ensures Lexical(a + [SLASH] + c + [SLASH] + [0x2E, 0x2E] + [SLASH] + b) == Lexical(a + [SLASH] + b)
  {
    var up: Component, absolute := [0x2E, 0x2E], IsAbsolute(a + [SLASH] + b);
    var kept := Normal(absolute, Split(a));
    SplitBetween(a + [SLASH] + c, up, b);
    SplitAppend(a, c);
    SplitOfOne(c);
    SplitAppend(a, b);
    assert IsAbsolute(a + [SLASH] + c + [SLASH] + b) == absolute;
    assert Init(Split(a) + [c]) == Split(a) && Init(Split(a) + [c] + [up]) == Split(a) + [c];
    assert Init(kept + [c]) == kept;
    NormalFrom(absolute, Split(a) + [c] + [up], Split(a), Split(b));
  }

  /** At the root ".." goes nowhere. */
  lemma RootIsItsOwnParent(b: seq<Byte>)
    ensures Lexical([SLASH, 0x2E, 0x2E, SLASH] + b) == Lexical([SLASH] + b)
  {
    var up: Component, root: Component := [0x2E, 0x2E], [];
    assert [SLASH, 0x2E, 0x2E, SLASH] + b == [] + [SLASH] + up + [SLASH] + b;
    assert [SLASH] + b == [] + [SLASH] + b;
    SplitBetween([], up, b);
    SplitAppend([], b);
    SplitOfOne([]);
    assert Init([root] + [up]) == [root] && Init([root]) == [];
    NormalFrom(true, [root] + [up], [root], Split(b));
  }

  lemma LexicalIdempotent(s: seq<Byte>)
    ensures Lexical(Lexical(s)) == Lexical(s)
  {
    LexicalKeeps(s);
  }

  // ----- what a path means

  /** A directory is its components from the root. */
  type Directory = seq<Component>

  /** One step of a walk: nowhere, to the parent, the root being its own, or to an entry of that name. */
  function Step(dir: Directory, c: Component): Directory {
    if c == [] || c == [0x2E] then dir
    else if c == [0x2E, 0x2E] then (if dir == [] then [] else Init(dir))
    else dir + [c]
  }

  function Walk(dir: Directory, comps: seq<Component>): Directory {
    if comps == [] then dir else Step(Walk(dir, Init(comps)), Last(comps))
  }

  /** Where a path leads from a start directory. */
  function Resolve(start: Directory, s: seq<Byte>): Directory {
    Walk(if IsAbsolute(s) then [] else start, Split(s))
  }

  lemma {:induction false} NormalWalksAlike(absolute: bool, dir: Directory, comps: seq<Component>)
    requires absolute ==> dir == []
    ensures Walk(dir, Normal(absolute, comps)) == Walk(dir, comps)
  {
    if comps != [] {
      var kept, c := Normal(absolute, Init(comps)), Last(comps);
      NormalWalksAlike(absolute, dir, Init(comps));
      NormalIsCanonical(absolute, Init(comps));
      assert Init(kept + [c]) == kept;
      if KindOf(c) == Up && absolute {
        OnlyNames(kept);
      }
    }
  }

  /** From every start directory, the normalised path leads where the path leads. */
  lemma LexicalKeepsMeaning(start: Directory, s: seq<Byte>)
    ensures Resolve(start, Lexical(s)) == Resolve(start, s)
  {
    var from := if IsAbsolute(s) then [] else start;
    LexicalKeeps(s);
    NormalWalksAlike(IsAbsolute(s), from, Split(s));
    NormalWalksAlike(IsAbsolute(s), from, Split(Lexical(s)));
  }

  // ----- how far a path climbs

  function Rise(c: Component): int {
    if c == [] || c == [0x2E] then 0 else if c == [0x2E, 0x2E] then -1 else 1
  }

  /** How far below its start a walk ends, were there always a parent to climb to. */
  function Depth(comps: seq<Component>): int {
    if comps == [] then 0
    else Depth(Init(comps)) + Rise(Last(comps))
  }

  /** climb is how far above its start the walk goes at its highest. */
  ghost predicate HighestClimb(comps: seq<Component>, climb: nat) {
    && (exists i :: 0 <= i <= |comps| && Depth(comps[..i]) == -(climb as int))
    && (forall i :: 0 <= i <= |comps| ==> Depth(comps[..i]) >= -(climb as int))
  }

  /** The number of ".." components. */
  function Ups(comps: seq<Component>): nat {
    if comps == [] then 0 else Ups(Init(comps)) + if KindOf(Last(comps)) == Up then 1 else 0
  }

  lemma {:induction false} UpsComeFirst(comps: seq<Component>)
    requires Canonical(false, comps)
    ensures Ups(comps) <= |comps| && Depth(comps) == |comps| - 2 * Ups(comps)
    ensures forall i :: 0 <= i < |comps| ==> (KindOf(comps[i]) == Up <==> i < Ups(comps))
  {
    if comps != [] {
      UpsComeFirst(Init(comps));
    }
  }

  lemma DepthsOneMore(comps: seq<Component>)
    requires comps != []
    ensures Depth(comps[..|comps|]) == Depth(comps)
    ensures forall i :: 0 <= i < |comps| ==> Depth(comps[..i]) == Depth(Init(comps)[..i])
  {
    assert comps[..|comps|] == comps;
    forall i | 0 <= i < |comps|
      ensures Depth(comps[..i]) == Depth(Init(comps)[..i])
    {
      assert comps[..i] == Init(comps)[..i];
    }
  }

  lemma ClimbOneMore(comps: seq<Component>, climb: nat)
    requires comps != [] && HighestClimb(Init(comps), climb)
    ensures HighestClimb(comps, if -Depth(comps) > climb then -Depth(comps) else climb)
  {
    var highest := if -Depth(comps) > climb then -Depth(comps) else climb;
    DepthsOneMore(comps);
    var i :| 0 <= i <= |Init(comps)| && Depth(Init(comps)[..i]) == -(climb as int);
    var j := if highest == climb then i else |comps|;
    assert Depth(comps[..j]) == -(highest as int);
    forall k | 0 <= k <= |comps|
      ensures Depth(comps[..k]) >= -(highest as int)
    {
      assert k < |comps| ==> Depth(Init(comps)[..k]) >= -(climb as int);
    }
  }

  lemma PushOneMore(kept: seq<Component>, c: Component)
    requires Canonical(false, kept)
    ensures Depth(Push(false, kept, c)) == Depth(kept) + Rise(c)
    ensures var below := -(Depth(kept) + Rise(c));
            Ups(Push(false, kept, c)) == if below > Ups(kept) then below else Ups(kept)
  {
    UpsComeFirst(kept);
    assert Init(kept + [c]) == kept;
  }

  /** A normalised relative path begins with exactly as many ".." as the path climbs, and holds no others. */
  lemma {:induction false} NormalClimb(comps: seq<Component>)
    ensures HighestClimb(comps, Ups(Normal(false, comps)))
    ensures Depth(Normal(false, comps)) == Depth(comps)
  {
    if comps == [] {
      assert Depth(comps[..0]) == 0;
    } else {
      NormalClimb(Init(comps));
      NormalIsCanonical(false, Init(comps));
      PushOneMore(Normal(false, Init(comps)), Last(comps));
      ClimbOneMore(comps, Ups(Normal(false, Init(comps))));
    }
  }

  // ----- the normal form decides the meaning

  ghost predicate SameMeaning(s: seq<Byte>, t: seq<Byte>) {
    forall start: Directory :: Canonical(true, start) ==> Resolve(start, s) == Resolve(start, t)
  }

  lemma {:induction false} WalkCanonical(dir: Directory, comps: seq<Component>)
    requires Canonical(false, comps) && Ups(comps) <= |dir|
    ensures Ups(comps) <= |comps|
    ensures Walk(dir, comps) == dir[..|dir| - Ups(comps)] + comps[Ups(comps)..]
  {
    UpsComeFirst(comps);
    if comps != [] {
      var front, last := Init(comps), Last(comps);
      UpsComeFirst(front);
      WalkCanonical(dir, front);
      if KindOf(last) == Up {
        assert Ups(comps) == |comps| && Ups(front) == |front|;
        assert comps[Ups(comps)..] == [] && front[Ups(front)..] == [];
        assert Walk(dir, front) == dir[..|dir| - Ups(front)];
      } else {
        assert comps[Ups(comps)..] == front[Ups(front)..] + [last];
      }
    }
  }

  /** A directory of n components, all the same one-byte name. */
  function Nest(name: Byte, n: nat): (dir: Directory)
    requires name != SLASH && name != 0x2E
    ensures |dir| == n && Canonical(true, dir)
    ensures forall i :: 0 <= i < n ==> dir[i] == [name]
  {
    seq(n, i => [name])
  }

  /** What a walk from a nest of directories ends with: the nest's names, then the path's own. */
  lemma WalkFromNest(name: Byte, n: nat, comps: seq<Component>)
    requires name != SLASH && name != 0x2E
    requires Canonical(false, comps) && Ups(comps) <= n
    ensures Ups(comps) <= |comps|
    ensures var u := Ups(comps); var end := Walk(Nest(name, n), comps);
            && |end| == n - u + |comps| - u
            && (forall i :: 0 <= i < n - u ==> end[i] == [name])
            && (forall i :: n - u <= i < |end| ==> end[i] == comps[i - n + 2 * u])
  {
    WalkCanonical(Nest(name, n), comps);
  }

  lemma ClimbsAlike(a: seq<Component>, b: seq<Component>, n: nat)
    requires Canonical(false, a) && Canonical(false, b) && Ups(a) <= n && Ups(b) <= n
    requires Walk(Nest(1, n), a) == Walk(Nest(1, n), b) && Walk(Nest(2, n), a) == Walk(Nest(2, n), b)
    ensures Ups(a) >= Ups(b)
  {
    WalkFromNest(1, n, a);
    WalkFromNest(1, n, b);
    WalkFromNest(2, n, a);
    WalkFromNest(2, n, b);
    var one, two, i := Walk(Nest(1, n), b), Walk(Nest(2, n), b), n - Ups(b);
    if i < |one| {
      assert one[i] == two[i];
    }
  }

  /** From deep enough inside directories of either name, two different normal forms lead apart. */
  lemma CanonicalFormsDiffer(a: seq<Component>, b: seq<Component>, n: nat)
    requires Canonical(false, a) && Canonical(false, b) && Ups(a) <= n && Ups(b) <= n
    requires Walk(Nest(1, n), a) == Walk(Nest(1, n), b) && Walk(Nest(2, n), a) == Walk(Nest(2, n), b)
    ensures a == b
  {
    ClimbsAlike(a, b, n);
    ClimbsAlike(b, a, n);
    UpsComeFirst(a);
    UpsComeFirst(b);
    WalkFromNest(1, n, a);
    WalkFromNest(1, n, b);
    var end, u := Walk(Nest(1, n), a), Ups(a);
    forall i | 0 <= i < |a|
      ensures a[i] == b[i]
    {
      if i >= u { assert end[i + n - 2 * u] == a[i]; }
    }
  }

  /** Where a path leads, by its kept components alone. */
  lemma ResolveByKept(start: Directory, s: seq<Byte>)
    ensures Resolve(start, s) == Walk(if IsAbsolute(s) then [] else start, Kept(s))
    ensures Canonical(IsAbsolute(s), Kept(s))
  {
    NormalIsCanonical(IsAbsolute(s), Split(s));
    NormalWalksAlike(IsAbsolute(s), if IsAbsolute(s) then [] else start, Split(s));
  }

  lemma WalkFromRoot(comps: seq<Component>)
    requires Canonical(true, comps)
    ensures Walk([], comps) == comps
  {
    OnlyNames(comps);
    UpsComeFirst(comps);
    WalkCanonical([], comps);
  }

  /** Deeper inside, a relative path leads elsewhere; an absolute one does not. */
  lemma MeaningTellsAbsolute(s: seq<Byte>, t: seq<Byte>)
    requires SameMeaning(s, t) && IsAbsolute(s)
    ensures IsAbsolute(t)
  {
    var n := Ups(Kept(t));
    assert Resolve(Nest(1, n), t) == Resolve(Nest(1, n + 1), t) by {
      assert Resolve(Nest(1, n), s) == Resolve(Nest(1, n + 1), s);
    }
    ResolveByKept(Nest(1, n), t);
    ResolveByKept(Nest(1, n + 1), t);
    if !IsAbsolute(t) {
      WalkFromNest(1, n, Kept(t));
      WalkFromNest(1, n + 1, Kept(t));
    }
  }

  /** Two paths normalise to the same string exactly when they lead to the same place from everywhere. */
  lemma LexicalDecidesMeaning(s: seq<Byte>, t: seq<Byte>)
    ensures Lexical(s) == Lexical(t) <==> SameMeaning(s, t)
  {
    if Lexical(s) == Lexical(t) {
      forall start: Directory ensures Resolve(start, s) == Resolve(start, t) {
        LexicalKeepsMeaning(start, s);
        LexicalKeepsMeaning(start, t);
      }
    }
    if SameMeaning(s, t) {
      if IsAbsolute(s) {
        MeaningTellsAbsolute(s, t);
        ResolveByKept([], s);
        ResolveByKept([], t);
        WalkFromRoot(Kept(s));
        WalkFromRoot(Kept(t));
        assert Canonical(true, []);
      } else {
        if IsAbsolute(t) { MeaningTellsAbsolute(t, s); }
        SameKept(s, t);
      }
    }
  }

  lemma SameKept(s: seq<Byte>, t: seq<Byte>)
    requires SameMeaning(s, t) && !IsAbsolute(s) && !IsAbsolute(t)
    ensures Kept(s) == Kept(t)
  {
    var n := Ups(Kept(s)) + Ups(Kept(t));
    ResolveByKept(Nest(1, n), s);
    ResolveByKept(Nest(1, n), t);
    ResolveByKept(Nest(2, n), s);
    ResolveByKept(Nest(2, n), t);
    CanonicalFormsDiffer(Kept(s), Kept(t), n);
  }
}
