/** What a catalog says, line by line, whatever order it is read in: `catalogDigestLines`. */
module CatalogDigest {
  import opened FieldText
  import opened Options
  import opened Records
  import opened Sequences

  datatype Kind = Memory | Hot

  datatype Cue = Cue(kind: Kind, hotCueNumber: int, positionMs: real, color: string, comment: string,
                     isLoop: bool, loopEndMs: real)

  datatype Track = Track(sourceId: string, filename: string, title: string, artist: string, album: string,
                         bpm: real, key: string, rating: Option<int>, comment: string, cues: seq<Cue>)

  /** How numbers are written. */
  datatype Formats = Formats(number: int -> string, twoDecimals: real -> string)

  /** Rounding to the nearest integer, halves away from zero. */
  function Ms(value: real): int {
    if value >= 0.0 then (value + 0.5).Floor else -((0.5 - value).Floor)
  }

  // ----- lines

  /** Fields with a tab between each and the next. */
  function Tabbed(fields: seq<string>): string {
    if fields == [] then ""
    else if |fields| == 1 then fields[0]
    else fields[0] + "\t" + Tabbed(fields[1..])
  }

  function CueFields(f: Formats, cue: Cue): seq<string> {
    [f.number(if cue.kind.Memory? then 0 else 1), f.number(cue.hotCueNumber), f.number(Ms(cue.positionMs)),
     cue.color, cue.comment,
     f.number(if cue.isLoop then 1 else 0), f.number(if cue.isLoop then Ms(cue.loopEndMs) else 0)]
  }

  function CueLine(f: Formats, cue: Cue): string {
    "  cue\t" + Tabbed(CueFields(f, cue))
  }

  function TrackFields(f: Formats, t: Track): seq<string> {
    [t.sourceId, t.filename, t.title, t.artist, t.album, f.twoDecimals(t.bpm), t.key,
     Rated(f, t.rating), t.comment]
  }

  function Rated(f: Formats, rating: Option<int>): string {
    if rating.Some? then f.number(rating.value) else "-"
  }

  function TrackLine(f: Formats, t: Track): string {
    "track\t" + Tabbed(TrackFields(f, t))
  }

  function CueLines(f: Formats, cues: seq<Cue>): (lines: seq<string>)
    ensures |lines| == |cues|
  {
    seq(|cues|, i requires 0 <= i < |cues| => CueLine(f, cues[i]))
  }

  /** The block of lines a track gets: its own line, and one for each of its cues. */
  function Block(f: Formats, t: Track, cues: seq<Cue>): (lines: seq<string>)
    ensures |lines| == 1 + |cues|
  {
    [TrackLine(f, t)] + CueLines(f, cues)
  }

  /** The lines of tracks in an order, each with its cues in an order. */
  function TrackLines(f: Formats, ordered: seq<Track>, cues: seq<seq<Cue>>): seq<string>
    requires |cues| == |ordered|
  {
    if ordered == [] then []
    else
      var last := |ordered| - 1;
      TrackLines(f, ordered[..last], cues[..last]) + Block(f, ordered[last], cues[last])
  }

  function Header(f: Formats, count: int): string {
    "tracks\t" + f.number(count)
  }

  // ----- what tracks and cues are sorted by

  datatype Slot = Slot(filename: string, sourceId: string)

  function SlotOf(t: Track): Slot {
    Slot(t.filename, t.sourceId)
  }

  predicate SlotBefore(a: Slot, b: Slot) {
    if a.filename != b.filename then Before(a.filename, b.filename) else Before(a.sourceId, b.sourceId)
  }

  predicate TrackBefore(a: Track, b: Track) {
    SlotBefore(SlotOf(a), SlotOf(b))
  }

  datatype Spot = Spot(kind: Kind, number: int, ms: int)

  function SpotOf(c: Cue): Spot {
    Spot(c.kind, c.hotCueNumber, Ms(c.positionMs))
  }

  predicate SpotBefore(a: Spot, b: Spot) {
    if a.kind != b.kind then a.kind.Memory?
    else if a.number != b.number then a.number < b.number
    else a.ms < b.ms
  }

  predicate CueBefore(a: Cue, b: Cue) {
    SpotBefore(SpotOf(a), SpotOf(b))
  }

  lemma SlotsAreOrdered(a: Slot, b: Slot, c: Slot)
    ensures SlotBefore(a, b) ==> !SlotBefore(b, a)
    ensures !SlotBefore(a, b) && !SlotBefore(b, a) ==> a == b
    ensures !SlotBefore(b, a) && !SlotBefore(c, b) ==> !SlotBefore(c, a)
  {
    BeforeIsAnOrder(a.filename, b.filename, a.filename);
    BeforeIsAnOrder(a.sourceId, b.sourceId, a.sourceId);
    BeforeIsAnOrder(c.filename, b.filename, a.filename);
    BeforeIsAnOrder(c.sourceId, b.sourceId, a.sourceId);
    BeforeIsAnOrder(a.filename, b.filename, c.filename);
    BeforeIsAnOrder(a.sourceId, b.sourceId, c.sourceId);
    BeforeIsAnOrder(c.filename, a.filename, c.filename);
    BeforeIsAnOrder(c.sourceId, a.sourceId, c.sourceId);
  }

  lemma TracksAreOrdered()
    ensures Orders(TrackBefore)
  {
    forall a, b, c
      ensures TrackBefore(a, b) ==> !TrackBefore(b, a)
      ensures !TrackBefore(b, a) && !TrackBefore(c, b) ==> !TrackBefore(c, a)
    {
      SlotsAreOrdered(SlotOf(a), SlotOf(b), SlotOf(c));
    }
  }

  lemma CuesAreOrdered()
    ensures Orders(CueBefore)
  {
  }

  // ----- the digest

  /** Lines some sort of the tracks, and of each track's cues, gives. */
  ghost predicate IsDigest(f: Formats, tracks: seq<Track>, lines: seq<string>) {
    exists ordered: seq<Track>, cues: seq<seq<Cue>> :: IsArrangement(tracks, ordered, cues) &&
      lines == [Header(f, |tracks|)] + TrackLines(f, ordered, cues)
  }

  ghost predicate IsArrangement(tracks: seq<Track>, ordered: seq<Track>, cues: seq<seq<Cue>>) {
    && IsSortOf(TrackBefore, ordered, tracks)
    && |cues| == |ordered|
    && forall i :: 0 <= i < |ordered| ==> IsSortOf(CueBefore, cues[i], ordered[i].cues)
  }

  method SortTracks(tracks: seq<Track>) returns (sorted: seq<Track>)
    ensures IsSortOf(TrackBefore, sorted, tracks)
  {
    TracksAreOrdered();
    SortingSorts(TrackBefore, tracks);
    sorted := Sorting(TrackBefore, tracks);
  }

  method SortCues(cues: seq<Cue>) returns (sorted: seq<Cue>)
    ensures IsSortOf(CueBefore, sorted, cues)
  {
    CuesAreOrdered();
    SortingSorts(CueBefore, cues);
    sorted := Sorting(CueBefore, cues);
  }

  method CatalogDigestLines(f: Formats, tracks: seq<Track>) returns (lines: seq<string>)
    ensures IsDigest(f, tracks, lines)
  {
    var ordered := SortTracks(tracks);
    lines := [Header(f, |tracks|)];
    ghost var head, arranged: seq<seq<Cue>> := lines, [];
    assert head + [] == head;
    for i := 0 to |ordered|
      invariant |arranged| == i
      invariant forall k :: 0 <= k < i ==> IsSortOf(CueBefore, arranged[k], ordered[k].cues)
      invariant lines == head + TrackLines(f, ordered[..i], arranged)
    {
      var cues := SortCues(ordered[i].cues);
      TrackLinesNext(f, head, ordered, i, arranged, cues);
      lines := PushTrack(f, lines, ordered[i], cues);
      arranged := arranged + [cues];
    }
    assert ordered[..|ordered|] == ordered;
    ArrangedIsDigest(f, tracks, ordered, arranged);
  }

  lemma ArrangedIsDigest(f: Formats, ts: seq<Track>, o: seq<Track>, cues: seq<seq<Cue>>)
    requires IsArrangement(ts, o, cues)
    ensures IsDigest(f, ts, [Header(f, |ts|)] + TrackLines(f, o, cues))
  {
  }

  lemma TrackLinesNext(f: Formats, head: seq<string>, ordered: seq<Track>, i: nat,
                       arranged: seq<seq<Cue>>, cues: seq<Cue>)
    requires i < |ordered| && |arranged| == i
    ensures head + TrackLines(f, ordered[..i + 1], arranged + [cues]) ==
            head + TrackLines(f, ordered[..i], arranged) + Block(f, ordered[i], cues)
  {
    var more, upTo := arranged + [cues], ordered[..i + 1];
    assert upTo[..i] == ordered[..i] && more[..i] == arranged;
    Associate(head, TrackLines(f, ordered[..i], arranged), Block(f, ordered[i], cues));
  }

  /** A track's own line, and one for each of its cues. */
  method PushTrack(f: Formats, lines: seq<string>, t: Track, cues: seq<Cue>) returns (more: seq<string>)
    ensures more == lines + Block(f, t, cues)
  {
    more := lines + [TrackLine(f, t)];
    ghost var before := more;
    assert before + [] == before;
    for k := 0 to |cues|
      invariant more == before + CueLines(f, cues[..k])
    {
      assert CueLines(f, cues[..k + 1]) == CueLines(f, cues[..k]) + [CueLine(f, cues[k])];
      more := more + [CueLine(f, cues[k])];
    }
    assert cues[..|cues|] == cues;
    Associate(lines, [TrackLine(f, t)], CueLines(f, cues));
  }

  // ----- one library, read in different orders

  /** A track's own words, and its cues in no order. */
  datatype Summary = Summary(track: Track, cues: multiset<Cue>)

  function Summarise(t: Track): Summary {
    Summary(t.(cues := []), multiset(t.cues))
  }

  function Summaries(ts: seq<Track>): seq<Summary> {
    Map(Summarise, ts)
  }

  /** The same tracks with the same cues, read in whatever order. */
  ghost predicate SameLibrary(a: seq<Track>, b: seq<Track>) {
    multiset(Summaries(a)) == multiset(Summaries(b))
  }

  /** Permuting the tracks is one way to read the same library; permuting a track's cues another. */
  lemma PermutedIsTheSame(a: seq<Track>, b: seq<Track>)
    requires multiset(a) == multiset(b) ||
             (|a| == |b| && forall i :: 0 <= i < |a| ==>
                a[i].(cues := []) == b[i].(cues := []) && multiset(a[i].cues) == multiset(b[i].cues))
    ensures SameLibrary(a, b)
  {
    if multiset(a) == multiset(b) {
      MapPermutes(Summarise, a, b);
    } else {
      assert Summaries(a) == Summaries(b);
    }
  }

  function SlotOfSummary(s: Summary): Slot {
    SlotOf(s.track)
  }

  lemma SlotsFollow(ts: seq<Track>)
    requires Ascends(TrackBefore, ts)
    ensures Ascends(SlotBefore, Map(SlotOf, ts))
  {
    forall i, j | 0 <= i < j < |ts|
      ensures !SlotBefore(Map(SlotOf, ts)[j], Map(SlotOf, ts)[i])
    {
      assert !TrackBefore(ts[j], ts[i]);
    }
  }

  /** However a library is read and sorted, each place goes to the same name and id. */
  lemma SameSlots(a: seq<Track>, b: seq<Track>, oa: seq<Track>, ob: seq<Track>)
    requires SameLibrary(a, b) && IsSortOf(TrackBefore, oa, a) && IsSortOf(TrackBefore, ob, b)
    ensures Map(SlotOf, oa) == Map(SlotOf, ob)
  {
    MapPermutes(SlotOf, oa, a);
    MapPermutes(SlotOf, ob, b);
    MapPermutes(SlotOfSummary, Summaries(a), Summaries(b));
    assert Map(SlotOf, a) == Map(SlotOfSummary, Summaries(a));
    assert Map(SlotOf, b) == Map(SlotOfSummary, Summaries(b));
    SlotsFollow(oa);
    SlotsFollow(ob);
    forall x, y | !SlotBefore(x, y) && !SlotBefore(y, x)
      ensures x == y
    {
      SlotsAreOrdered(x, y, x);
    }
    SortIsUnique(SlotBefore, Map(SlotOf, oa), Map(SlotOf, ob));
  }

  // ----- the lines tell the blocks apart

  predicate StartsTrack(line: string) {
    line != "" && line[0] == 't'
  }

  /** Only the first line of a block begins as a track's. */
  lemma BlockStarts(f: Formats, t: Track, cues: seq<Cue>, i: nat)
    requires i < |Block(f, t, cues)|
    ensures StartsTrack(Block(f, t, cues)[i]) <==> i == 0
  {
    if i == 0 {
      assert TrackLine(f, t)[0] == 't';
    } else {
      assert CueLine(f, cues[i - 1])[0] == ' ';
    }
  }

  /** In lines that end in a block, the block begins at the last that begins as a track's. */
  lemma LastStart(f: Formats, x: seq<string>, t: Track, cues: seq<Cue>)
    ensures var lines := x + Block(f, t, cues);
            StartsTrack(lines[|x|]) && forall k :: |x| < k < |lines| ==> !StartsTrack(lines[k])
  {
    var block := Block(f, t, cues);
    BlockStarts(f, t, cues, 0);
    forall k | |x| < k < |x + block|
      ensures !StartsTrack((x + block)[k])
    {
      BlockStarts(f, t, cues, k - |x|);
    }
  }

  /** So lines that end in two blocks end in one. */
  lemma LastBlock(f: Formats, x: seq<string>, y: seq<string>, s: Track, cs: seq<Cue>, t: Track, ct: seq<Cue>)
    requires x + Block(f, s, cs) == y + Block(f, t, ct)
    ensures x == y && Block(f, s, cs) == Block(f, t, ct)
  {
    var lines := x + Block(f, s, cs);
    LastStart(f, x, s, cs);
    LastStart(f, y, t, ct);
    assert |x| == |y|;
    assert x == lines[..|x|] && y == lines[..|x|];
    assert Block(f, s, cs) == lines[|x|..] && Block(f, t, ct) == lines[|x|..];
  }

  ghost predicate SameBlocks(f: Formats, a: seq<Track>, b: seq<Track>, ca: seq<seq<Cue>>, cb: seq<seq<Cue>>)
    requires |a| == |ca| && |b| == |cb|
  {
    |a| == |b| && forall i :: 0 <= i < |a| ==> Block(f, a[i], ca[i]) == Block(f, b[i], cb[i])
  }

  lemma SameBlocksByLast(f: Formats, a: seq<Track>, b: seq<Track>, ca: seq<seq<Cue>>, cb: seq<seq<Cue>>)
    requires |a| == |ca| > 0 && |b| == |cb| > 0
    ensures var n, m := |a| - 1, |b| - 1;
            SameBlocks(f, a, b, ca, cb) <==>
            SameBlocks(f, a[..n], b[..m], ca[..n], cb[..m]) && Block(f, a[n], ca[n]) == Block(f, b[m], cb[m])
  {
    var n, m := |a| - 1, |b| - 1;
    assert forall i :: 0 <= i < n ==> a[..n][i] == a[i] && ca[..n][i] == ca[i];
    assert forall i :: 0 <= i < m ==> b[..m][i] == b[i] && cb[..m][i] == cb[i];
  }

  /** Equal lines are equal block by block, and of as many tracks. */
  lemma {:induction false} LinesAreBlocks(f: Formats, a: seq<Track>, b: seq<Track>,
                                          ca: seq<seq<Cue>>, cb: seq<seq<Cue>>)
    requires |a| == |ca| && |b| == |cb|
    ensures TrackLines(f, a, ca) == TrackLines(f, b, cb) <==> SameBlocks(f, a, b, ca, cb)
  {
    if a != [] && b != [] {
      var n, m := |a| - 1, |b| - 1;
      var x, y := TrackLines(f, a[..n], ca[..n]), TrackLines(f, b[..m], cb[..m]);
      LinesAreBlocks(f, a[..n], b[..m], ca[..n], cb[..m]);
      SameBlocksByLast(f, a, b, ca, cb);
      if x + Block(f, a[n], ca[n]) == y + Block(f, b[m], cb[m]) {
        LastBlock(f, x, y, a[n], ca[n], b[m], cb[m]);
      }
    }
  }

  // ----- cues that tie

  /** Cues of one kind, number and millisecond print the same line. */
  ghost predicate TiedCuesPrintAlike(f: Formats, cs: seq<Cue>) {
    forall c, d :: c in cs && d in cs && SpotOf(c) == SpotOf(d) ==> CueLine(f, c) == CueLine(f, d)
  }

  ghost predicate SortsPrintAlike(f: Formats, cs: seq<Cue>) {
    forall p, q :: IsSortOf(CueBefore, p, cs) && IsSortOf(CueBefore, q, cs) ==> CueLines(f, p) == CueLines(f, q)
  }

  /** Any two sorts of the cues agree on the spot at each place. */
  lemma SameSpots(p: seq<Cue>, q: seq<Cue>, cs: seq<Cue>)
    requires IsSortOf(CueBefore, p, cs) && IsSortOf(CueBefore, q, cs)
    ensures Map(SpotOf, p) == Map(SpotOf, q)
  {
    MapPermutes(SpotOf, p, q);
    forall i, j | 0 <= i < j < |p|
      ensures !SpotBefore(Map(SpotOf, p)[j], Map(SpotOf, p)[i])
    {
      assert !CueBefore(p[j], p[i]);
    }
    forall i, j | 0 <= i < j < |q|
      ensures !SpotBefore(Map(SpotOf, q)[j], Map(SpotOf, q)[i])
    {
      assert !CueBefore(q[j], q[i]);
    }
    SortIsUnique(SpotBefore, Map(SpotOf, p), Map(SpotOf, q));
  }

  lemma TiedCuesSuffice(f: Formats, cs: seq<Cue>, p: seq<Cue>, q: seq<Cue>)
    requires TiedCuesPrintAlike(f, cs) && IsSortOf(CueBefore, p, cs) && IsSortOf(CueBefore, q, cs)
    ensures CueLines(f, p) == CueLines(f, q)
  {
    SameSpots(p, q, cs);
    Permuted(p, cs);
    Permuted(q, cs);
    forall i | 0 <= i < |p|
      ensures CueLine(f, p[i]) == CueLine(f, q[i])
    {
      assert p[i] in p && q[i] in q;
      assert Map(SpotOf, p)[i] == SpotOf(p[i]) && Map(SpotOf, q)[i] == SpotOf(q[i]);
    }
  }

  lemma TiedCuesMaySwap(p: seq<Cue>, i: nat, j: nat)
    requires Ascends(CueBefore, p) && i < |p| && j < |p| && SpotOf(p[i]) == SpotOf(p[j])
    ensures IsSortOf(CueBefore, p[i := p[j]][j := p[i]], p)
  {
    var swapped := p[i := p[j]][j := p[i]];
    assert forall k :: 0 <= k < |p| ==> SpotOf(swapped[k]) == SpotOf(p[k]);
    assert forall k, l :: 0 <= k < l < |p| ==> CueBefore(swapped[l], swapped[k]) == CueBefore(p[l], p[k]);
  }

  /** The sorts of some cues print alike exactly when the tied ones among them do. */
  lemma CueSortsPrintAlike(f: Formats, cs: seq<Cue>)
    ensures SortsPrintAlike(f, cs) <==> TiedCuesPrintAlike(f, cs)
  {
    if TiedCuesPrintAlike(f, cs) {
      forall p, q | IsSortOf(CueBefore, p, cs) && IsSortOf(CueBefore, q, cs)
        ensures CueLines(f, p) == CueLines(f, q)
      {
        TiedCuesSuffice(f, cs, p, q);
      }
    }
    if SortsPrintAlike(f, cs) {
      forall c, d | c in cs && d in cs && SpotOf(c) == SpotOf(d)
        ensures CueLine(f, c) == CueLine(f, d)
      {
        TiedCuesMust(f, cs, c, d);
      }
    }
  }

  lemma TiedCuesMust(f: Formats, cs: seq<Cue>, c: Cue, d: Cue)
    requires SortsPrintAlike(f, cs) && c in cs && d in cs && SpotOf(c) == SpotOf(d)
    ensures CueLine(f, c) == CueLine(f, d)
  {
    var p, q, i := TwoSorts(cs, c, d);
    assert CueLines(f, p)[i] == CueLine(f, c) && CueLines(f, q)[i] == CueLine(f, d);
  }

  lemma SomeCueSort(cs: seq<Cue>) returns (sorted: seq<Cue>)
    ensures IsSortOf(CueBefore, sorted, cs)
  {
    CuesAreOrdered();
    SortingSorts(CueBefore, cs);
    sorted := Sorting(CueBefore, cs);
  }

  /** Two sorts that give two tied cues the same place. */
  lemma TwoSorts(cs: seq<Cue>, c: Cue, d: Cue) returns (p: seq<Cue>, q: seq<Cue>, i: nat)
    requires c in cs && d in cs && SpotOf(c) == SpotOf(d)
    ensures IsSortOf(CueBefore, p, cs) && IsSortOf(CueBefore, q, cs)
    ensures i < |p| == |q| && p[i] == c && q[i] == d
  {
    p := SomeCueSort(cs);
    Permuted(p, cs);
    i :| 0 <= i < |p| && p[i] == c;
    q := p;
    if c != d {
      var j :| 0 <= j < |p| && p[j] == d;
      q := p[i := d][j := c];
      TiedCuesMaySwap(p, i, j);
    }
  }

  // ----- when read order can matter

  /** Tracks of one name and id print the same line, and their cues, sorted, the same lines. */
  predicate PrintAlike(f: Formats, s: Track, t: Track) {
    && TrackLine(f, s) == TrackLine(f, t)
    && CueLines(f, Sorting(CueBefore, s.cues)) == CueLines(f, Sorting(CueBefore, t.cues))
  }

  /** Tied cues of a track print alike, and so do tied tracks. */
  ghost predicate TiesPrintAlike(f: Formats, ts: seq<Track>) {
    && (forall t :: t in ts ==> TiedCuesPrintAlike(f, t.cues))
    && (forall s, t :: s in ts && t in ts && SlotOf(s) == SlotOf(t) ==> PrintAlike(f, s, t))
  }

  /** Reading the same library in any order gives the same lines. */
  ghost predicate OrderNeverMatters(f: Formats, ts: seq<Track>) {
    forall other, la, lb :: SameLibrary(ts, other) && IsDigest(f, ts, la) && IsDigest(f, other, lb) ==> la == lb
  }

  lemma TiedBlocks(f: Formats, ts: seq<Track>, s: Track, cs: seq<Cue>, t: Track, ct: seq<Cue>)
    requires TiesPrintAlike(f, ts) && s in ts && t in ts && SlotOf(s) == SlotOf(t)
    requires IsSortOf(CueBefore, cs, s.cues) && IsSortOf(CueBefore, ct, t.cues)
    ensures Block(f, s, cs) == Block(f, t, ct)
  {
    CuesAreOrdered();
    SortingSorts(CueBefore, s.cues);
    SortingSorts(CueBefore, t.cues);
    TiedCuesSuffice(f, s.cues, cs, Sorting(CueBefore, s.cues));
    TiedCuesSuffice(f, t.cues, ct, Sorting(CueBefore, t.cues));
    assert PrintAlike(f, s, t);
  }

  lemma TrackOfSummary(a: seq<Track>, b: seq<Track>, u: Track) returns (t: Track)
    requires SameLibrary(a, b) && u in b
    ensures t in a && Summarise(t) == Summarise(u)
  {
    var k :| 0 <= k < |b| && b[k] == u;
    Permuted(Summaries(a), Summaries(b));
    assert Summaries(b)[k] in Summaries(b);
    var i :| 0 <= i < |a| && Summaries(a)[i] == Summaries(b)[k];
    t := a[i];
  }

  lemma AlikeAt(f: Formats, a: seq<Track>, b: seq<Track>, t: Track, ct: seq<Cue>, u: Track, cu: seq<Cue>)
    requires TiesPrintAlike(f, a) && SameLibrary(a, b) && t in a && u in b && SlotOf(t) == SlotOf(u)
    requires IsSortOf(CueBefore, ct, t.cues) && IsSortOf(CueBefore, cu, u.cues)
    ensures Block(f, t, ct) == Block(f, u, cu)
  {
    var v := TrackOfSummary(a, b, u);
    assert Summarise(v).track == Summarise(u).track;
    assert IsSortOf(CueBefore, cu, v.cues);
    TiedBlocks(f, a, t, ct, v, cu);
    assert TrackFields(f, v) == TrackFields(f, v.(cues := [])) == TrackFields(f, u);
  }

  lemma AlikeDespiteOrder(f: Formats, a: seq<Track>, b: seq<Track>, la: seq<string>, lb: seq<string>)
    requires TiesPrintAlike(f, a) && SameLibrary(a, b) && IsDigest(f, a, la) && IsDigest(f, b, lb)
    ensures la == lb
  {
    var oa: seq<Track>, ca: seq<seq<Cue>> :| IsArrangement(a, oa, ca) &&
      la == [Header(f, |a|)] + TrackLines(f, oa, ca);
    var ob: seq<Track>, cb: seq<seq<Cue>> :| IsArrangement(b, ob, cb) &&
      lb == [Header(f, |b|)] + TrackLines(f, ob, cb);
    AlikeArrangements(f, a, b, oa, ca, ob, cb);
    LinesAreBlocks(f, oa, ob, ca, cb);
  }

  lemma AlikeArrangements(f: Formats, a: seq<Track>, b: seq<Track>, oa: seq<Track>, ca: seq<seq<Cue>>,
                          ob: seq<Track>, cb: seq<seq<Cue>>)
    requires TiesPrintAlike(f, a) && SameLibrary(a, b) && IsArrangement(a, oa, ca) && IsArrangement(b, ob, cb)
    ensures |a| == |b| == |oa| == |ob|
    ensures forall i :: 0 <= i < |oa| ==> Block(f, oa[i], ca[i]) == Block(f, ob[i], cb[i])
  {
    SameSlots(a, b, oa, ob);
    Permuted(Summaries(a), Summaries(b));
    Permuted(oa, a);
    Permuted(ob, b);
    forall i | 0 <= i < |oa|
      ensures Block(f, oa[i], ca[i]) == Block(f, ob[i], cb[i])
    {
      assert oa[i] in oa && ob[i] in ob;
      assert Map(SlotOf, oa)[i] == SlotOf(oa[i]) && Map(SlotOf, ob)[i] == SlotOf(ob[i]);
      AlikeAt(f, a, b, oa[i], ca[i], ob[i], cb[i]);
    }
  }

  lemma SomeArrangement(ts: seq<Track>) returns (o: seq<Track>, cues: seq<seq<Cue>>)
    ensures IsArrangement(ts, o, cues)
  {
    TracksAreOrdered();
    SortingSorts(TrackBefore, ts);
    o := Sorting(TrackBefore, ts);
    cues := seq(|o|, i requires 0 <= i < |o| => Sorting(CueBefore, o[i].cues));
    CuesAreOrdered();
    forall i | 0 <= i < |o|
      ensures IsSortOf(CueBefore, cues[i], o[i].cues)
    {
      SortingSorts(CueBefore, o[i].cues);
    }
  }

  lemma TiedMaySwap(ts: seq<Track>, p: nat, q: nat)
    requires Ascends(TrackBefore, ts) && p < |ts| && q < |ts| && SlotOf(ts[p]) == SlotOf(ts[q])
    ensures IsSortOf(TrackBefore, ts[p := ts[q]][q := ts[p]], ts)
  {
    var swapped := ts[p := ts[q]][q := ts[p]];
    assert forall i :: 0 <= i < |ts| ==> SlotOf(swapped[i]) == SlotOf(ts[i]);
    assert forall i, j :: 0 <= i < j < |ts| ==> TrackBefore(swapped[j], swapped[i]) == TrackBefore(ts[j], ts[i]);
  }

  lemma ResortOne(ts: seq<Track>, o: seq<Track>, cues: seq<seq<Cue>>, p: nat, cs: seq<Cue>)
    requires IsArrangement(ts, o, cues) && p < |o| && IsSortOf(CueBefore, cs, o[p].cues)
    ensures IsArrangement(ts, o, cues[p := cs])
  {
  }

  lemma SwapTwo(ts: seq<Track>, o: seq<Track>, cues: seq<seq<Cue>>, p: nat, q: nat, cs: seq<Cue>, ct: seq<Cue>)
    requires IsArrangement(ts, o, cues) && p < |o| && q < |o| && p != q && SlotOf(o[p]) == SlotOf(o[q])
    requires IsSortOf(CueBefore, cs, o[p].cues) && IsSortOf(CueBefore, ct, o[q].cues)
    ensures IsArrangement(ts, o[p := o[q]][q := o[p]], cues[p := ct][q := cs])
  {
    TiedMaySwap(o, p, q);
  }

  /** Two sorts of one library that give two tied tracks, or one track's two sorts of cues, the same place. */
  lemma TwoArrangements(ts: seq<Track>, s: Track, cs: seq<Cue>, t: Track, ct: seq<Cue>)
    returns (o1: seq<Track>, c1: seq<seq<Cue>>, o2: seq<Track>, c2: seq<seq<Cue>>, p: nat)
    requires s in ts && t in ts && SlotOf(s) == SlotOf(t)
    requires IsSortOf(CueBefore, cs, s.cues) && IsSortOf(CueBefore, ct, t.cues)
    ensures IsArrangement(ts, o1, c1) && IsArrangement(ts, o2, c2) && |o1| == |o2|
    ensures p < |o1| && o1[p] == s && c1[p] == cs && o2[p] == t && c2[p] == ct
  {
    var cues;
    o1, cues := SomeArrangement(ts);
    Permuted(o1, ts);
    p :| 0 <= p < |o1| && o1[p] == s;
    c1 := cues[p := cs];
    ResortOne(ts, o1, cues, p, cs);
    if s == t {
      o2, c2 := o1, cues[p := ct];
      ResortOne(ts, o1, cues, p, ct);
    } else {
      var q :| 0 <= q < |o1| && o1[q] == t;
      o2, c2 := o1[p := t][q := s], cues[p := ct][q := cs];
      SwapTwo(ts, o1, cues, p, q, cs, ct);
    }
  }

  lemma OneOrderOnly(f: Formats, ts: seq<Track>, o1: seq<Track>, c1: seq<seq<Cue>>, o2: seq<Track>, c2: seq<seq<Cue>>)
    requires OrderNeverMatters(f, ts) && IsArrangement(ts, o1, c1) && IsArrangement(ts, o2, c2)
    ensures TrackLines(f, o1, c1) == TrackLines(f, o2, c2)
  {
    ArrangedIsDigest(f, ts, o1, c1);
    ArrangedIsDigest(f, ts, o2, c2);
    assert SameLibrary(ts, ts);
    SameTail([Header(f, |ts|)], TrackLines(f, o1, c1), TrackLines(f, o2, c2));
  }

  lemma TiedBlocksMustAgree(f: Formats, ts: seq<Track>, s: Track, cs: seq<Cue>, t: Track, ct: seq<Cue>)
    requires OrderNeverMatters(f, ts) && s in ts && t in ts && SlotOf(s) == SlotOf(t)
    requires IsSortOf(CueBefore, cs, s.cues) && IsSortOf(CueBefore, ct, t.cues)
    ensures TrackLine(f, s) == TrackLine(f, t) && CueLines(f, cs) == CueLines(f, ct)
  {
    var o1, c1, o2, c2, p := TwoArrangements(ts, s, cs, t, ct);
    OneOrderOnly(f, ts, o1, c1, o2, c2);
    LinesAreBlocks(f, o1, o2, c1, c2);
    assert Block(f, s, cs) == Block(f, t, ct);
    assert Block(f, s, cs)[0] == TrackLine(f, s) && Block(f, t, ct)[0] == TrackLine(f, t);
    assert Block(f, s, cs)[1..] == CueLines(f, cs) && Block(f, t, ct)[1..] == CueLines(f, ct);
  }

  lemma TiesMustPrintAlike(f: Formats, ts: seq<Track>)
    requires OrderNeverMatters(f, ts)
    ensures TiesPrintAlike(f, ts)
  {
    CuesAreOrdered();
    forall t | t in ts
      ensures TiedCuesPrintAlike(f, t.cues)
    {
      forall p, q | IsSortOf(CueBefore, p, t.cues) && IsSortOf(CueBefore, q, t.cues)
        ensures CueLines(f, p) == CueLines(f, q)
      {
        TiedBlocksMustAgree(f, ts, t, p, t, q);
      }
      CueSortsPrintAlike(f, t.cues);
    }
    forall s, t | s in ts && t in ts && SlotOf(s) == SlotOf(t)
      ensures PrintAlike(f, s, t)
    {
      SortingSorts(CueBefore, s.cues);
      SortingSorts(CueBefore, t.cues);
      TiedBlocksMustAgree(f, ts, s, Sorting(CueBefore, s.cues), t, Sorting(CueBefore, t.cues));
    }
  }

  /** Read order never matters exactly when tied cues, and tied tracks, print alike. */
  lemma OrderMattersByTies(f: Formats, ts: seq<Track>)
    ensures OrderNeverMatters(f, ts) <==> TiesPrintAlike(f, ts)
  {
    if TiesPrintAlike(f, ts) {
      forall other, la, lb | SameLibrary(ts, other) && IsDigest(f, ts, la) && IsDigest(f, other, lb)
        ensures la == lb
      {
        AlikeDespiteOrder(f, ts, other, la, lb);
      }
    }
    if OrderNeverMatters(f, ts) {
      TiesMustPrintAlike(f, ts);
    }
  }

  /** Two tracks of one name and id, with different titles: their order shows. */
  lemma TitlesOfOneName(f: Formats, s: Track)
    ensures !OrderNeverMatters(f, [s.(title := "x"), s.(title := "y")])
  {
    var x, y := s.(title := "x"), s.(title := "y");
    TitleShows(f, x);
    TitleShows(f, y);
    assert x in [x, y] && y in [x, y];
    OrderMattersByTies(f, [x, y]);
  }

  /** Where in a track's line its title begins. */
  function TitleAt(t: Track): nat {
    |"track\t"| + |t.sourceId| + 1 + |t.filename| + 1
  }

  lemma TitleShows(f: Formats, t: Track)
    requires t.title != ""
    ensures TitleAt(t) < |TrackLine(f, t)| && TrackLine(f, t)[TitleAt(t)] == t.title[0]
  {
    var fields := TrackFields(f, t);
    var tail := Tabbed(fields[2..]);
    assert fields[1..][1..] == fields[2..] && fields[2..][0] == t.title;
    assert tail[0] == t.title[0];
    assert Tabbed(fields[1..]) == t.filename + "\t" + tail;
    assert Tabbed(fields) == t.sourceId + "\t" + Tabbed(fields[1..]);
  }

  // ----- tracks and cues that are told apart

  /** Tracks that differ have another name or id; cues of a track that differ, another kind, slot or millisecond. */
  ghost predicate ToldApart(ts: seq<Track>) {
    && (forall s, t :: s in ts && t in ts && Summarise(s) != Summarise(t) ==> SlotOf(s) != SlotOf(t))
    && (forall t :: t in ts ==> CuesToldApart(t.cues))
  }

  ghost predicate CuesToldApart(cs: seq<Cue>) {
    forall c, d :: c in cs && d in cs && c != d ==> SpotOf(c) != SpotOf(d)
  }

  /** Then nothing is tied, and the same library gives the same lines, in whatever order it is read. */
  lemma ReadOrderDoesNotMatter(f: Formats, ts: seq<Track>)
    requires ToldApart(ts)
    ensures OrderNeverMatters(f, ts)
  {
    CuesAreOrdered();
    forall s, t | s in ts && t in ts && SlotOf(s) == SlotOf(t)
      ensures PrintAlike(f, s, t)
    {
      assert Summarise(s) == Summarise(t);
      assert TrackFields(f, s) == TrackFields(f, s.(cues := [])) == TrackFields(f, t);
      SortingSorts(CueBefore, s.cues);
      SortingSorts(CueBefore, t.cues);
      TiedCuesSuffice(f, s.cues, Sorting(CueBefore, s.cues), Sorting(CueBefore, t.cues));
    }
    OrderMattersByTies(f, ts);
  }

  // ----- the digest tells libraries apart

  /** A track as printed: its fields, and those of its cues in no order. */
  datatype Printed = Printed(fields: seq<string>, cues: multiset<seq<string>>)

  function CuePrinter(f: Formats): Cue -> seq<string> {
    (c: Cue) => CueFields(f, c)
  }

  function Printer(f: Formats): Track -> Printed {
    (t: Track) => Printed(TrackFields(f, t), multiset(Map(CuePrinter(f), t.cues)))
  }

  predicate NoTabs(fields: seq<string>) {
    forall i :: 0 <= i < |fields| ==> Free(fields[i], '\t')
  }

  /** No printed field of a track or a cue of it holds a tab. */
  ghost predicate TabFree(f: Formats, t: Track) {
    NoTabs(TrackFields(f, t)) && forall c :: c in t.cues ==> NoTabs(CueFields(f, c))
  }

  ghost predicate AllTabFree(f: Formats, ts: seq<Track>) {
    forall t :: t in ts ==> TabFree(f, t)
  }

  lemma {:induction false} TabbedCuts(fields: seq<string>)
    requires fields != [] && NoTabs(fields)
    ensures Cut(Tabbed(fields), '\t') == fields
  {
    var first := fields[0];
    if |fields| == 1 {
      CutCons(first, '\t', "");
    } else {
      assert forall i :: 0 <= i < |fields| - 1 ==> fields[1..][i] == fields[i + 1];
      TabbedCuts(fields[1..]);
      CutCons(first, '\t', Tabbed(fields[1..]));
    }
  }

  lemma SameFields(tag: string, a: seq<string>, b: seq<string>)
    requires a != [] && b != [] && NoTabs(a) && NoTabs(b) && tag + Tabbed(a) == tag + Tabbed(b)
    ensures a == b
  {
    SameTail(tag, Tabbed(a), Tabbed(b));
    TabbedCuts(a);
    TabbedCuts(b);
  }

  /** A block tells what track it is of, as printed. */
  lemma BlockTells(f: Formats, s: Track, cs: seq<Cue>, t: Track, ct: seq<Cue>)
    requires TabFree(f, s) && TabFree(f, t) && Block(f, s, cs) == Block(f, t, ct)
    requires multiset(cs) == multiset(s.cues) && multiset(ct) == multiset(t.cues)
    ensures Printer(f)(s) == Printer(f)(t)
  {
    var printer := CuePrinter(f);
    Permuted(cs, s.cues);
    Permuted(ct, t.cues);
    assert Block(f, s, cs)[0] == TrackLine(f, s) && Block(f, t, ct)[0] == TrackLine(f, t);
    SameFields("track\t", TrackFields(f, s), TrackFields(f, t));
    forall i | 0 <= i < |cs|
      ensures printer(cs[i]) == printer(ct[i])
    {
      assert cs[i] in cs && ct[i] in ct;
      assert Block(f, s, cs)[i + 1] == CueLine(f, cs[i]) && Block(f, t, ct)[i + 1] == CueLine(f, ct[i]);
      SameFields("  cue\t", CueFields(f, cs[i]), CueFields(f, ct[i]));
    }
    assert Map(printer, cs) == Map(printer, ct);
    MapPermutes(printer, cs, s.cues);
    MapPermutes(printer, ct, t.cues);
  }

  /** Where no printed field holds a tab, equal digests are of the same tracks and cues, as printed. */
  lemma DigestTellsLibrariesApart(f: Formats, a: seq<Track>, b: seq<Track>, lines: seq<string>)
    requires AllTabFree(f, a) && AllTabFree(f, b) && IsDigest(f, a, lines) && IsDigest(f, b, lines)
    ensures multiset(Map(Printer(f), a)) == multiset(Map(Printer(f), b))
  {
    var oa: seq<Track>, ca: seq<seq<Cue>> :| IsArrangement(a, oa, ca) &&
      lines == [Header(f, |a|)] + TrackLines(f, oa, ca);
    var ob: seq<Track>, cb: seq<seq<Cue>> :| IsArrangement(b, ob, cb) &&
      lines == [Header(f, |b|)] + TrackLines(f, ob, cb);
    assert TrackLines(f, oa, ca) == lines[1..] == TrackLines(f, ob, cb);
    LinesAreBlocks(f, oa, ob, ca, cb);
    BlocksTell(f, a, oa, ca, b, ob, cb);
    MapPermutes(Printer(f), oa, a);
    MapPermutes(Printer(f), ob, b);
  }

  lemma BlocksTell(f: Formats, a: seq<Track>, oa: seq<Track>, ca: seq<seq<Cue>>,
                   b: seq<Track>, ob: seq<Track>, cb: seq<seq<Cue>>)
    requires AllTabFree(f, a) && AllTabFree(f, b) && IsArrangement(a, oa, ca) && IsArrangement(b, ob, cb)
    requires SameBlocks(f, oa, ob, ca, cb)
    ensures Map(Printer(f), oa) == Map(Printer(f), ob)
  {
    var printer := Printer(f);
    Permuted(oa, a);
    Permuted(ob, b);
    forall i | 0 <= i < |oa|
      ensures printer(oa[i]) == printer(ob[i])
    {
      assert oa[i] in oa && ob[i] in ob;
      BlockTells(f, oa[i], ca[i], ob[i], cb[i]);
    }
  }

  // ----- and by what they hold

  /** The integer nearest a real, the one further from zero of two as near. */
  predicate IsNearest(n: int, value: real) {
    var off := n as real - value;
    -0.5 < off < 0.5 || (value >= 0.0 && off == 0.5) || (value <= 0.0 && off == -0.5)
  }

  lemma MsIsNearest(value: real, n: int)
    ensures Ms(value) == n <==> IsNearest(n, value)
  {
    var below, above := (value + 0.5).Floor, (0.5 - value).Floor;
    assert below as real <= value + 0.5 < below as real + 1.0;
    assert above as real <= 0.5 - value < above as real + 1.0;
  }

  /** What a cue says: what kind it is, where it is to the millisecond, its words, and where it loops to if it does. */
  datatype CueContent = CueContent(kind: Kind, number: int, ms: int, color: string, comment: string,
                                   loopEndMs: Option<int>)

  /** What a track says: its own fields, the tempo as written, and what its cues say, in no order. */
  datatype TrackContent = TrackContent(sourceId: string, filename: string, title: string, artist: string,
                                       album: string, bpm: string, key: string, rating: Option<int>,
                                       comment: string, cues: multiset<CueContent>)

  function CueContentOf(c: Cue): CueContent {
    CueContent(c.kind, c.hotCueNumber, Ms(c.positionMs), c.color, c.comment,
               if c.isLoop then Some(Ms(c.loopEndMs)) else None)
  }

  function Contents(f: Formats): Track -> TrackContent {
    (t: Track) => TrackContent(t.sourceId, t.filename, t.title, t.artist, t.album, f.twoDecimals(t.bpm), t.key,
                               t.rating, t.comment, multiset(Map(CueContentOf, t.cues)))
  }

  /** Numbers are told apart by how they are written, none as a dash, and none with a tab. */
  ghost predicate WritesPlainly(f: Formats) {
    && (forall m, n :: f.number(m) == f.number(n) ==> m == n)
    && (forall n :: f.number(n) != "-" && Free(f.number(n), '\t'))
    && (forall x :: Free(f.twoDecimals(x), '\t'))
  }

  predicate TabFreeCue(c: Cue) {
    '\t' !in c.color && '\t' !in c.comment
  }

  /** None of a track's own words, nor its cues', holds a tab. */
  predicate TabFreeTrack(t: Track) {
    && '\t' !in t.sourceId && '\t' !in t.filename && '\t' !in t.title && '\t' !in t.artist
    && '\t' !in t.album && '\t' !in t.key && '\t' !in t.comment
    && forall c :: c in t.cues ==> TabFreeCue(c)
  }

  lemma FieldsAreTabFree(f: Formats, t: Track)
    requires WritesPlainly(f) && TabFreeTrack(t)
    ensures TabFree(f, t)
  {
    var fields := TrackFields(f, t);
    assert Free(fields[0], '\t') && Free(fields[1], '\t') && Free(fields[2], '\t') && Free(fields[3], '\t');
    assert Free(fields[4], '\t') && Free(fields[5], '\t') && Free(fields[6], '\t') && Free(fields[8], '\t');
    RatingTells(f, t.rating, t.rating);
    assert Free(fields[7], '\t');
    forall c | c in t.cues
      ensures NoTabs(CueFields(f, c))
    {
      assert TabFreeCue(c);
      CueFieldsAreTabFree(f, c);
    }
  }

  lemma RatingTells(f: Formats, r: Option<int>, s: Option<int>)
    requires WritesPlainly(f)
    ensures Free(Rated(f, r), '\t') && (Rated(f, r) == Rated(f, s) ==> r == s)
  {
    match (r, s)
    case (Some(m), Some(n)) => assert f.number(m) == f.number(n) ==> m == n;
    case (Some(m), None) => assert f.number(m) != "-";
    case (None, Some(n)) => assert f.number(n) != "-";
    case (None, None) =>
  }

  lemma CueFieldsAreTabFree(f: Formats, c: Cue)
    requires WritesPlainly(f) && TabFreeCue(c)
    ensures NoTabs(CueFields(f, c))
  {
    var fields := CueFields(f, c);
    assert Free(fields[0], '\t') && Free(fields[1], '\t') && Free(fields[2], '\t') && Free(fields[3], '\t');
    assert Free(fields[4], '\t') && Free(fields[5], '\t') && Free(fields[6], '\t');
  }

  lemma CueFieldsTell(f: Formats, c: Cue, d: Cue)
    requires WritesPlainly(f) && CueFields(f, c) == CueFields(f, d)
    ensures CueContentOf(c) == CueContentOf(d)
  {
    var p, q := CueFields(f, c), CueFields(f, d);
    assert p[0] == q[0] && p[1] == q[1] && p[2] == q[2] && p[3] == q[3];
    assert p[4] == q[4] && p[5] == q[5] && p[6] == q[6];
  }

  lemma TrackFieldsTell(f: Formats, s: Track, t: Track)
    requires WritesPlainly(f) && TrackFields(f, s) == TrackFields(f, t)
    ensures s.sourceId == t.sourceId && s.filename == t.filename && s.title == t.title && s.artist == t.artist
    ensures s.album == t.album && f.twoDecimals(s.bpm) == f.twoDecimals(t.bpm) && s.key == t.key
    ensures s.rating == t.rating && s.comment == t.comment
  {
    var p, q := TrackFields(f, s), TrackFields(f, t);
    assert p[0] == q[0] && p[1] == q[1] && p[2] == q[2] && p[3] == q[3] && p[4] == q[4];
    assert p[5] == q[5] && p[6] == q[6] && p[7] == q[7] && p[8] == q[8];
    RatingTells(f, s.rating, t.rating);
  }

  lemma PrintTells(f: Formats, s: Track, t: Track)
    requires WritesPlainly(f) && Printer(f)(s) == Printer(f)(t)
    ensures Contents(f)(s) == Contents(f)(t)
  {
    TrackFieldsTell(f, s, t);
    forall c, d | CuePrinter(f)(c) == CuePrinter(f)(d)
      ensures CueContentOf(c) == CueContentOf(d)
    {
      CueFieldsTell(f, c, d);
    }
    MatchingImages(CuePrinter(f), CueContentOf, s.cues, t.cues);
  }

  /** Two libraries of one digest hold the same. */
  lemma DigestTellsContents(f: Formats, a: seq<Track>, b: seq<Track>, lines: seq<string>)
    requires WritesPlainly(f) && (forall t :: t in a + b ==> TabFreeTrack(t))
    requires IsDigest(f, a, lines) && IsDigest(f, b, lines)
    ensures multiset(Map(Contents(f), a)) == multiset(Map(Contents(f), b))
  {
    forall t | t in a + b
      ensures TabFree(f, t)
    {
      FieldsAreTabFree(f, t);
    }
    assert forall t :: t in a || t in b ==> t in a + b;
    DigestTellsLibrariesApart(f, a, b, lines);
    forall s, t | Printer(f)(s) == Printer(f)(t)
      ensures Contents(f)(s) == Contents(f)(t)
    {
      PrintTells(f, s, t);
    }
    MatchingImages(Printer(f), Contents(f), a, b);
  }

  lemma ContentPrints(f: Formats, s: Track, cs: seq<Cue>, t: Track, ct: seq<Cue>)
    requires Contents(f)(s) == Contents(f)(t) && Map(CueContentOf, cs) == Map(CueContentOf, ct)
    ensures Block(f, s, cs) == Block(f, t, ct)
  {
    assert TrackFields(f, s) == TrackFields(f, t);
    assert |cs| == |Map(CueContentOf, cs)| == |Map(CueContentOf, ct)| == |ct|;
    forall i | 0 <= i < |cs|
      ensures CueLine(f, cs[i]) == CueLine(f, ct[i])
    {
      assert CueContentOf(cs[i]) == Map(CueContentOf, cs)[i] == Map(CueContentOf, ct)[i] == CueContentOf(ct[i]);
      assert CueFields(f, cs[i]) == CueFields(f, ct[i]);
    }
  }

  lemma CueOrderOf(cs: seq<Cue>, ct: seq<Cue>)
    requires Map(CueContentOf, cs) == Map(CueContentOf, ct) && Ascends(CueBefore, cs)
    ensures Ascends(CueBefore, ct)
  {
    forall i, j | 0 <= i < j < |ct|
      ensures !CueBefore(ct[j], ct[i])
    {
      assert CueContentOf(ct[i]) == Map(CueContentOf, cs)[i] == CueContentOf(cs[i]);
      assert CueContentOf(ct[j]) == Map(CueContentOf, cs)[j] == CueContentOf(cs[j]);
      assert !CueBefore(cs[j], cs[i]);
    }
  }

  lemma TrackOrderOf(f: Formats, o: seq<Track>, p: seq<Track>)
    requires Map(Contents(f), o) == Map(Contents(f), p) && Ascends(TrackBefore, o)
    ensures Ascends(TrackBefore, p)
  {
    forall i, j | 0 <= i < j < |p|
      ensures !TrackBefore(p[j], p[i])
    {
      assert Contents(f)(p[i]) == Map(Contents(f), o)[i] == Contents(f)(o[i]);
      assert Contents(f)(p[j]) == Map(Contents(f), o)[j] == Contents(f)(o[j]);
      assert !TrackBefore(o[j], o[i]);
    }
  }

  /** Cues that say the same can be put in the order of the others. */
  lemma CuesInOrderOf(cs: seq<Cue>, s: seq<Cue>, t: seq<Cue>) returns (ct: seq<Cue>)
    requires IsSortOf(CueBefore, cs, s) && multiset(Map(CueContentOf, s)) == multiset(Map(CueContentOf, t))
    ensures IsSortOf(CueBefore, ct, t) && Map(CueContentOf, cs) == Map(CueContentOf, ct)
  {
    MapPermutes(CueContentOf, cs, s);
    ct := Matching(CueContentOf, Map(CueContentOf, cs), t);
    CueOrderOf(cs, ct);
  }

  lemma {:induction false} AllCuesInOrderOf(f: Formats, o: seq<Track>, ca: seq<seq<Cue>>, p: seq<Track>)
    returns (cb: seq<seq<Cue>>)
    requires |o| == |ca| == |p| && forall i :: 0 <= i < |o| ==> IsSortOf(CueBefore, ca[i], o[i].cues)
    requires forall i :: 0 <= i < |o| ==> Contents(f)(o[i]) == Contents(f)(p[i])
    ensures |cb| == |p| && forall i :: 0 <= i < |p| ==> IsSortOf(CueBefore, cb[i], p[i].cues)
    ensures SameBlocks(f, o, p, ca, cb)
  {
    cb := [];
    if o != [] {
      var n := |o| - 1;
      var front := AllCuesInOrderOf(f, o[..n], ca[..n], p[..n]);
      var last := CuesInOrderOf(ca[n], o[n].cues, p[n].cues);
      ContentPrints(f, o[n], ca[n], p[n], last);
      cb := front + [last];
      assert cb[..n] == front;
      SameBlocksByLast(f, o, p, ca, cb);
    }
  }

  lemma ContentsDecideDigest(f: Formats, a: seq<Track>, b: seq<Track>, lines: seq<string>)
    requires multiset(Map(Contents(f), a)) == multiset(Map(Contents(f), b)) && IsDigest(f, a, lines)
    ensures IsDigest(f, b, lines)
  {
    var o: seq<Track>, ca: seq<seq<Cue>> :| IsArrangement(a, o, ca) &&
      lines == [Header(f, |a|)] + TrackLines(f, o, ca);
    MapPermutes(Contents(f), o, a);
    Permuted(Map(Contents(f), a), Map(Contents(f), b));
    var p := Matching(Contents(f), Map(Contents(f), o), b);
    TrackOrderOf(f, o, p);
    forall i | 0 <= i < |o|
      ensures Contents(f)(o[i]) == Contents(f)(p[i])
    {
      assert Map(Contents(f), o)[i] == Map(Contents(f), p)[i];
    }
    assert |o| == |Map(Contents(f), o)| == |p|;
    var cb := AllCuesInOrderOf(f, o, ca, p);
    LinesAreBlocks(f, o, p, ca, cb);
    ArrangedIsDigest(f, b, p, cb);
  }

  /** A digest of one library is a digest of another exactly when both hold the same tracks and cues. */
  lemma DigestIsOfContents(f: Formats, a: seq<Track>, b: seq<Track>, lines: seq<string>)
    requires WritesPlainly(f) && (forall t :: t in a + b ==> TabFreeTrack(t)) && IsDigest(f, a, lines)
    ensures IsDigest(f, b, lines) <==> multiset(Map(Contents(f), a)) == multiset(Map(Contents(f), b))
  {
    if IsDigest(f, b, lines) {
      DigestTellsContents(f, a, b, lines);
    }
    if multiset(Map(Contents(f), a)) == multiset(Map(Contents(f), b)) {
      ContentsDecideDigest(f, a, b, lines);
    }
  }

  /** Tracks come by filename, then by id; a track's cues by kind, memory cues first, then number, then millisecond. */
  lemma ArrangedInOrder(ts: seq<Track>, o: seq<Track>, cues: seq<seq<Cue>>, i: nat, j: nat)
    requires IsArrangement(ts, o, cues) && i < j < |o|
    ensures o[i].filename == o[j].filename || Precedes(o[i].filename, o[j].filename)
    ensures o[i].filename == o[j].filename && o[i].sourceId != o[j].sourceId ==> Precedes(o[i].sourceId, o[j].sourceId)
    ensures forall k, l :: 0 <= k < l < |cues[i]| ==> InCueOrder(cues[i][k], cues[i][l])
  {
    var s, t := o[i], o[j];
    assert !TrackBefore(t, s);
    BeforeIsByFirstDifference(s.filename, t.filename);
    BeforeIsByFirstDifference(s.sourceId, t.sourceId);
    BeforeIsAnOrder(s.filename, t.filename, "");
    BeforeIsAnOrder(s.sourceId, t.sourceId, "");
    forall k, l | 0 <= k < l < |cues[i]|
      ensures InCueOrder(cues[i][k], cues[i][l])
    {
      assert !CueBefore(cues[i][l], cues[i][k]);
    }
  }

  predicate InCueOrder(c: Cue, d: Cue) {
    && (c.kind == Hot ==> d.kind == Hot)
    && (c.kind == d.kind ==> c.hotCueNumber <= d.hotCueNumber)
    && (c.kind == d.kind && c.hotCueNumber == d.hotCueNumber ==> Ms(c.positionMs) <= Ms(d.positionMs))
  }

  /** A tab in a title moves what follows into the next field: one line for two different tracks. */
  lemma TabsConfuse(f: Formats, t: Track)
    ensures var one, other := t.(title := "x\ty", artist := "z"), t.(title := "x", artist := "y\tz");
            TrackLine(f, one) == TrackLine(f, other) && TrackFields(f, one) != TrackFields(f, other)
  {
    var one, other := t.(title := "x\ty", artist := "z"), t.(title := "x", artist := "y\tz");
    var a, b := TrackFields(f, one), TrackFields(f, other);
    var rest := Tabbed(a[4..]);
    assert a[4..] == b[4..];
    assert a[1..][1..] == a[2..] && a[2..][1..] == a[3..] && a[3..][1..] == a[4..];
    assert b[1..][1..] == b[2..] && b[2..][1..] == b[3..] && b[3..][1..] == b[4..];
    assert Tabbed(a[2..]) == "x\ty" + "\t" + ("z" + "\t" + rest);
    assert Tabbed(b[2..]) == "x" + "\t" + ("y\tz" + "\t" + rest);
    assert "x\ty" + "\t" + ("z" + "\t" + rest) == "x" + "\t" + ("y\tz" + "\t" + rest);
    assert Tabbed(a[1..]) == Tabbed(b[1..]);
    assert a[2] == "x\ty" && b[2] == "x";
  }
}
