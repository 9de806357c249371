/**
 Beat grids: `beatsFromMarkers`, `beatsInOrder` and `positionAfterSkippingBeats` of beat_grid.cpp,
 with times as reals and the non-finite doubles a file can hold kept as a case of their own.
 */
module BeatGrid {
  import opened Arithmetic
  import opened Sequences

  /** A double: a real, or one of the values that is not a number of milliseconds. */
  datatype Time = Finite(ms: real) | NotFinite

  datatype Marker = Marker(index: int, time: Time)

  datatype Beat = Beat(time: Time, beatInBar: int)

  const SHORTEST_BEAT_MS := 100.0
  const MOST_BEATS := 100000

  // ----- rounding

  function Floor(x: real): int {
    x.Floor
  }

  function Ceil(x: real): int {
    -((-x).Floor)
  }

  /** C++'s remainder, which takes the sign of the dividend. */
  function TruncatedMod(a: int, b: int): int
    requires b > 0
  {
    if a >= 0 then a % b else -((-a) % b)
  }

  /** 1 to 4, with 1 at every index divisible by four. */
  function BeatInBar(index: int): int {
    TruncatedMod(TruncatedMod(index, 4) + 4, 4) + 1
  }

  /** Negative indices included, the bar counts on without a break. */
  lemma BeatInBarCycles(index: int)
    ensures 1 <= BeatInBar(index) <= 4
    ensures (BeatInBar(index) == 1) == (index % 4 == 0)
    ensures BeatInBar(index + 1) == BeatInBar(index) % 4 + 1
  {
  }

  // ----- the walk as one would write it without thinking of its length

  /** A marker known to be finite. */
  datatype Pin = Pin(index: int, ms: real)

  /** A beat with the grid index it came from. */
  datatype GridBeat = GridBeat(index: int, ms: real)

  /** The length of a beat between two pins. */
  function BeatMs(a: Pin, b: Pin): real
    requires a.index < b.index
  {
    (b.ms - a.ms) / (b.index - a.index) as real
  }

  predicate Accepted(a: Pin, b: Pin) {
    a.index < b.index && BeatMs(a, b) >= SHORTEST_BEAT_MS
  }

  predicate Inside(ms: real, durationMs: real) {
    0.0 <= ms && (durationMs > 0.0 ==> ms <= durationMs)
  }

  function At(a: Pin, beatMs: real, step: int): real {
    a.ms + beatMs * step as real
  }

  /** Every step from 0 up to n, kept where it falls inside the track. */
  function NaiveSteps(a: Pin, beatMs: real, n: nat, durationMs: real): seq<GridBeat> {
    if n == 0 then []
    else NaiveSteps(a, beatMs, n - 1, durationMs) +
         if Inside(At(a, beatMs, n - 1), durationMs) then [GridBeat(a.index + n - 1, At(a, beatMs, n - 1))] else []
  }

  /** The span between two pins: its closing beat belongs to the next span, unless this is the last. */
  function NaiveSpan(a: Pin, b: Pin, isLast: bool, durationMs: real): seq<GridBeat> {
    if !Accepted(a, b) then []
    else NaiveSteps(a, BeatMs(a, b), b.index - a.index + if isLast then 1 else 0, durationMs)
  }

  function NaiveBeats(pins: seq<Pin>, durationMs: real): seq<GridBeat> {
    NaivePrefix(pins, if |pins| == 0 then 0 else |pins| - 1, durationMs)
  }

  /** The beats of the first m spans. */
  function NaivePrefix(pins: seq<Pin>, m: nat, durationMs: real): seq<GridBeat>
    requires m == 0 || m < |pins|
  {
    if m == 0 then []
    else NaivePrefix(pins, m - 1, durationMs) + NaiveSpan(pins[m - 1], pins[m], m + 1 == |pins|, durationMs)
  }

  // ----- the walk as the code does it

  function Shown(g: GridBeat): Beat {
    Beat(Finite(g.ms), BeatInBar(g.index))
  }

  function ShownAll(gs: seq<GridBeat>): (beats: seq<Beat>)
    ensures |beats| == |gs|
  {
    if gs == [] then [] else ShownAll(gs[..|gs| - 1]) + [Shown(gs[|gs| - 1])]
  }

  /** What is returned: every beat the naive walk finds, or nothing at all when they are too many. */
  function Believed(gs: seq<GridBeat>): seq<Beat> {
    if |gs| > MOST_BEATS then [] else ShownAll(gs)
  }

  function FirstStep(a: Pin, beatMs: real): int
    requires beatMs > 0.0
  {
    var bound := Ceil((0.0 - a.ms) / beatMs);
    if 0 < bound then bound else 0
  }

  function LastStep(a: Pin, beatMs: real, last: int, durationMs: real): int
    requires beatMs > 0.0
  {
    if durationMs > 0.0 then
      var bound := Floor((durationMs - a.ms) / beatMs);
      if bound < last then bound else last
    else last
  }

  lemma DivideOut(x: real, y: real, n: int)
    requires y > 0.0
    ensures x / y <= n as real <==> x <= y * n as real
    ensures n as real <= x / y <==> y * n as real <= x
  {
    assert x == (x / y) * y;
    MultiplyOut(y, x / y, n as real);
  }

  lemma MultiplyOut(y: real, q: real, m: real)
    requires y > 0.0
    ensures q <= m <==> y * q <= y * m
    ensures m <= q <==> y * m <= y * q
  {
    if q < m { MulStrict(y, q, m); }
    if m < q { MulStrict(y, m, q); }
  }

  lemma MulStrict(y: real, a: real, b: real)
    requires a < b && y > 0.0
    ensures y * a < y * b
  {
  }

  /** The closed-form bounds name exactly the steps whose beats are inside the track. */
  lemma BoundsAreExact(a: Pin, beatMs: real, last: int, durationMs: real, step: int)
    requires beatMs > 0.0
    ensures FirstStep(a, beatMs) <= step <= LastStep(a, beatMs, last, durationMs) <==>
            0 <= step <= last && Inside(At(a, beatMs, step), durationMs)
  {
    DivideOut(0.0 - a.ms, beatMs, step);
    DivideOut(durationMs - a.ms, beatMs, step);
  }

  /** The steps from lo up to hi, all of them. */
  function StepsBetween(a: Pin, beatMs: real, lo: int, hi: int): (gs: seq<GridBeat>)
    ensures |gs| == if hi <= lo then 0 else hi - lo
    decreases hi - lo
  {
    if hi <= lo then []
    else StepsBetween(a, beatMs, lo, hi - 1) + [GridBeat(a.index + hi - 1, At(a, beatMs, hi - 1))]
  }

  /** Filtering every step leaves one unbroken run of them, the run the bounds name. */
  lemma {:induction false} NaiveStepsAreARun(a: Pin, beatMs: real, n: nat, last: int, durationMs: real)
    requires beatMs > 0.0 && n <= last + 1
    ensures NaiveSteps(a, beatMs, n, durationMs) ==
            StepsBetween(a, beatMs, FirstStep(a, beatMs), Min(n, LastStep(a, beatMs, last, durationMs) + 1))
  {
    if n > 0 {
      NaiveStepsAreARun(a, beatMs, n - 1, last, durationMs);
      BoundsAreExact(a, beatMs, last, durationMs, n - 1);
    }
  }

  lemma {:induction false} ShownAppend(a: seq<GridBeat>, b: seq<GridBeat>)
    ensures ShownAll(a + b) == ShownAll(a) + ShownAll(b)
  {
    if b == [] {
      assert a + b == a;
    } else {
      var init := b[..|b| - 1];
      assert (a + b)[..|a + b| - 1] == a + init;
      ShownAppend(a, init);
    }
  }

  lemma {:induction false} PrefixGrows(pins: seq<Pin>, m: nat, k: nat, durationMs: real)
    requires m <= k && (k == 0 || k < |pins|)
    ensures |NaivePrefix(pins, m, durationMs)| <= |NaivePrefix(pins, k, durationMs)|
  {
    if m < k { PrefixGrows(pins, m, k - 1, durationMs); }
  }

  /** The first and last steps of a span that fall inside the track. */
  method ClipSpan(from: Pin, beatMs: real, span: int, isLast: bool, durationMs: real) returns (first: int, last: int)
    requires beatMs > 0.0
    ensures first == FirstStep(from, beatMs)
    ensures last == LastStep(from, beatMs, if isLast then span else span - 1, durationMs)
  {
    first, last := 0, if isLast then span else span - 1;
    var bound := Ceil((0.0 - from.ms) / beatMs);
    if first < bound {
      first := bound;
    }
    if durationMs > 0.0 {
      bound := Floor((durationMs - from.ms) / beatMs);
      if bound < last {
        last := bound;
      }
    }
  }

  method PushSteps(from: Pin, beatMs: real, first: int, last: int, beats: seq<Beat>) returns (more: seq<Beat>)
    ensures more == beats + ShownAll(StepsBetween(from, beatMs, first, last + 1))
  {
    more := beats;
    var step := first;
    assert beats + ShownAll([]) == beats;
    while step <= last
      invariant first <= step && (step <= last + 1 || step == first)
      invariant more == beats + ShownAll(StepsBetween(from, beatMs, first, step))
      decreases last - step
    {
      ShownNext(from, beatMs, first, step, beats);
      more := more + [Shown(GridBeat(from.index + step, At(from, beatMs, step)))];
      step := step + 1;
    }
  }

  lemma ShownNext(from: Pin, beatMs: real, lo: int, step: int, beats: seq<Beat>)
    requires lo <= step
    ensures beats + ShownAll(StepsBetween(from, beatMs, lo, step + 1)) ==
            beats + ShownAll(StepsBetween(from, beatMs, lo, step)) +
            [Shown(GridBeat(from.index + step, At(from, beatMs, step)))]
  {
    var more := StepsBetween(from, beatMs, lo, step + 1);
    assert more[..|more| - 1] == StepsBetween(from, beatMs, lo, step);
  }

  /** An accepted span is the run its bounds name. */
  lemma SpanIsARun(from: Pin, to: Pin, isLast: bool, durationMs: real)
    requires Accepted(from, to)
    ensures var beatMs, whole := BeatMs(from, to), to.index - from.index - if isLast then 0 else 1;
            NaiveSpan(from, to, isLast, durationMs) ==
            StepsBetween(from, beatMs, FirstStep(from, beatMs), LastStep(from, beatMs, whole, durationMs) + 1)
  {
    var whole := to.index - from.index - if isLast then 0 else 1;
    NaiveStepsAreARun(from, BeatMs(from, to), whole + 1, whole, durationMs);
  }

  /** The beats of some steps, appended; or too many, and nothing is. */
  method WalkSteps(from: Pin, beatMs: real, first: int, last: int, beats: seq<Beat>)
    returns (tooMany: bool, more: seq<Beat>)
    requires |beats| <= MOST_BEATS
    ensures tooMany <==> |beats| + |StepsBetween(from, beatMs, first, last + 1)| > MOST_BEATS
    ensures !tooMany ==> more == beats + ShownAll(StepsBetween(from, beatMs, first, last + 1))
  {
    var room: nat := MOST_BEATS - |beats|;
    if last - first + 1 > room {
      return true, [];
    }
    more := PushSteps(from, beatMs, first, last, beats);
    tooMany := false;
  }

  /** The beats of one accepted span, appended; or too many, and nothing is. */
  method WalkSpan(from: Pin, to: Pin, isLast: bool, durationMs: real, beats: seq<Beat>)
    returns (tooMany: bool, more: seq<Beat>)
    requires Accepted(from, to) && |beats| <= MOST_BEATS
    ensures tooMany <==> |beats| + |NaiveSpan(from, to, isLast, durationMs)| > MOST_BEATS
    ensures !tooMany ==> more == beats + ShownAll(NaiveSpan(from, to, isLast, durationMs))
  {
    var beatMs := BeatMs(from, to);
    var first, last := ClipSpan(from, beatMs, to.index - from.index, isLast, durationMs);
    assert NaiveSpan(from, to, isLast, durationMs) == StepsBetween(from, beatMs, first, last + 1) by {
      SpanIsARun(from, to, isLast, durationMs);
    }
    tooMany, more := WalkSteps(from, beatMs, first, last, beats);
  }

  /** One more span: what it adds. */
  lemma SpanAdds(pins: seq<Pin>, m: nat, durationMs: real)
    requires m + 1 < |pins|
    ensures ShownAll(NaivePrefix(pins, m + 1, durationMs)) ==
            ShownAll(NaivePrefix(pins, m, durationMs)) +
            ShownAll(NaiveSpan(pins[m], pins[m + 1], m + 2 == |pins|, durationMs))
  {
    PrefixNext(pins, m, durationMs);
    ShownAppend(NaivePrefix(pins, m, durationMs), NaiveSpan(pins[m], pins[m + 1], m + 2 == |pins|, durationMs));
  }

  lemma SpanCounts(pins: seq<Pin>, m: nat, durationMs: real)
    requires m + 1 < |pins|
    ensures |NaivePrefix(pins, m, durationMs)| + |NaiveSpan(pins[m], pins[m + 1], m + 2 == |pins|, durationMs)| ==
            |NaivePrefix(pins, m + 1, durationMs)|
  {
    PrefixNext(pins, m, durationMs);
  }

  lemma PrefixIsWithin(pins: seq<Pin>, m: nat, durationMs: real)
    requires m < |pins|
    ensures |NaivePrefix(pins, m, durationMs)| <= |NaiveBeats(pins, durationMs)|
  {
    PrefixGrows(pins, m, |pins| - 1, durationMs);
    PrefixIsWhole(pins, |pins| - 1, durationMs);
  }

  lemma PrefixIsWhole(pins: seq<Pin>, m: nat, durationMs: real)
    requires (m == 0 || m < |pins|) && m + 1 >= |pins|
    ensures NaivePrefix(pins, m, durationMs) == NaiveBeats(pins, durationMs)
  {
  }

  lemma PrefixNext(pins: seq<Pin>, m: nat, durationMs: real)
    requires m + 1 < |pins|
    ensures NaivePrefix(pins, m + 1, durationMs) ==
            NaivePrefix(pins, m, durationMs) + NaiveSpan(pins[m], pins[m + 1], m + 2 == |pins|, durationMs)
  {
  }

  /** The next span, if it is accepted: the beats so far, or too many. */
  method TakeSpan(pins: seq<Pin>, m: nat, durationMs: real, beats: seq<Beat>) returns (tooMany: bool, more: seq<Beat>)
    requires m + 1 < |pins|
    requires beats == ShownAll(NaivePrefix(pins, m, durationMs)) && |beats| <= MOST_BEATS
    ensures tooMany ==> |NaiveBeats(pins, durationMs)| > MOST_BEATS
    ensures !tooMany ==> more == ShownAll(NaivePrefix(pins, m + 1, durationMs)) && |more| <= MOST_BEATS
  {
    SpanAdds(pins, m, durationMs);
    SpanCounts(pins, m, durationMs);
    PrefixIsWithin(pins, m + 1, durationMs);
    tooMany, more := false, beats;
    if Accepted(pins[m], pins[m + 1]) {
      tooMany, more := WalkSpan(pins[m], pins[m + 1], m + 2 == |pins|, durationMs, beats);
    } else {
      assert beats + [] == beats;
    }
  }

  /** A beat at its grid beat's time, its number in the bar one more than the index counted by fours. */
  predicate Shows(beat: Beat, g: GridBeat) {
    beat.time == Finite(g.ms) && 1 <= beat.beatInBar <= 4 && (beat.beatInBar - 1 - g.index) % 4 == 0
  }

  /** Returned for some grid beats: one beat for each, or nothing when they are over a hundred thousand. */
  predicate Returned(beats: seq<Beat>, gs: seq<GridBeat>) {
    if |gs| > 100000 then beats == []
    else |beats| == |gs| && forall i :: 0 <= i < |gs| ==> Shows(beats[i], gs[i])
  }

  lemma BarNumber(index: int)
    ensures 1 <= BeatInBar(index) <= 4 && (BeatInBar(index) - 1 - index) % 4 == 0
  {
    BeatInBarCycles(index);
  }

  lemma ShownShows(gs: seq<GridBeat>, i: nat)
    requires i < |gs|
    ensures Shows(ShownAll(gs)[i], gs[i])
  {
    ShownAt(gs, i);
    BarNumber(gs[i].index);
  }

  lemma BelievedIsReturned(gs: seq<GridBeat>)
    ensures Returned(Believed(gs), gs)
  {
    var beats := Believed(gs);
    if |gs| <= MOST_BEATS {
      forall i | 0 <= i < |gs|
        ensures Shows(beats[i], gs[i])
      {
        ShownShows(gs, i);
      }
    }
  }

  /** The clipped walk returns what the naive one finds, or nothing where that is not believed. */
  method BeatsOfPins(pins: seq<Pin>, durationMs: real) returns (beats: seq<Beat>)
    ensures beats == Believed(NaiveBeats(pins, durationMs)) && Returned(beats, NaiveBeats(pins, durationMs))
  {
    BelievedIsReturned(NaiveBeats(pins, durationMs));
    beats := [];
    var m := 0;
    while m + 1 < |pins|
      invariant 0 <= m && (m == 0 || m < |pins|)
      invariant beats == ShownAll(NaivePrefix(pins, m, durationMs)) && |beats| <= MOST_BEATS
    {
      var tooMany, more := TakeSpan(pins, m, durationMs, beats);
      if tooMany {
        return [];
      }
      beats := more;
      m := m + 1;
    }
    PrefixIsWhole(pins, m, durationMs);
  }

  /** On the straight line between two pins at least 100 ms a beat apart, and inside the track. */
  ghost predicate OnSpan(from: Pin, to: Pin, isLast: bool, g: GridBeat, durationMs: real) {
    && from.index <= g.index && (g.index < to.index || (g.index == to.index && isLast && from.index < to.index))
    && (to.ms - from.ms) / (to.index - from.index) as real >= 100.0
    && g.ms == from.ms + (to.ms - from.ms) / (to.index - from.index) as real * (g.index - from.index) as real
    && 0.0 <= g.ms && (durationMs <= 0.0 || g.ms <= durationMs)
  }

  lemma {:induction false} StepsMean(a: Pin, beatMs: real, n: nat, durationMs: real, g: GridBeat)
    ensures g in NaiveSteps(a, beatMs, n, durationMs) <==>
            && 0 <= g.index - a.index < n
            && g.ms == At(a, beatMs, g.index - a.index) && Inside(g.ms, durationMs)
  {
    if n > 0 { StepsMean(a, beatMs, n - 1, durationMs, g); }
  }

  lemma SpanMeans(a: Pin, b: Pin, isLast: bool, durationMs: real, g: GridBeat)
    ensures g in NaiveSpan(a, b, isLast, durationMs) <==> OnSpan(a, b, isLast, g, durationMs)
  {
    if Accepted(a, b) {
      StepsMean(a, BeatMs(a, b), b.index - a.index + if isLast then 1 else 0, durationMs, g);
    }
  }

  lemma {:induction false} PrefixMeans(pins: seq<Pin>, m: nat, durationMs: real, g: GridBeat)
    requires m == 0 || m < |pins|
    ensures g in NaivePrefix(pins, m, durationMs) <==>
            exists k :: 0 <= k < m && OnSpan(pins[k], pins[k + 1], k + 2 == |pins|, g, durationMs)
  {
    if m > 0 {
      PrefixMeans(pins, m - 1, durationMs, g);
      SpanMeans(pins[m - 1], pins[m], m + 1 == |pins|, durationMs, g);
      assert OnSpan(pins[m - 1], pins[m], m - 1 + 2 == |pins|, g, durationMs) <==>
             OnSpan(pins[m - 1], pins[m - 1 + 1], m + 1 == |pins|, g, durationMs);
    }
  }

  /** The naive beats are the beats of the lines between neighbouring pins, all of them. */
  lemma BeatsLieOnSpans(pins: seq<Pin>, durationMs: real, g: GridBeat)
    ensures g in NaiveBeats(pins, durationMs) <==>
            exists k :: 0 <= k < |pins| - 1 && OnSpan(pins[k], pins[k + 1], k + 2 == |pins|, g, durationMs)
  {
    PrefixMeans(pins, if |pins| == 0 then 0 else |pins| - 1, durationMs, g);
  }

  // ----- dropping what is not a number, and sorting

  function FinitePins(markers: seq<Marker>): seq<Pin> {
    if markers == [] then []
    else
      var last := markers[|markers| - 1];
      FinitePins(markers[..|markers| - 1]) + if last.time.Finite? then [Pin(last.index, last.time.ms)] else []
  }

  predicate SortedByIndex(pins: seq<Pin>) {
    forall i, j :: 0 <= i < j < |pins| ==> pins[i].index <= pins[j].index
  }

  /** A sort may leave pins of one index in either order; this is all it promises. */
  ghost predicate IsOrder(markers: seq<Marker>, pins: seq<Pin>) {
    SortedByIndex(pins) && multiset(pins) == multiset(FinitePins(markers))
  }

  method InsertByIndex(sorted: seq<Pin>, p: Pin) returns (pins: seq<Pin>)
    requires SortedByIndex(sorted)
    ensures SortedByIndex(pins) && multiset(pins) == multiset(sorted) + multiset{p}
  {
    var k := |sorted|;
    while k > 0 && p.index < sorted[k - 1].index
      invariant 0 <= k <= |sorted|
      invariant forall i :: k <= i < |sorted| ==> p.index < sorted[i].index
    {
      k := k - 1;
    }
    InsertAt(sorted, k, p);
    pins := sorted[..k] + [p] + sorted[k..];
    assert forall i :: k < i < |pins| ==> pins[i] == sorted[i - 1];
  }

  method OrderedPins(markers: seq<Marker>) returns (pins: seq<Pin>)
    ensures IsOrder(markers, pins)
  {
    pins := [];
    for i := 0 to |markers|
      invariant IsOrder(markers[..i], pins)
    {
      assert markers[..i + 1][..i] == markers[..i];
      if markers[i].time.Finite? {
        pins := InsertByIndex(pins, Pin(markers[i].index, markers[i].time.ms));
      }
    }
    assert markers[..|markers|] == markers;
  }

  method BeatsFromMarkers(markers: seq<Marker>, durationMs: real) returns (beats: seq<Beat>)
    ensures exists pins :: IsOrder(markers, pins) && beats == Believed(NaiveBeats(pins, durationMs)) &&
                           Returned(beats, NaiveBeats(pins, durationMs))
  {
    var pins := OrderedPins(markers);
    beats := BeatsOfPins(pins, durationMs);
  }

  ghost predicate DistinctIndices(pins: seq<Pin>) {
    forall i, j :: 0 <= i < j < |pins| ==> pins[i].index != pins[j].index
  }

  predicate IndexBefore(a: Pin, b: Pin) {
    a.index < b.index
  }

  lemma {:induction false} FinitePinsCount(markers: seq<Marker>, p: Pin)
    ensures multiset(FinitePins(markers))[p] == multiset(markers)[Marker(p.index, Finite(p.ms))]
  {
    if markers != [] {
      var front := markers[..|markers| - 1];
      FinitePinsCount(front, p);
      assert markers == front + [markers[|markers| - 1]];
    }
  }

  /** With every index given once, the order the markers come in does not matter. */
  lemma MarkerOrderDoesNotMatter(one: seq<Marker>, other: seq<Marker>, p: seq<Pin>, q: seq<Pin>)
    requires multiset(one) == multiset(other) && IsOrder(one, p) && IsOrder(other, q) && DistinctIndices(p)
    ensures p == q
  {
    forall pin: Pin
      ensures multiset(FinitePins(one))[pin] == multiset(FinitePins(other))[pin]
    {
      FinitePinsCount(one, pin);
      FinitePinsCount(other, pin);
    }
    assert multiset(FinitePins(one)) == multiset(FinitePins(other));
    SortIsUnique(IndexBefore, p, q);
  }

  // ----- every index once, and in time

  predicate IndicesRise(gs: seq<GridBeat>) {
    forall i, j :: 0 <= i < j < |gs| ==> gs[i].index < gs[j].index
  }

  predicate TimesRise(gs: seq<GridBeat>) {
    forall i, j :: 0 <= i < j < |gs| ==> gs[i].ms < gs[j].ms
  }

  predicate TimesFollow(pins: seq<Pin>) {
    forall i, j :: 0 <= i < j < |pins| ==> pins[i].ms <= pins[j].ms
  }

  lemma {:induction false} StepsRise(a: Pin, beatMs: real, n: nat, durationMs: real)
    requires beatMs > 0.0
    ensures var gs := NaiveSteps(a, beatMs, n, durationMs);
            && IndicesRise(gs) && TimesRise(gs)
            && forall i :: 0 <= i < |gs| ==>
                 a.index <= gs[i].index < a.index + n && a.ms <= gs[i].ms && Inside(gs[i].ms, durationMs)
                 && gs[i].ms <= At(a, beatMs, n - 1)
  {
    if n > 0 {
      StepsRise(a, beatMs, n - 1, durationMs);
      assert At(a, beatMs, n - 1) == At(a, beatMs, n - 2) + beatMs;
      StepsAhead(a, beatMs, n - 1);
    }
  }

  lemma StepsAhead(a: Pin, beatMs: real, step: nat)
    requires beatMs > 0.0
    ensures At(a, beatMs, step) >= a.ms
  {
  }

  lemma SpanEnds(a: Pin, b: Pin)
    requires Accepted(a, b)
    ensures At(a, BeatMs(a, b), b.index - a.index) == b.ms
  {
  }

  lemma SpanRises(a: Pin, b: Pin, isLast: bool, durationMs: real)
    ensures var gs := NaiveSpan(a, b, isLast, durationMs);
            && IndicesRise(gs) && TimesRise(gs)
            && forall i :: 0 <= i < |gs| ==>
                 && a.index <= gs[i].index && (if isLast then gs[i].index <= b.index else gs[i].index < b.index)
                 && a.ms <= gs[i].ms && (if isLast then gs[i].ms <= b.ms else gs[i].ms < b.ms)
                 && Inside(gs[i].ms, durationMs)
  {
    if Accepted(a, b) {
      var span, beatMs := b.index - a.index, BeatMs(a, b);
      StepsRise(a, beatMs, span + if isLast then 1 else 0, durationMs);
      SpanEnds(a, b);
      assert At(a, beatMs, span - 1) == At(a, beatMs, span) - beatMs;
    }
  }

  lemma {:induction false} PrefixRises(pins: seq<Pin>, m: nat, durationMs: real)
    requires SortedByIndex(pins) && (m == 0 || m < |pins|)
    ensures var gs := NaivePrefix(pins, m, durationMs);
            && IndicesRise(gs)
            && forall i :: 0 <= i < |gs| ==>
                 && Inside(gs[i].ms, durationMs)
                 && (if m + 1 == |pins| then gs[i].index <= pins[m].index else gs[i].index < pins[m].index)
  {
    if m > 0 {
      PrefixRises(pins, m - 1, durationMs);
      SpanRises(pins[m - 1], pins[m], m + 1 == |pins|, durationMs);
      var before := NaivePrefix(pins, m - 1, durationMs);
      var span := NaiveSpan(pins[m - 1], pins[m], m + 1 == |pins|, durationMs);
      assert forall i :: |before| <= i < |before + span| ==> (before + span)[i] == span[i - |before|];
    }
  }

  lemma {:induction false} PrefixTimesRise(pins: seq<Pin>, m: nat, durationMs: real)
    requires TimesFollow(pins) && (m == 0 || m < |pins|)
    ensures var gs := NaivePrefix(pins, m, durationMs);
            && TimesRise(gs)
            && forall i :: 0 <= i < |gs| ==> if m + 1 == |pins| then gs[i].ms <= pins[m].ms else gs[i].ms < pins[m].ms
  {
    if m > 0 {
      PrefixTimesRise(pins, m - 1, durationMs);
      SpanRises(pins[m - 1], pins[m], m + 1 == |pins|, durationMs);
      TimesAppend(NaivePrefix(pins, m - 1, durationMs), NaiveSpan(pins[m - 1], pins[m], m + 1 == |pins|, durationMs),
                  pins[m - 1].ms);
    }
  }

  lemma TimesAppend(a: seq<GridBeat>, b: seq<GridBeat>, mid: real)
    requires TimesRise(a) && TimesRise(b)
    requires (forall i :: 0 <= i < |a| ==> a[i].ms < mid) && forall i :: 0 <= i < |b| ==> mid <= b[i].ms
    ensures TimesRise(a + b)
    ensures forall i :: 0 <= i < |a + b| ==> (a + b)[i] == if i < |a| then a[i] else b[i - |a|]
  {
  }

  /** Every beat is inside the track, each grid index has one at most, and times rise where the pins' do. */
  lemma BeatsRise(pins: seq<Pin>, durationMs: real)
    requires SortedByIndex(pins)
    ensures var gs := NaiveBeats(pins, durationMs);
            && IndicesRise(gs)
            && (TimesFollow(pins) ==> TimesRise(gs))
            && forall i :: 0 <= i < |gs| ==> Inside(gs[i].ms, durationMs)
  {
    var m := if |pins| == 0 then 0 else |pins| - 1;
    PrefixRises(pins, m, durationMs);
    if TimesFollow(pins) { PrefixTimesRise(pins, m, durationMs); }
  }

  // ----- a grid fit to keep time by

  predicate Usable(b: Beat) {
    b.time.Finite? && b.time.ms >= 0.0
  }

  /** Every beat a number, none before the start, each after the one before it. */
  predicate KeepsTime(beats: seq<Beat>) {
    && (forall i :: 0 <= i < |beats| ==> beats[i].time.Finite? && beats[i].time.ms >= 0.0)
    && (forall i :: 0 < i < |beats| ==> beats[i - 1].time.ms < beats[i].time.ms)
  }

  /** The beats left after dropping what breaks the order, front to back. */
  function InOrder(beats: seq<Beat>): (kept: seq<Beat>)
    ensures KeepsTime(kept)
  {
    if beats == [] then []
    else
      var kept, b := InOrder(beats[..|beats| - 1]), beats[|beats| - 1];
      if Usable(b) && (kept == [] || kept[|kept| - 1].time.ms < b.time.ms) then kept + [b] else kept
  }

  method BeatsInOrder(beats: seq<Beat>) returns (kept: seq<Beat>)
    ensures kept == InOrder(beats)
  {
    kept := [];
    for i := 0 to |beats|
      invariant kept == InOrder(beats[..i])
    {
      var beat := beats[i];
      assert beats[..i + 1][..i] == beats[..i];
      if beat.time.NotFinite? || beat.time.ms < 0.0 || (kept != [] && beat.time.ms <= kept[|kept| - 1].time.ms) {
        continue;
      }
      kept := kept + [beat];
    }
    assert beats[..|beats|] == beats;
  }

  /** A grid that already keeps time is left alone, and no other is. */
  lemma {:induction false} InOrderFixpoints(beats: seq<Beat>)
    ensures InOrder(beats) == beats <==> KeepsTime(beats)
  {
    if beats != [] {
      var front := beats[..|beats| - 1];
      InOrderFixpoints(front);
      assert beats == front + [beats[|beats| - 1]];
      if KeepsTime(beats) {
        assert KeepsTime(front);
      }
    }
  }

  /** Each beat is kept, unusable, or not after the latest kept before it; and what is kept stays kept. */
  lemma {:induction false} InOrderDropsOnly(beats: seq<Beat>, i: nat)
    requires i < |beats|
    ensures var kept := InOrder(beats[..i]);
            var time := beats[i].time;
            var follows := time.Finite? && time.ms >= 0.0 && (kept == [] || kept[|kept| - 1].time.ms < time.ms);
            && InOrder(beats[..i + 1]) == (if follows then kept + [beats[i]] else kept)
            && InOrder(beats[..i + 1]) <= InOrder(beats)
  {
    assert beats[..i + 1][..i] == beats[..i];
    InOrderGrows(beats, i + 1);
  }

  lemma {:induction false} InOrderGrows(beats: seq<Beat>, n: nat)
    requires n <= |beats|
    ensures InOrder(beats[..n]) <= InOrder(beats)
    decreases |beats|
  {
    if n == |beats| {
      assert beats[..n] == beats;
    } else {
      var front := beats[..|beats| - 1];
      InOrderGrows(front, n);
      assert front[..n] == beats[..n];
    }
  }

  lemma {:induction false} ShownAt(gs: seq<GridBeat>, i: nat)
    requires i < |gs|
    ensures ShownAll(gs)[i] == Shown(gs[i])
  {
    if i < |gs| - 1 { ShownAt(gs[..|gs| - 1], i); }
  }

  /** What the markers of a sound file yield is fit to keep time by as it stands. */
  lemma MarkersKeepTime(pins: seq<Pin>, durationMs: real)
    requires SortedByIndex(pins) && TimesFollow(pins)
    ensures InOrder(Believed(NaiveBeats(pins, durationMs))) == Believed(NaiveBeats(pins, durationMs))
  {
    var gs := NaiveBeats(pins, durationMs);
    BeatsRise(pins, durationMs);
    forall i | 0 <= i < |gs|
      ensures ShownAll(gs)[i] == Shown(gs[i])
    {
      ShownAt(gs, i);
    }
    InOrderFixpoints(Believed(gs));
  }

  // ----- jumping by beats

  predicate Ascending(grid: seq<real>) {
    forall i, j :: 0 <= i < j < |grid| ==> grid[i] <= grid[j]
  }

  predicate Strict(grid: seq<real>) {
    forall i, j :: 0 <= i < j < |grid| ==> grid[i] < grid[j]
  }

  /** The index of the first beat after a position: what std::upper_bound finds. */
  function After(grid: seq<real>, pos: real): (n: nat)
    ensures n <= |grid|
    ensures forall i :: 0 <= i < n ==> grid[i] <= pos
    ensures n < |grid| ==> pos < grid[n]
  {
    if grid == [] || pos < grid[0] then 0
    else
      var n := 1 + After(grid[1..], pos);
      assert forall i :: 1 <= i < n ==> grid[i] == grid[1..][i - 1];
      n
  }

  method UpperBound(grid: seq<real>, pos: real) returns (n: nat)
    requires Ascending(grid)
    ensures n == After(grid, pos)
  {
    var lo, hi := 0, |grid|;
    while lo < hi
      invariant 0 <= lo <= hi <= |grid|
      invariant forall i :: 0 <= i < lo ==> grid[i] <= pos
      invariant forall i :: hi <= i < |grid| ==> pos < grid[i]
    {
      var mid := (lo + hi) / 2;
      if pos < grid[mid] {
        hi := mid;
      } else {
        lo := mid + 1;
      }
    }
    n := lo;
    AfterIs(grid, pos, n);
  }

  lemma {:induction false} AfterIs(grid: seq<real>, pos: real, n: nat)
    requires n <= |grid| && (forall i :: 0 <= i < n ==> grid[i] <= pos) && (n < |grid| ==> pos < grid[n])
    ensures After(grid, pos) == n
  {
    if n > 0 { AfterIs(grid[1..], pos, n - 1); }
  }

  lemma {:induction false} AfterAtLeast(grid: seq<real>, pos: real, k: nat)
    requires Ascending(grid) && k < |grid| && grid[k] <= pos
    ensures After(grid, pos) > k
  {
    assert grid[0] <= grid[k];
    if k > 0 { AfterAtLeast(grid[1..], pos, k - 1); }
  }

  function Clamp(x: int, lo: int, hi: int): int {
    if x < lo then lo else if hi < x then hi else x
  }

  predicate OnGrid(grid: seq<real>, pos: real) {
    |grid| > 1 && grid[0] <= pos <= grid[|grid| - 1]
  }

  /** Where a jump lands before the track's bounds are applied. */
  function Target(grid: seq<real>, pos: real, beats: int): real {
    if OnGrid(grid, pos) then
      var here := After(grid, pos) - 1;
      grid[Clamp(here + beats, 0, |grid| - 1)] + (pos - grid[here])
    else pos + beats as real * 625.0
  }

  function Bounded(target: real, durationMs: real): real {
    var t := if durationMs > 0.0 && durationMs - 1.0 < target then durationMs - 1.0 else target;
    if 0.0 < t then t else 0.0
  }

  function Skip(grid: seq<real>, pos: real, beats: int, durationMs: real): real {
    Bounded(Target(grid, pos, beats), durationMs)
  }

  method PositionAfterSkippingBeats(grid: seq<real>, pos: real, beats: int, durationMs: real) returns (target: real)
    requires Ascending(grid)
    ensures target == Skip(grid, pos, beats, durationMs)
  {
    target := pos + beats as real * 625.0;
    if |grid| > 1 && pos >= grid[0] && pos <= grid[|grid| - 1] {
      var after := UpperBound(grid, pos);
      var here := after - 1;
      var there := Clamp(here + beats, 0, |grid| - 1);
      target := grid[there] + (pos - grid[here]);
    }
    if durationMs > 0.0 && durationMs - 1.0 < target {
      target := durationMs - 1.0;
    }
    if target < 0.0 {
      target := 0.0;
    }
  }

  /** A jump from inside a beat lands as far into the beat it reaches, or into the grid's first or last. */
  lemma JumpLands(grid: seq<real>, pos: real, beats: int, here: nat)
    requires Strict(grid) && |grid| > 1 && here < |grid|
    requires grid[here] <= pos && (if here + 1 < |grid| then pos < grid[here + 1] else pos == grid[here])
    ensures Target(grid, pos, beats) - (pos - grid[here]) ==
            if here + beats < 0 then grid[0]
            else if here + beats >= |grid| then grid[|grid| - 1]
            else grid[here + beats]
  {
    HereIs(grid, pos, here);
    assert grid[0] <= grid[here] && (here + 1 < |grid| ==> grid[here + 1] <= grid[|grid| - 1]);
  }

  /** Never before the start, nor within a millisecond of the end of a track at least that long. */
  lemma SkipStaysInside(grid: seq<real>, pos: real, beats: int, durationMs: real)
    ensures 0.0 <= Skip(grid, pos, beats, durationMs)
    ensures durationMs >= 1.0 ==> Skip(grid, pos, beats, durationMs) <= durationMs - 1.0
  {
  }

  /** A position a jump may return: not negative, nor past the last millisecond of a track that has one. */
  predicate Allowed(pos: real, durationMs: real) {
    0.0 <= pos && (durationMs >= 1.0 ==> pos <= durationMs - 1.0)
  }

  function Distance(a: real, b: real): real {
    if a < b then b - a else a - b
  }

  /** Of the positions allowed, the one nearest to where the jump would land; 0 in a track under a millisecond. */
  lemma SkipIsNearest(grid: seq<real>, pos: real, beats: int, durationMs: real, other: real)
    requires Allowed(other, durationMs)
    ensures var target, skip := Target(grid, pos, beats), Skip(grid, pos, beats, durationMs);
            && Allowed(skip, durationMs)
            && (0.0 < durationMs < 1.0 ==> skip == 0.0)
            && (durationMs <= 0.0 || durationMs >= 1.0 ==> Distance(skip, target) <= Distance(other, target))
  {
  }

  /** Off the grid a beat is taken to be 625 ms long. */
  lemma OffTheGrid(grid: seq<real>, pos: real, beats: int)
    requires |grid| <= 1 || pos < grid[0] || grid[|grid| - 1] < pos
    ensures Target(grid, pos, beats) - pos == 625.0 * beats as real
  {
  }

  /** The beat a position on the grid is in. */
  function Here(grid: seq<real>, pos: real): int {
    After(grid, pos) - 1
  }

  lemma HereIs(grid: seq<real>, pos: real, k: int)
    requires Strict(grid) && 0 <= k < |grid| && grid[k] <= pos && (k + 1 < |grid| ==> pos < grid[k + 1])
    ensures Here(grid, pos) == k
  {
    assert forall i :: 0 <= i < k ==> grid[i] < grid[k];
    AfterIs(grid, pos, k + 1);
  }

  predicate Unclamped(grid: seq<real>, pos: real, beats: int) {
    OnGrid(grid, pos) && 0 <= Here(grid, pos) + beats < |grid|
  }

  /** The jump arrives on the grid inside the beat it aimed for. */
  predicate Fits(grid: seq<real>, pos: real, beats: int)
    requires Unclamped(grid, pos, beats)
  {
    var there, into := Here(grid, pos) + beats, pos - grid[Here(grid, pos)];
    if there + 1 < |grid| then into < grid[there + 1] - grid[there] else into == 0.0
  }

  /** The jump runs off the end of the grid, but its beats happen to be of the length assumed there. */
  predicate OvershootsEvenly(grid: seq<real>, pos: real, beats: int)
    requires Unclamped(grid, pos, beats)
  {
    var here := Here(grid, pos);
    && Target(grid, pos, beats) > grid[|grid| - 1]
    && grid[here + beats] - grid[here] == beats as real * 625.0
  }

  /** An unclamped jump lands as far into its arrival beat as it left its own. */
  lemma SkipKeepsPhase(grid: seq<real>, pos: real, beats: int)
    requires Strict(grid) && Unclamped(grid, pos, beats)
    ensures var here := Here(grid, pos); var target := Target(grid, pos, beats);
            && target - grid[here + beats] == pos - grid[here] >= 0.0
            && (Fits(grid, pos, beats) ==> OnGrid(grid, target) && Here(grid, target) == here + beats)
  {
    var here, target := Here(grid, pos), Target(grid, pos, beats);
    assert here >= 0;
    if Fits(grid, pos, beats) {
      HereIs(grid, target, here + beats);
    }
  }

  /** A jump back lands where the jump began exactly when it fits its arrival beat, or overshoots evenly. */
  lemma SkipUndoesItself(grid: seq<real>, pos: real, beats: int)
    requires Strict(grid) && Unclamped(grid, pos, beats)
    ensures Target(grid, Target(grid, pos, beats), -beats) == pos <==>
            Fits(grid, pos, beats) || OvershootsEvenly(grid, pos, beats)
  {
    var here, target := Here(grid, pos), Target(grid, pos, beats);
    var there := here + beats;
    SkipKeepsPhase(grid, pos, beats);
    if OnGrid(grid, target) && !Fits(grid, pos, beats) {
      LandsFurther(grid, pos, beats);
    }
  }

  /** A jump that does not fit lands in a later beat, and the way back from there is to a later place. */
  lemma LandsFurther(grid: seq<real>, pos: real, beats: int)
    requires Strict(grid) && Unclamped(grid, pos, beats) && !Fits(grid, pos, beats)
    requires OnGrid(grid, Target(grid, pos, beats))
    ensures Target(grid, Target(grid, pos, beats), -beats) != pos
  {
    var here, target := Here(grid, pos), Target(grid, pos, beats);
    var far := Here(grid, target);
    FarEnough(grid, pos, beats);
    var back := Clamp(far - beats, 0, |grid| - 1);
    assert pos < grid[here + 1] <= grid[back];
    assert Target(grid, target, -beats) == grid[back] + (target - grid[far]);
  }

  lemma FarEnough(grid: seq<real>, pos: real, beats: int)
    requires Strict(grid) && Unclamped(grid, pos, beats) && !Fits(grid, pos, beats)
    requires OnGrid(grid, Target(grid, pos, beats))
    ensures Here(grid, Target(grid, pos, beats)) - beats > Here(grid, pos)
    ensures Here(grid, pos) + 1 < |grid|
  {
    var here, target := Here(grid, pos), Target(grid, pos, beats);
    var there := here + beats;
    assert target == grid[there] + (pos - grid[here]) && grid[here] <= pos;
    assert there + 1 < |grid|;
    AfterAtLeast(grid, target, there + 1);
  }

  /**
   So of the position returned: from inside the track, and where the track's bounds do not bind the
   jump, the jump back returns to the start under the same condition and no other.
   */
  lemma SkipThereAndBack(grid: seq<real>, pos: real, beats: int, durationMs: real)
    requires Strict(grid) && Unclamped(grid, pos, beats)
    requires 0.0 < pos && (durationMs > 0.0 ==> pos < durationMs - 1.0)
    requires Bounded(Target(grid, pos, beats), durationMs) == Target(grid, pos, beats)
    ensures Skip(grid, Skip(grid, pos, beats, durationMs), -beats, durationMs) == pos <==>
            Fits(grid, pos, beats) || OvershootsEvenly(grid, pos, beats)
  {
    SkipUndoesItself(grid, pos, beats);
  }

  /** From 400 ms into a beat of 500, a jump to a beat of 100 lands past it at 900, and the jump back at 800. */
  lemma LongBeatIntoShort()
    ensures var grid := [0.0, 500.0, 600.0, 1100.0];
            && Strict(grid) && Unclamped(grid, 400.0, 1)
            && Skip(grid, 400.0, 1, 0.0) == 900.0 && Skip(grid, 900.0, -1, 0.0) == 800.0
  {
    var grid := [0.0, 500.0, 600.0, 1100.0];
    HereIs(grid, 400.0, 0);
    HereIs(grid, 900.0, 2);
  }
}
