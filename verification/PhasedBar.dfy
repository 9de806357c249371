/**
 One operation, one bar: the `PhasedProgress` class of phased_progress.cpp, which folds the
 stretches of work a caller announces onto one underlying progress reporter.

 Bar is the class's state as a value and Apply what one call does to it; the class is proved to
 do exactly that, and the properties are proved of every run of calls.
 */
module PhasedBar {
  import opened Arithmetic
  import opened Sequences

  /** What the underlying reporter is told. */
  datatype Event =
    | Started(name: string, total: nat)
    | Ticked(at: nat)
    | Phased(name: string)
    | Warned(message: string)
    | Finished

  datatype Call =
    | Start(name: string, total: nat)
    | Tick(current: nat)
    | Finish
    | Warn(message: string)
    | Phase(name: string)
    | Done

  datatype Bar = Bar(planned: nat, offset: nat, stretchTotal: nat, inStretch: bool,
                     position: nat, reported: nat, isDone: bool, endsOperation: bool)

  /** A bar after some calls, and what it told the underlying reporter meanwhile. */
  datatype Outcome = Outcome(bar: Bar, told: seq<Event>)

  /** How far a stretch moves the bar: its own count, or one unit when it has none. */
  function Units(total: nat): nat {
    if total == 0 then 1 else total
  }

  function Reporting(b: Bar, at: nat): Outcome {
    if b.planned == 0 || Min(at, b.planned) <= b.reported then Outcome(b, [])
    else Outcome(b.(reported := Min(at, b.planned)), [Ticked(Min(at, b.planned))])
  }

  function StretchEnded(b: Bar): Outcome {
    if !b.inStretch then Outcome(b, [])
    else
      var to := b.offset + Units(b.stretchTotal);
      Reporting(b.(position := to, inStretch := false), to)
  }

  function Create(name: string, planned: nat, startAt: nat, announce: bool, ends: bool): Outcome {
    var blank := Bar(planned, startAt, 0, false, startAt, 0, false, ends);
    var begun := if startAt > 0 then Reporting(blank, startAt) else Outcome(blank, []);
    Outcome(begun.bar, (if announce && planned > 0 then [Started(name, planned)] else []) + begun.told)
  }

  function Apply(b: Bar, c: Call): Outcome {
    match c
    case Start(name, total) =>
      if b.planned == 0 then Outcome(b, [Started(name, total)])
      else
        var ended := StretchEnded(b);
        var begun := ended.bar.(offset := ended.bar.position, stretchTotal := total, inStretch := true);
        var told := Reporting(begun, begun.offset);
        Outcome(told.bar, ended.told + [Phased(name)] + told.told)
    case Tick(current) =>
      if b.planned == 0 then Outcome(b, [Ticked(current)])
      else if !b.inStretch || b.stretchTotal == 0 then Outcome(b, [])
      else
        var to := b.offset + Min(current, b.stretchTotal);
        Reporting(b.(position := to), to)
    case Finish => StretchEnded(b)
    case Warn(message) => Outcome(b, [Warned(message)])
    case Phase(name) => Outcome(b, [Phased(name)])
    case Done =>
      if b.isDone then Outcome(b, [])
      else
        var ended := StretchEnded(b);
        var over := ended.bar.(isDone := true);
        var last := if over.planned > 0 && over.endsOperation
                    then Reporting(over.(position := over.planned), over.planned)
                    else Outcome(over, []);
        Outcome(last.bar, ended.told + last.told + [Finished])
  }

  function Run(b: Bar, calls: seq<Call>): Outcome
    decreases |calls|
  {
    if calls == [] then Outcome(b, [])
    else
      var first := Apply(b, calls[0]);
      var rest := Run(first.bar, calls[1..]);
      Outcome(rest.bar, first.told + rest.told)
  }

  // ----- the class

  /** The port the bar is shown through, with everything it was told. */
  class Reporter {
    ghost var trace: seq<Event>

    constructor ()
      ensures trace == []
    {
      trace := [];
    }

    method Tell(e: Event)
      modifies this
      ensures trace == old(trace) + [e]
    {
      trace := trace + [e];
    }
  }

  class PhasedProgress {
    const underlying: Reporter
    const planned: nat
    const endsOperation: bool
    var offset: nat
    var stretchTotal: nat
    var inStretch: bool
    var position: nat
    var reported: nat
    var isDone: bool

    function State(): Bar
      reads this
    {
      Bar(planned, offset, stretchTotal, inStretch, position, reported, isDone, endsOperation)
    }

    constructor (reporter: Reporter, name: string, plan: nat, startAt: nat, announce: bool, ends: bool)
      modifies reporter
      ensures underlying == reporter
      ensures State() == Create(name, plan, startAt, announce, ends).bar
      ensures reporter.trace == old(reporter.trace) + Create(name, plan, startAt, announce, ends).told
    {
      underlying, planned, endsOperation := reporter, plan, ends;
      offset, position := startAt, startAt;
      stretchTotal, reported := 0, 0;
      inStretch, isDone := false, false;
      new;
      if announce && plan > 0 {
        underlying.Tell(Started(name, plan));
      }
      if startAt > 0 {
        Report(startAt);
      }
    }

    method Report(at: nat)
      modifies this`reported, underlying
      ensures State() == Reporting(old(State()), at).bar
      ensures underlying.trace == old(underlying.trace) + Reporting(old(State()), at).told
    {
      if planned == 0 {
        return;
      }
      var clamped := Min(at, planned);
      if clamped <= reported {
        return;
      }
      reported := clamped;
      underlying.Tell(Ticked(clamped));
    }

    method EndStretch()
      modifies this, underlying
      ensures State() == StretchEnded(old(State())).bar
      ensures underlying.trace == old(underlying.trace) + StretchEnded(old(State())).told
    {
      if !inStretch {
        return;
      }
      position := offset + if stretchTotal == 0 then 1 else stretchTotal;
      inStretch := false;
      Report(position);
    }

    method Start(name: string, total: nat)
      modifies this, underlying
      ensures State() == Apply(old(State()), Call.Start(name, total)).bar
      ensures underlying.trace == old(underlying.trace) + Apply(old(State()), Call.Start(name, total)).told
    {
      if planned == 0 {
        underlying.Tell(Started(name, total));
        return;
      }
      EndStretch();
      offset := position;
      stretchTotal := total;
      inStretch := true;
      underlying.Tell(Phased(name));
      Report(offset);
    }

    method Tick(current: nat)
      modifies this, underlying
      ensures State() == Apply(old(State()), Call.Tick(current)).bar
      ensures underlying.trace == old(underlying.trace) + Apply(old(State()), Call.Tick(current)).told
    {
      if planned == 0 {
        underlying.Tell(Ticked(current));
        return;
      }
      if !inStretch || stretchTotal == 0 {
        return;
      }
      position := offset + Min(current, stretchTotal);
      Report(position);
    }

    method Finish()
      modifies this, underlying
      ensures State() == Apply(old(State()), Call.Finish).bar
      ensures underlying.trace == old(underlying.trace) + Apply(old(State()), Call.Finish).told
    {
      EndStretch();
    }

    method Warn(message: string)
      modifies underlying
      ensures State() == Apply(old(State()), Call.Warn(message)).bar
      ensures underlying.trace == old(underlying.trace) + Apply(old(State()), Call.Warn(message)).told
    {
      underlying.Tell(Warned(message));
    }

    method Phase(name: string)
      modifies underlying
      ensures State() == Apply(old(State()), Call.Phase(name)).bar
      ensures underlying.trace == old(underlying.trace) + Apply(old(State()), Call.Phase(name)).told
    {
      underlying.Tell(Phased(name));
    }

    method Done()
      modifies this, underlying
      ensures State() == Apply(old(State()), Call.Done).bar
      ensures underlying.trace == old(underlying.trace) + Apply(old(State()), Call.Done).told
    {
      if isDone {
        return;
      }
      EndStretch();
      isDone := true;
      if planned > 0 && endsOperation {
        position := planned;
        Report(position);
      }
      underlying.Tell(Finished);
    }
  }

  // ----- ticks only ever go forward

  /** The positions ticked, in order. */
  function Ticks(trace: seq<Event>): seq<nat> {
    if trace == [] then []
    else (if trace[0].Ticked? then [trace[0].at] else []) + Ticks(trace[1..])
  }

  predicate Climbs(low: nat, ticks: seq<nat>)
    decreases |ticks|
  {
    ticks == [] || (low < ticks[0] && Climbs(ticks[0], ticks[1..]))
  }

  function LastOr(low: nat, ticks: seq<nat>): nat {
    if ticks == [] then low else ticks[|ticks| - 1]
  }

  lemma {:induction false} TicksAppend(a: seq<Event>, b: seq<Event>)
    ensures Ticks(a + b) == Ticks(a) + Ticks(b)
  {
    if a == [] {
      assert a + b == b;
    } else {
      var head := if a[0].Ticked? then [a[0].at] else [];
      assert (a + b)[1..] == a[1..] + b;
      TicksAppend(a[1..], b);
      assert head + (Ticks(a[1..]) + Ticks(b)) == head + Ticks(a[1..]) + Ticks(b);
    }
  }

  lemma {:induction false} ClimbsAppend(low: nat, a: seq<nat>, b: seq<nat>)
    requires Climbs(low, a) && Climbs(LastOr(low, a), b)
    ensures Climbs(low, a + b) && LastOr(low, a + b) == LastOr(LastOr(low, a), b)
    decreases |a|
  {
    if a == [] {
      assert a + b == b;
    } else {
      assert (a + b)[1..] == a[1..] + b;
      ClimbsAppend(a[0], a[1..], b);
    }
  }

  /** The ticks of an outcome climb from what was reported before to what is reported after, within the plan. */
  ghost predicate Forward(b: Bar, o: Outcome) {
    && Climbs(b.reported, Ticks(o.told))
    && o.bar.reported == LastOr(b.reported, Ticks(o.told))
    && o.bar.planned == b.planned
    && o.bar.endsOperation == b.endsOperation
    && o.bar.reported <= b.planned
  }

  lemma ForwardJoins(b: Bar, o1: Outcome, b2: Bar, o2: Outcome, between: seq<Event>)
    requires Forward(b, o1) && Forward(b2, o2) && Ticks(between) == []
    requires b2.reported == o1.bar.reported && b2.planned == b.planned && b2.endsOperation == b.endsOperation
    ensures Forward(b, Outcome(o2.bar, o1.told + between + o2.told))
  {
    TicksAppend(o1.told + between, o2.told);
    TicksAppend(o1.told, between);
    assert Ticks(o1.told) + [] == Ticks(o1.told);
    ClimbsAppend(b.reported, Ticks(o1.told), Ticks(o2.told));
  }

  lemma ReportForward(b: Bar, at: nat)
    requires b.reported <= b.planned
    ensures Forward(b, Reporting(b, at))
  {
    assert Reporting(b, at).told == [] || Reporting(b, at).told[1..] == [];
  }

  lemma EndStretchForward(b: Bar)
    requires b.reported <= b.planned
    ensures Forward(b, StretchEnded(b))
  {
    if b.inStretch {
      var to := b.offset + Units(b.stretchTotal);
      ReportForward(b.(position := to, inStretch := false), to);
    }
  }

  lemma StartForward(b: Bar, name: string, total: nat)
    requires b.planned > 0 && b.reported <= b.planned
    ensures Forward(b, Apply(b, Start(name, total)))
  {
    EndStretchForward(b);
    var ended := StretchEnded(b);
    var begun := ended.bar.(offset := ended.bar.position, stretchTotal := total, inStretch := true);
    ReportForward(begun, begun.offset);
    assert [Phased(name)][1..] == [];
    ForwardJoins(b, ended, begun, Reporting(begun, begun.offset), [Phased(name)]);
  }

  lemma DoneForward(b: Bar)
    requires b.planned > 0 && b.reported <= b.planned && !b.isDone
    ensures Forward(b, Apply(b, Done))
  {
    EndStretchForward(b);
    var ended := StretchEnded(b);
    var over := ended.bar.(isDone := true);
    var end := over.(position := over.planned);
    var last := if over.endsOperation then Reporting(end, over.planned) else Outcome(over, []);
    ReportForward(end, over.planned);
    ForwardJoins(b, ended, if over.endsOperation then end else over, last, []);
    assert ended.told + [] + last.told == ended.told + last.told;
    assert [Finished][1..] == [];
    ForwardJoins(b, Outcome(last.bar, ended.told + last.told), last.bar, Outcome(last.bar, []), [Finished]);
    assert ended.told + last.told + [Finished] + [] == ended.told + last.told + [Finished];
  }

  lemma ApplyForward(b: Bar, c: Call)
    requires b.planned > 0 && b.reported <= b.planned
    ensures Forward(b, Apply(b, c))
  {
    match c
    case Start(name, total) =>
      StartForward(b, name, total);
    case Tick(current) =>
      var to := b.offset + Min(current, b.stretchTotal);
      ReportForward(b.(position := to), to);
    case Finish =>
      EndStretchForward(b);
    case Warn(message) =>
      assert [Warned(message)][1..] == [];
    case Phase(name) =>
      assert [Phased(name)][1..] == [];
    case Done =>
      if !b.isDone { DoneForward(b); }
  }

  lemma {:induction false} RunForward(b: Bar, calls: seq<Call>)
    requires b.planned > 0 && b.reported <= b.planned
    ensures Forward(b, Run(b, calls))
    decreases |calls|
  {
    if calls != [] {
      var first := Apply(b, calls[0]);
      ApplyForward(b, calls[0]);
      RunForward(first.bar, calls[1..]);
      ForwardJoins(b, first, first.bar, Run(first.bar, calls[1..]), []);
      assert first.told + [] == first.told;
    }
  }

  /** A whole life: created, then called any number of times in any order. */
  function Life(name: string, planned: nat, startAt: nat, announce: bool, ends: bool, calls: seq<Call>): Outcome {
    var born := Create(name, planned, startAt, announce, ends);
    var lived := Run(born.bar, calls);
    Outcome(lived.bar, born.told + lived.told)
  }

  lemma CreateForward(name: string, planned: nat, startAt: nat, announce: bool, ends: bool)
    requires planned > 0
    ensures var born := Create(name, planned, startAt, announce, ends);
            && Climbs(0, Ticks(born.told)) && LastOr(0, Ticks(born.told)) == born.bar.reported <= planned
            && born.bar.reported == Min(startAt, planned) && born.bar.planned == planned
  {
    var blank := Bar(planned, startAt, 0, false, startAt, 0, false, ends);
    var begun := if startAt > 0 then Reporting(blank, startAt) else Outcome(blank, []);
    ReportForward(blank, startAt);
    var heads := if announce && planned > 0 then [Started(name, planned)] else [];
    assert Ticks(heads) == [] by { if heads != [] { assert heads[1..] == []; } }
    TicksAppend(heads, begun.told);
    assert begun.told != [] ==> begun.told[1..] == [];
  }

  /** Over every sequence of calls, the ticks forwarded strictly increase and stay within the plan. */
  lemma TicksClimbWithinPlan(name: string, planned: nat, startAt: nat, announce: bool, ends: bool, calls: seq<Call>)
    requires planned > 0
    ensures var life := Life(name, planned, startAt, announce, ends, calls);
            && Climbs(0, Ticks(life.told))
            && LastOr(0, Ticks(life.told)) == life.bar.reported <= planned
  {
    var born := Create(name, planned, startAt, announce, ends);
    CreateForward(name, planned, startAt, announce, ends);
    RunForward(born.bar, calls);
    var lived := Run(born.bar, calls);
    TicksAppend(born.told, lived.told);
    ClimbsAppend(0, Ticks(born.told), Ticks(lived.told));
  }

  // ----- announcing and finishing

  function Count(trace: seq<Event>, p: Event -> bool): nat {
    if trace == [] then 0 else (if p(trace[0]) then 1 else 0) + Count(trace[1..], p)
  }

  lemma {:induction false} CountAppend(a: seq<Event>, b: seq<Event>, p: Event -> bool)
    ensures Count(a + b, p) == Count(a, p) + Count(b, p)
  {
    if a == [] {
      assert a + b == b;
    } else {
      assert (a + b)[1..] == a[1..] + b;
      CountAppend(a[1..], b, p);
    }
  }

  /** A trace without its ticks. */
  function Words(trace: seq<Event>): seq<Event> {
    if trace == [] then []
    else (if trace[0].Ticked? then [] else [trace[0]]) + Words(trace[1..])
  }

  lemma {:induction false} WordsAppend(a: seq<Event>, b: seq<Event>)
    ensures Words(a + b) == Words(a) + Words(b)
  {
    if a == [] {
      assert a + b == b;
    } else {
      assert (a + b)[1..] == a[1..] + b;
      WordsAppend(a[1..], b);
      Associate(if a[0].Ticked? then [] else [a[0]], Words(a[1..]), Words(b));
    }
  }

  lemma {:induction false} CountWords(trace: seq<Event>, p: Event -> bool)
    requires forall n: nat :: !p(Ticked(n))
    ensures Count(trace, p) == Count(Words(trace), p)
  {
    if trace != [] {
      CountWords(trace[1..], p);
      var one := if trace[0].Ticked? then [] else [trace[0]];
      CountAppend(one, Words(trace[1..]), p);
      assert one != [] ==> one[1..] == [];
    }
  }

  /** Reporting and ending a stretch send ticks and nothing else. */
  lemma OnlyTicks(b: Bar, at: nat)
    ensures Words(Reporting(b, at).told) == [] && Words(StretchEnded(b).told) == []
  {
    assert Reporting(b, at).told != [] ==> Reporting(b, at).told[1..] == [];
    assert StretchEnded(b).told != [] ==> StretchEnded(b).told[1..] == [];
  }

  /** The one event, ticks aside, that a call on a counted bar sends. */
  function Sent(isDone: bool, c: Call): seq<Event> {
    match c
    case Start(name, total) => [Phased(name)]
    case Tick(current) => []
    case Finish => []
    case Warn(message) => [Warned(message)]
    case Phase(name) => [Phased(name)]
    case Done => if isDone then [] else [Finished]
  }

  lemma StartWords(b: Bar, title: string, total: nat)
    requires b.planned > 0
    ensures Words(Apply(b, Start(title, total)).told) == [Phased(title)]
  {
    var ended := StretchEnded(b);
    var begun := ended.bar.(offset := ended.bar.position, stretchTotal := total, inStretch := true);
    OnlyTicks(b, 0);
    OnlyTicks(begun, begun.offset);
    WordsBetween(ended.told, Phased(title), Reporting(begun, begun.offset).told);
  }

  lemma DoneWords(b: Bar)
    requires b.planned > 0 && !b.isDone
    ensures Words(Apply(b, Done).told) == [Finished]
  {
    var ended := StretchEnded(b);
    var end := ended.bar.(isDone := true, position := b.planned);
    OnlyTicks(b, 0);
    OnlyTicks(end, b.planned);
    var last := if b.endsOperation then Reporting(end, b.planned).told else [];
    WordsAppend(ended.told, last);
    WordsBetween(ended.told + last, Finished, []);
    assert ended.told + last + [Finished] + [] == ended.told + last + [Finished];
  }

  lemma ApplyWords(b: Bar, c: Call)
    requires b.planned > 0
    ensures Words(Apply(b, c).told) == Sent(b.isDone, c)
  {
    match c
    case Start(title, total) => StartWords(b, title, total);
    case Tick(current) =>
      var to := b.offset + Min(current, b.stretchTotal);
      OnlyTicks(b.(position := to), to);
    case Finish => OnlyTicks(b, 0);
    case Warn(message) => assert [Warned(message)][1..] == [];
    case Phase(title) => assert [Phased(title)][1..] == [];
    case Done => if !b.isDone { DoneWords(b); }
  }

  lemma WordsBetween(front: seq<Event>, e: Event, rest: seq<Event>)
    requires !e.Ticked? && Words(front) == [] && Words(rest) == []
    ensures Words(front + [e] + rest) == [e]
  {
    WordsAppend(front + [e], rest);
    WordsAppend(front, [e]);
    assert [e][1..] == [];
  }

  /** What a run of calls sends for its own sake, stretches and ticks aside. */
  function AllSent(isDone: bool, calls: seq<Call>): seq<Event>
    decreases |calls|
  {
    if calls == [] then [] else Sent(isDone, calls[0]) + AllSent(isDone || calls[0].Done?, calls[1..])
  }

  lemma {:induction false} RunWords(b: Bar, calls: seq<Call>)
    requires b.planned > 0
    ensures Words(Run(b, calls).told) == AllSent(b.isDone, calls)
    decreases |calls|
  {
    if calls != [] {
      var first := Apply(b, calls[0]);
      ApplyWords(b, calls[0]);
      ApplyReachesAll(b, calls[0]);
      WordsAppend(first.told, Run(first.bar, calls[1..]).told);
      RunWords(first.bar, calls[1..]);
    }
  }

  /** Ticks aside, the announcement and then every label and warning of the calls goes out, in order. */
  lemma WordsGoOut(name: string, planned: nat, startAt: nat, announce: bool, ends: bool, calls: seq<Call>)
    requires planned > 0
    ensures Words(Life(name, planned, startAt, announce, ends, calls).told) ==
            (if announce then [Started(name, planned)] else []) + AllSent(false, calls)
  {
    var born := Create(name, planned, startAt, announce, ends);
    RunWords(born.bar, calls);
    WordsAppend(born.told, Run(born.bar, calls).told);
    var heads := if announce then [Started(name, planned)] else [];
    var tail := born.told[|heads|..];
    assert born.told == heads + tail;
    WordsAppend(heads, tail);
    assert heads != [] ==> heads[1..] == [];
    assert tail != [] ==> tail[0].Ticked? && tail[1..] == [];
  }

  lemma {:induction false} NothingIsStarted(isDone: bool, calls: seq<Call>)
    ensures Count(AllSent(isDone, calls), (e: Event) => e.Started?) == 0
    decreases |calls|
  {
    if calls != [] {
      var one := Sent(isDone, calls[0]);
      NothingIsStarted(isDone || calls[0].Done?, calls[1..]);
      CountAppend(one, AllSent(isDone || calls[0].Done?, calls[1..]), (e: Event) => e.Started?);
      assert one != [] ==> one[1..] == [];
    }
  }

  lemma {:induction false} FinishedOnce(isDone: bool, calls: seq<Call>)
    ensures Count(AllSent(isDone, calls), (e: Event) => e.Finished?) == if Done in calls && !isDone then 1 else 0
    decreases |calls|
  {
    if calls != [] {
      var one := Sent(isDone, calls[0]);
      FinishedOnce(isDone || calls[0].Done?, calls[1..]);
      CountAppend(one, AllSent(isDone || calls[0].Done?, calls[1..]), (e: Event) => e.Finished?);
      assert calls == [calls[0]] + calls[1..];
      assert one != [] ==> one[1..] == [];
    }
  }

  /** A counted operation is announced once or not at all, and finished once however often it is done. */
  lemma AnnouncedAndFinishedOnce(name: string, planned: nat, startAt: nat, announce: bool, ends: bool, calls: seq<Call>)
    requires planned > 0
    ensures var told := Life(name, planned, startAt, announce, ends, calls).told;
            && Count(told, (e: Event) => e.Started?) == (if announce then 1 else 0)
            && (announce ==> told[0] == Started(name, planned))
            && Count(told, (e: Event) => e.Finished?) == (if Done in calls then 1 else 0)
  {
    var told := Life(name, planned, startAt, announce, ends, calls).told;
    var heads := if announce then [Started(name, planned)] else [];
    WordsGoOut(name, planned, startAt, announce, ends, calls);
    CountWords(told, (e: Event) => e.Started?);
    CountWords(told, (e: Event) => e.Finished?);
    CountAppend(heads, AllSent(false, calls), (e: Event) => e.Started?);
    CountAppend(heads, AllSent(false, calls), (e: Event) => e.Finished?);
    NothingIsStarted(false, calls);
    FinishedOnce(false, calls);
    assert heads != [] ==> heads[1..] == [];
  }

  /** An operation that could not be counted passes everything through, stretch ends aside. */
  function PassedThrough(c: Call, isDone: bool): seq<Event> {
    match c
    case Start(name, total) => [Started(name, total)]
    case Tick(current) => [Ticked(current)]
    case Finish => []
    case Warn(message) => [Warned(message)]
    case Phase(name) => [Phased(name)]
    case Done => if isDone then [] else [Finished]
  }

  function PassedAll(calls: seq<Call>, isDone: bool): seq<Event> {
    if calls == [] then []
    else PassedThrough(calls[0], isDone) + PassedAll(calls[1..], isDone || calls[0].Done?)
  }

  lemma {:induction false} UncountedRunPasses(b: Bar, calls: seq<Call>)
    requires b.planned == 0 && !b.inStretch
    ensures Run(b, calls).told == PassedAll(calls, b.isDone)
    decreases |calls|
  {
    if calls != [] {
      UncountedRunPasses(Apply(b, calls[0]).bar, calls[1..]);
    }
  }

  // ----- where the bar stands

  /** Where the bar stands once the stretch under way is over. */
  function Reach(b: Bar): nat {
    if b.inStretch then b.offset + Units(b.stretchTotal) else b.position
  }

  function UnitsOf(calls: seq<Call>): nat {
    if calls == [] then 0
    else (if calls[0].Start? then Units(calls[0].total) else 0) + UnitsOf(calls[1..])
  }

  lemma {:induction false} RunReaches(b: Bar, calls: seq<Call>)
    requires b.planned > 0 && Done !in calls
    ensures Reach(Run(b, calls).bar) == Reach(b) + UnitsOf(calls)
    decreases |calls|
  {
    if calls != [] {
      assert calls == [calls[0]] + calls[1..];
      ApplyReaches(b, calls[0]);
      RunReaches(Apply(b, calls[0]).bar, calls[1..]);
    }
  }

  lemma ApplyReaches(b: Bar, c: Call)
    requires b.planned > 0 && !c.Done?
    ensures Apply(b, c).bar.planned == b.planned
    ensures Reach(Apply(b, c).bar) == Reach(b) + if c.Start? then Units(c.total) else 0
  {
  }

  /** Between stretches, the position is the start plus one unit or the count of every stretch so far. */
  lemma PositionAddsUp(name: string, planned: nat, startAt: nat, announce: bool, ends: bool, calls: seq<Call>)
    requires planned > 0 && Done !in calls
    ensures var bar := Life(name, planned, startAt, announce, ends, calls).bar;
            !bar.inStretch ==> bar.position == startAt + UnitsOf(calls)
  {
    RunReaches(Create(name, planned, startAt, announce, ends).bar, calls);
  }

  /** What was called after the first done. */
  function AfterDone(calls: seq<Call>): seq<Call> {
    if calls == [] then [] else if calls[0] == Done then calls[1..] else AfterDone(calls[1..])
  }

  /**
   Where the bar stands once every stretch so far is over: the start plus one unit or the count of
   every stretch, and from the plan's end on again once a part that ends the operation is done.
   */
  function StandsAt(planned: nat, startAt: nat, ends: bool, calls: seq<Call>): nat {
    if ends && Done in calls then planned + UnitsOf(AfterDone(calls)) else startAt + UnitsOf(calls)
  }

  lemma ApplyReachesAll(b: Bar, c: Call)
    requires b.planned > 0
    ensures Apply(b, c).bar.planned == b.planned && Apply(b, c).bar.endsOperation == b.endsOperation
    ensures Apply(b, c).bar.isDone == (b.isDone || c.Done?)
    ensures Reach(Apply(b, c).bar) ==
            if c.Start? then Reach(b) + Units(c.total)
            else if c.Done? && !b.isDone && b.endsOperation then b.planned else Reach(b)
  {
  }

  lemma {:induction false} RunReachesAll(b: Bar, calls: seq<Call>)
    requires b.planned > 0
    ensures var after := Run(b, calls).bar;
            && after.planned == b.planned && after.isDone == (b.isDone || Done in calls)
            && Reach(after) == StandsAt(b.planned, Reach(b), b.endsOperation && !b.isDone, calls)
    decreases |calls|
  {
    if calls != [] {
      assert calls == [calls[0]] + calls[1..];
      ApplyReachesAll(b, calls[0]);
      RunReachesAll(Apply(b, calls[0]).bar, calls[1..]);
    }
  }

  /** Calls that leave a stretch under way: all but a start, a finish and the first done. */
  predicate Within(isDone: bool, calls: seq<Call>) {
    forall c :: c in calls ==> !c.Start? && !c.Finish? && (c.Done? ==> isDone)
  }

  /** The count of the last tick, 0 if there was none. */
  function LastTick(calls: seq<Call>): nat {
    if calls == [] then 0
    else if calls[|calls| - 1].Tick? then calls[|calls| - 1].current
    else LastTick(calls[..|calls| - 1])
  }

  lemma {:induction false} WithinStretch(b: Bar, calls: seq<Call>)
    requires b.planned > 0 && b.inStretch && b.position == b.offset && Within(b.isDone, calls)
    ensures var after := Run(b, calls).bar;
            && after.inStretch && after.offset == b.offset && after.stretchTotal == b.stretchTotal
            && after.planned == b.planned && after.isDone == b.isDone
            && after.position == b.offset + Min(LastTick(calls), b.stretchTotal)
    decreases |calls|
  {
    if calls != [] {
      var n := |calls| - 1;
      assert calls == calls[..n] + [calls[n]];
      WithinStretch(b, calls[..n]);
      RunAppend(b, calls[..n], [calls[n]]);
      RunOne(Run(b, calls[..n]).bar, calls[n]);
    }
  }

  /** Where the bar stands after a whole life of calls. */
  function Position(name: string, planned: nat, startAt: nat, announce: bool, ends: bool, calls: seq<Call>): nat {
    Life(name, planned, startAt, announce, ends, calls).bar.position
  }

  lemma StretchBegins(b: Bar, title: string, total: nat)
    requires b.planned > 0
    ensures var begun := Apply(b, Start(title, total)).bar;
            && begun.planned == b.planned && begun.isDone == b.isDone && begun.inStretch
            && begun.position == begun.offset == Reach(b) && begun.stretchTotal == total
  {
  }

  /** In a stretch the bar stands where the stretch began plus the last tick, up to the stretch's count. */
  lemma TickMovesTheBar(name: string, planned: nat, startAt: nat, announce: bool, ends: bool,
                        before: seq<Call>, title: string, total: nat, since: seq<Call>)
    requires planned > 0 && Within(Done in before, since)
    ensures Position(name, planned, startAt, announce, ends, before + [Start(title, total)] + since) ==
            StandsAt(planned, startAt, ends, before) + Min(LastTick(since), total)
  {
    var born := Create(name, planned, startAt, announce, ends).bar;
    var b := Run(born, before).bar;
    RunReachesAll(born, before);
    RunAppend(born, before + [Start(title, total)], since);
    RunAppend(born, before, [Start(title, total)]);
    RunOne(b, Start(title, total));
    StretchBegins(b, title, total);
    WithinStretch(Apply(b, Start(title, total)).bar, since);
  }

  /** Outside a stretch nothing but a start or a first done moves the bar. */
  lemma {:induction false} BetweenStretches(b: Bar, calls: seq<Call>)
    requires b.planned > 0 && !b.inStretch && forall c :: c in calls ==> !c.Start?
    ensures !Run(b, calls).bar.inStretch
    decreases |calls|
  {
    if calls != [] {
      assert calls == [calls[0]] + calls[1..];
      BetweenStretches(Apply(b, calls[0]).bar, calls[1..]);
    }
  }

  /** And a finish or a first done leaves it where every stretch so far is over, ticks or not. */
  lemma EndMovesTheBar(name: string, planned: nat, startAt: nat, announce: bool, ends: bool,
                       before: seq<Call>, end: Call, since: seq<Call>)
    requires planned > 0 && (end == Finish || (end == Done && Done !in before))
    requires forall c :: c in since ==> !c.Start?
    ensures Position(name, planned, startAt, announce, ends, before + [end] + since) ==
            StandsAt(planned, startAt, ends, before + [end] + since)
  {
    var born := Create(name, planned, startAt, announce, ends).bar;
    var b := Run(born, before).bar;
    RunReachesAll(born, before);
    RunReachesAll(born, before + [end] + since);
    RunAppend(born, before + [end], since);
    RunAppend(born, before, [end]);
    RunOne(b, end);
    BetweenStretches(Apply(b, end).bar, since);
  }

  // ----- the last tick is the furthest the bar has been

  lemma ApplyReported(b: Bar, c: Call)
    requires b.planned > 0 && b.reported <= b.planned && Min(b.position, b.planned) <= b.reported
    ensures var next := Apply(b, c).bar;
            && next.planned == b.planned
            && b.reported <= next.reported <= b.planned && Min(next.position, b.planned) <= next.reported
            && (next.reported == b.reported || next.reported == Min(next.position, b.planned))
  {
  }

  lemma {:induction false} RunReported(b: Bar, calls: seq<Call>)
    requires b.planned > 0 && b.reported == Min(b.position, b.planned)
    ensures Run(b, calls).bar.planned == b.planned && Run(b, calls).bar.reported <= b.planned
    ensures var last := Run(b, calls).bar.reported;
            && (forall i :: 0 <= i <= |calls| ==> Min(Run(b, calls[..i]).bar.position, b.planned) <= last)
            && (exists i :: 0 <= i <= |calls| && Min(Run(b, calls[..i]).bar.position, b.planned) == last)
    decreases |calls|
  {
    assert calls[..|calls|] == calls;
    if calls == [] {
      assert Min(Run(b, calls[..0]).bar.position, b.planned) == Run(b, calls).bar.reported;
    } else {
      var n := |calls| - 1;
      var front := calls[..n];
      RunReported(b, front);
      assert calls == front + [calls[n]];
      RunAppend(b, front, [calls[n]]);
      RunOne(Run(b, front).bar, calls[n]);
      assert front[..n] == front;
      assert Min(Run(b, front[..n]).bar.position, b.planned) <= Run(b, front).bar.reported;
      ApplyReported(Run(b, front).bar, calls[n]);
      assert forall i :: 0 <= i <= n ==> front[..i] == calls[..i];
      var i :| 0 <= i <= n && Min(Run(b, front[..i]).bar.position, b.planned) == Run(b, front).bar.reported;
      var j := if Run(b, calls).bar.reported == Run(b, front).bar.reported then i else |calls|;
      assert Min(Run(b, calls[..j]).bar.position, b.planned) == Run(b, calls).bar.reported;
    }
  }

  /** The last tick forwarded is the furthest the bar has stood after any of the calls, up to the plan. */
  lemma LastTickIsTheFurthest(name: string, planned: nat, startAt: nat, announce: bool, ends: bool, calls: seq<Call>)
    requires planned > 0
    ensures var last := LastOr(0, Ticks(Life(name, planned, startAt, announce, ends, calls).told));
            && (forall i :: 0 <= i <= |calls| ==>
                  Min(Position(name, planned, startAt, announce, ends, calls[..i]), planned) <= last)
            && (exists i :: 0 <= i <= |calls| &&
                  Min(Position(name, planned, startAt, announce, ends, calls[..i]), planned) == last)
  {
    var born := Create(name, planned, startAt, announce, ends).bar;
    TicksClimbWithinPlan(name, planned, startAt, announce, ends, calls);
    RunReported(born, calls);
    var last := Run(born, calls).bar.reported;
    var i :| 0 <= i <= |calls| && Min(Run(born, calls[..i]).bar.position, planned) == last;
    assert Position(name, planned, startAt, announce, ends, calls[..i]) == Run(born, calls[..i]).bar.position;
  }

  /** A stretch is named once the bar has been told the end of the one before it, and before any of its own ticks. */
  lemma StartIsNamedLast(name: string, planned: nat, startAt: nat, announce: bool, ends: bool,
                         before: seq<Call>, title: string, total: nat)
    requires planned > 0
    ensures var told := Life(name, planned, startAt, announce, ends, before + [Start(title, total)]).told;
            told != [] && told[|told| - 1] == Phased(title)
  {
    var born := Create(name, planned, startAt, announce, ends);
    RunSettled(born.bar, before);
    var b := Run(born.bar, before).bar;
    RunAppend(born.bar, before, [Start(title, total)]);
    RunOne(b, Start(title, total));
    EndSettled(b);
    var one := Apply(b, Start(title, total)).told;
    assert one[|one| - 1] == Phased(title);
  }

  /** The last part of an operation leaves the bar at its end, whatever was called before and after. */
  lemma {:induction false} DoneRunsToTheEnd(b: Bar, calls: seq<Call>)
    requires b.planned > 0 && b.endsOperation && b.reported <= b.planned
    requires Done in calls || b.reported == b.planned
    requires b.isDone ==> b.reported == b.planned
    ensures Run(b, calls).bar.reported == b.planned
    decreases |calls|
  {
    if calls != [] {
      assert calls == [calls[0]] + calls[1..];
      ApplyForward(b, calls[0]);
      var next := Apply(b, calls[0]).bar;
      ClimbsFromLow(b.reported, Ticks(Apply(b, calls[0]).told));
      ApplyReachesAll(b, calls[0]);
      DoneRunsToTheEnd(next, calls[1..]);
    }
  }

  lemma {:induction false} ClimbsFromLow(low: nat, ticks: seq<nat>)
    requires Climbs(low, ticks)
    ensures LastOr(low, ticks) >= low
    decreases |ticks|
  {
    if ticks != [] { ClimbsFromLow(ticks[0], ticks[1..]); }
  }

  /** So the last tick sent is the planned total. */
  lemma LastTickIsThePlan(name: string, planned: nat, startAt: nat, announce: bool, calls: seq<Call>)
    requires planned > 0 && Done in calls
    ensures var ticks := Ticks(Life(name, planned, startAt, announce, true, calls).told);
            ticks != [] && ticks[|ticks| - 1] == planned
  {
    CreateForward(name, planned, startAt, announce, true);
    DoneRunsToTheEnd(Create(name, planned, startAt, announce, true).bar, calls);
    TicksClimbWithinPlan(name, planned, startAt, announce, true, calls);
  }

  lemma UncountedPassesThrough(name: string, startAt: nat, announce: bool, ends: bool, calls: seq<Call>)
    ensures Life(name, 0, startAt, announce, ends, calls).told == PassedAll(calls, false)
  {
    UncountedRunPasses(Create(name, 0, startAt, announce, ends).bar, calls);
  }

  // ----- several parts, one bar

  lemma RunNext(b: Bar, c: Call, rest: seq<Call>)
    ensures Run(b, [c] + rest).bar == Run(Apply(b, c).bar, rest).bar
    ensures Run(b, [c] + rest).told == Apply(b, c).told + Run(Apply(b, c).bar, rest).told
  {
    assert ([c] + rest)[1..] == rest;
  }

  lemma {:induction false} RunAppend(b: Bar, xs: seq<Call>, ys: seq<Call>)
    ensures Run(b, xs + ys).bar == Run(Run(b, xs).bar, ys).bar
    ensures Run(b, xs + ys).told == Run(b, xs).told + Run(Run(b, xs).bar, ys).told
    decreases |xs|
  {
    if xs == [] {
      assert xs + ys == ys;
    } else {
      var c, rest := xs[0], xs[1..];
      assert xs == [c] + rest && xs + ys == [c] + (rest + ys);
      RunNext(b, c, rest);
      RunNext(b, c, rest + ys);
      RunAppend(Apply(b, c).bar, rest, ys);
      Associate(Apply(b, c).told, Run(Apply(b, c).bar, rest).told, Run(Run(b, xs).bar, ys).told);
    }
  }

  /**
   An operation run as parts in a row: each begins where the one before it stood when done, only
   the first announces the operation and only the last ends it.
   */
  function Parts(name: string, planned: nat, startAt: nat, announce: bool, parts: seq<seq<Call>>): seq<Event>
    decreases |parts|
  {
    if parts == [] then []
    else
      var part := Life(name, planned, startAt, announce, |parts| == 1, parts[0] + [Done]);
      part.told + Parts(name, planned, part.bar.position, false, parts[1..])
  }

  /** The same calls on one bar, with a finish where one part ended and the next began. */
  function Joined(parts: seq<seq<Call>>): seq<Call> {
    if parts == [] then [Done]
    else if |parts| == 1 then parts[0] + [Done]
    else parts[0] + [Finish] + Joined(parts[1..])
  }

  /** What is seen of a trace: all but finishes, and a tick only where it moves the bar. */
  function Seen(at: nat, trace: seq<Event>): seq<Event>
    decreases |trace|
  {
    if trace == [] then []
    else match trace[0]
      case Finished => Seen(at, trace[1..])
      case Ticked(n) => (if n == at then [] else [trace[0]]) + Seen(n, trace[1..])
      case _ => [trace[0]] + Seen(at, trace[1..])
  }

  lemma {:induction false} SeenAppend(at: nat, a: seq<Event>, b: seq<Event>)
    ensures Seen(at, a + b) == Seen(at, a) + Seen(LastOr(at, Ticks(a)), b)
    decreases |a|
  {
    if a == [] {
      assert a + b == b;
    } else {
      assert (a + b)[1..] == a[1..] + b;
      SeenAppend(if a[0].Ticked? then a[0].at else at, a[1..], b);
    }
  }

  /** Two bars a caller cannot tell apart until one of them is done. */
  predicate Twins(x: Bar, y: Bar) {
    && x.planned == y.planned && x.position == y.position && x.reported == y.reported
    && x.inStretch == y.inStretch && !x.isDone && !y.isDone
    && (x.inStretch ==> x.offset == y.offset && x.stretchTotal == y.stretchTotal)
  }

  lemma TwinsReportAlike(x: Bar, y: Bar, at: nat)
    requires x.planned == y.planned && x.reported == y.reported
    ensures Reporting(x, at).told == Reporting(y, at).told
    ensures Reporting(x, at).bar == x.(reported := Reporting(y, at).bar.reported)
  {
  }

  lemma TwinsEndAlike(x: Bar, y: Bar)
    requires Twins(x, y)
    ensures Twins(StretchEnded(x).bar, StretchEnded(y).bar) && StretchEnded(x).told == StretchEnded(y).told
    ensures !StretchEnded(x).bar.inStretch && StretchEnded(x).bar.endsOperation == x.endsOperation
  {
    if x.inStretch {
      var to := x.offset + Units(x.stretchTotal);
      TwinsReportAlike(x.(position := to, inStretch := false), y.(position := to, inStretch := false), to);
    }
  }

  lemma TwinsApplyAlike(x: Bar, y: Bar, c: Call)
    requires Twins(x, y) && !c.Done?
    ensures Twins(Apply(x, c).bar, Apply(y, c).bar) && Apply(x, c).told == Apply(y, c).told
    ensures Apply(x, c).bar.endsOperation == x.endsOperation
  {
    TwinsEndAlike(x, y);
    if c.Start? && x.planned > 0 {
      var ex, ey := StretchEnded(x).bar, StretchEnded(y).bar;
      var x2 := ex.(offset := ex.position, stretchTotal := c.total, inStretch := true);
      var y2 := ey.(offset := ey.position, stretchTotal := c.total, inStretch := true);
      TwinsReportAlike(x2, y2, x2.offset);
    } else if c.Tick? && x.inStretch {
      var to := x.offset + Min(c.current, x.stretchTotal);
      TwinsReportAlike(x.(position := to), y.(position := to), to);
    }
  }

  lemma {:induction false} TwinsRunAlike(x: Bar, y: Bar, calls: seq<Call>)
    requires Twins(x, y) && Done !in calls
    ensures Twins(Run(x, calls).bar, Run(y, calls).bar) && Run(x, calls).told == Run(y, calls).told
    ensures Run(x, calls).bar.endsOperation == x.endsOperation
    ensures Run(y, calls).bar.endsOperation == y.endsOperation
    decreases |calls|
  {
    if calls != [] {
      assert calls == [calls[0]] + calls[1..];
      TwinsApplyAlike(x, y, calls[0]);
      TwinsApplyAlike(y, x, calls[0]);
      TwinsRunAlike(Apply(x, calls[0]).bar, Apply(y, calls[0]).bar, calls[1..]);
    }
  }

  /** Between stretches the bar has reported exactly where it stands. */
  predicate Settled(b: Bar) {
    && b.planned > 0
    && (if b.inStretch then Min(b.offset, b.planned) <= b.reported <= Min(Reach(b), b.planned)
        else b.reported == Min(b.position, b.planned))
  }

  lemma EndSettled(b: Bar)
    requires Settled(b)
    ensures Settled(StretchEnded(b).bar) && StretchEnded(b).bar.isDone == b.isDone
    ensures StretchEnded(b).bar.planned == b.planned
  {
  }

  lemma ApplySettled(b: Bar, c: Call)
    requires Settled(b)
    ensures Settled(Apply(b, c).bar)
  {
    EndSettled(b);
  }

  lemma {:induction false} RunSettled(b: Bar, calls: seq<Call>)
    requires Settled(b)
    ensures Settled(Run(b, calls).bar)
    decreases |calls|
  {
    if calls != [] {
      assert calls == [calls[0]] + calls[1..];
      ApplySettled(b, calls[0]);
      RunSettled(Apply(b, calls[0]).bar, calls[1..]);
    }
  }

  // ----- one part after another

  /** A part picked up where a bar stands looks like that bar, and sends at most a tick already sent. */
  lemma PickedUp(b: Bar, name: string, announce: bool, ends: bool)
    requires Settled(b) && !b.inStretch && !b.isDone
    ensures var born := Create(name, b.planned, b.position, announce, ends);
            && Twins(born.bar, b) && born.bar.endsOperation == ends
            && born.told == (if announce then [Started(name, b.planned)] else []) +
                            (if b.position > 0 then [Ticked(b.reported)] else [])
  {
  }

  /** What is seen of a part is what would be seen of the bar it picked up. */
  lemma PartSeen(b: Bar, name: string, announce: bool, ends: bool, calls: seq<Call>, more: seq<Event>)
    requires Settled(b) && !b.inStretch && !b.isDone && Done !in calls
    ensures var born := Create(name, b.planned, b.position, announce, ends);
            var heads := if announce then [Started(name, b.planned)] else [];
            && Twins(Run(born.bar, calls).bar, Run(b, calls).bar)
            && Run(born.bar, calls).bar.endsOperation == ends
            && Seen(b.reported, born.told + Run(born.bar, calls).told + more) ==
               heads + Seen(b.reported, Run(b, calls).told + more)
  {
    var born := Create(name, b.planned, b.position, announce, ends);
    PickedUp(b, name, announce, ends);
    TwinsRunAlike(born.bar, b, calls);
    var heads := if announce then [Started(name, b.planned)] else [];
    var again := if b.position > 0 then [Ticked(b.reported)] else [];
    Regroup(heads, again, Run(b, calls).told, more);
    SeenHeads(b.reported, heads, again, Run(b, calls).told + more);
  }

  lemma SeenHeads(at: nat, heads: seq<Event>, again: seq<Event>, rest: seq<Event>)
    requires |heads| <= 1 && (heads != [] ==> heads[0].Started?)
    requires again == [] || again == [Ticked(at)]
    ensures Seen(at, heads + (again + rest)) == heads + Seen(at, rest)
  {
    assert again != [] ==> (again + rest)[1..] == rest;
    assert again == [] ==> again + rest == rest;
    assert heads != [] ==> (heads + (again + rest))[1..] == again + rest;
    assert heads == [] ==> heads + (again + rest) == again + rest;
  }

  /** What Done does to twins: the same to both when both end, and a finish where one only stops. */
  lemma DoneAlike(x: Bar, y: Bar)
    requires Twins(x, y) && y.endsOperation
    ensures x.endsOperation ==> Apply(x, Done).told == Apply(y, Done).told
    ensures !x.endsOperation ==>
              && Apply(x, Done).told == Apply(y, Finish).told + [Finished]
              && Apply(x, Done).bar.position == Apply(y, Finish).bar.position
  {
    TwinsEndAlike(x, y);
    var ex, ey := StretchEnded(x).bar.(isDone := true), StretchEnded(y).bar.(isDone := true);
    TwinsReportAlike(ex.(position := ex.planned), ey.(position := ey.planned), ex.planned);
    assert StretchEnded(x).told + [] == StretchEnded(x).told;
  }

  /** A part that is done sends what the joined bar sends up to the finish between them. */
  lemma PartToldAlike(b: Bar, name: string, announce: bool, calls: seq<Call>, rest: seq<Event>, joined: seq<Call>)
    requires Settled(b) && !b.inStretch && !b.isDone && b.endsOperation && Done !in calls
    requires var next := Run(b, calls + [Finish]).bar;
             Seen(next.reported, rest) == Seen(next.reported, Run(next, joined).told)
    ensures var part := Life(name, b.planned, b.position, announce, false, calls + [Done]);
            var heads := if announce then [Started(name, b.planned)] else [];
            && part.bar.position == Run(b, calls + [Finish]).bar.position
            && Seen(b.reported, part.told + rest) == heads + Seen(b.reported, Run(b, calls + [Finish] + joined).told)
  {
    var born := Create(name, b.planned, b.position, announce, false);
    var told, stop := Run(b, calls).told, Apply(Run(b, calls).bar, Finish).told;
    PartTold(b, name, announce, calls);
    PartSeen(b, name, announce, false, calls, stop + ([Finished] + rest));
    RegroupStop(born.told, Run(born.bar, calls).told, stop, [Finished], rest);
    RegroupStop([], told, stop, [Finished], rest);
    SeenPast(b, calls, rest, joined);
  }

  lemma RegroupStop(a: seq<Event>, b: seq<Event>, c: seq<Event>, d: seq<Event>, e: seq<Event>)
    ensures a + b + (c + d) + e == a + b + (c + (d + e))
    ensures b + (c + (d + e)) == b + c + (d + e)
  {
  }

  /** Past the finish between two parts, what is seen of the rest is seen of both. */
  lemma SeenPast(b: Bar, calls: seq<Call>, rest: seq<Event>, joined: seq<Call>)
    requires b.planned > 0 && b.reported <= b.planned
    requires var next := Run(b, calls + [Finish]).bar;
             Seen(next.reported, rest) == Seen(next.reported, Run(next, joined).told)
    ensures Seen(b.reported, Run(b, calls + [Finish]).told + ([Finished] + rest)) ==
            Seen(b.reported, Run(b, calls + [Finish] + joined).told)
  {
    var upTo, next := Run(b, calls + [Finish]).told, Run(b, calls + [Finish]).bar;
    RunAppend(b, calls + [Finish], joined);
    RunForward(b, calls + [Finish]);
    SeenAppend(b.reported, upTo, [Finished] + rest);
    SeenAppend(b.reported, upTo, Run(next, joined).told);
    assert ([Finished] + rest)[1..] == rest;
  }

  /** What a part that only stops sends, set against the joined bar's finish. */
  lemma PartTold(b: Bar, name: string, announce: bool, calls: seq<Call>)
    requires Settled(b) && !b.inStretch && !b.isDone && b.endsOperation && Done !in calls
    ensures var born := Create(name, b.planned, b.position, announce, false);
            var part := Life(name, b.planned, b.position, announce, false, calls + [Done]);
            var stop := Apply(Run(b, calls).bar, Finish).told;
            && part.told == born.told + Run(born.bar, calls).told + (stop + [Finished])
            && Run(b, calls + [Finish]).told == Run(b, calls).told + stop
            && part.bar.position == Run(b, calls + [Finish]).bar.position
  {
    var born := Create(name, b.planned, b.position, announce, false);
    var x, y := Run(born.bar, calls).bar, Run(b, calls).bar;
    PickedUp(b, name, announce, false);
    TwinsRunAlike(born.bar, b, calls);
    DoneAlike(x, y);
    RunAppend(born.bar, calls, [Done]);
    RunAppend(b, calls, [Finish]);
    RunOne(x, Done);
    RunOne(y, Finish);
  }

  lemma RunOne(b: Bar, c: Call)
    ensures Run(b, [c]) == Apply(b, c)
  {
    assert [c][1..] == [];
    assert Apply(b, c).told + [] == Apply(b, c).told;
  }

  lemma LastPart(b: Bar, name: string, announce: bool, calls: seq<Call>)
    requires Settled(b) && !b.inStretch && !b.isDone && b.endsOperation && Done !in calls
    ensures Seen(b.reported, Life(name, b.planned, b.position, announce, true, calls + [Done]).told) ==
            (if announce then [Started(name, b.planned)] else []) + Seen(b.reported, Run(b, calls + [Done]).told)
  {
    var born := Create(name, b.planned, b.position, announce, true);
    var x, y := Run(born.bar, calls).bar, Run(b, calls).bar;
    PartSeen(b, name, announce, true, calls, Apply(y, Done).told);
    TwinsRunAlike(b, b, calls);
    DoneAlike(x, y);
    RunAppend(born.bar, calls, [Done]);
    RunAppend(b, calls, [Done]);
    RunOne(x, Done);
    RunOne(y, Done);
    Associate(born.told, Run(born.bar, calls).told, Apply(y, Done).told);
  }

  lemma {:induction false} PartsFrom(b: Bar, name: string, announce: bool, parts: seq<seq<Call>>)
    requires Settled(b) && !b.inStretch && !b.isDone && b.endsOperation
    requires parts != [] && forall i :: 0 <= i < |parts| ==> Done !in parts[i]
    ensures Seen(b.reported, Parts(name, b.planned, b.position, announce, parts)) ==
            (if announce then [Started(name, b.planned)] else []) + Seen(b.reported, Run(b, Joined(parts)).told)
    decreases |parts|
  {
    var calls := parts[0];
    if |parts| == 1 {
      LastPart(b, name, announce, calls);
      var part := Life(name, b.planned, b.position, announce, true, calls + [Done]);
      assert Parts(name, b.planned, part.bar.position, false, parts[1..]) == [];
      assert part.told + [] == part.told;
    } else {
      var next := Run(b, calls + [Finish]).bar;
      StandsStill(b, calls);
      PartsFrom(next, name, false, parts[1..]);
      var rest := Parts(name, next.planned, next.position, false, parts[1..]);
      PartToldAlike(b, name, announce, calls, rest, Joined(parts[1..]));
      assert parts[0] + [Finish] + Joined(parts[1..]) == Joined(parts);
    }
  }

  /** After a finish the bar stands between stretches. */
  lemma StandsStill(b: Bar, calls: seq<Call>)
    requires Settled(b) && !b.isDone && b.endsOperation && Done !in calls
    ensures var next := Run(b, calls + [Finish]).bar;
            Settled(next) && !next.inStretch && !next.isDone && next.endsOperation && next.planned == b.planned
  {
    RunAppend(b, calls, [Finish]);
    RunOne(Run(b, calls).bar, Finish);
    RunSettled(b, calls);
    TwinsRunAlike(b, b, calls);
    EndSettled(Run(b, calls).bar);
    TwinsEndAlike(Run(b, calls).bar, Run(b, calls).bar);
    RunForward(b, calls);
  }

  /**
   An operation run as parts, each started where the one before it stood, shows what one bar given
   all their calls shows: the same announcement, labels, warnings and ticks, in the same order.
   */
  lemma PartsShowOneBar(name: string, planned: nat, parts: seq<seq<Call>>)
    requires planned > 0 && parts != []
    requires forall i :: 0 <= i < |parts| ==> Done !in parts[i]
    ensures Seen(0, Parts(name, planned, 0, true, parts)) ==
            Seen(0, Life(name, planned, 0, true, true, Joined(parts)).told)
  {
    var born := Create(name, planned, 0, true, true);
    PartsFrom(born.bar, name, true, parts);
    SeenAppend(0, born.told, Run(born.bar, Joined(parts)).told);
    assert born.told == [Started(name, planned)] && born.told[1..] == [];
  }
}
