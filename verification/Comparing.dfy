/** `compareRecords` itself, and what it can and cannot miss. */
module Comparing {
  import opened FieldText
  import opened Options
  import opened Records
  import opened CaseFile
  import opened Comparer

  // ----- the case loop

  function Entities(c: Case): set<string> {
    set j | 0 <= j < |c.items| && c.items[j].section == "ET" :: c.items[j].entity
  }

  lemma PlantedGrows(cases: seq<Case>, i: nat)
    requires i < |cases|
    ensures Planted(cases[..i + 1]) == Planted(cases[..i]) + Entities(cases[i])
  {
    var front, more := cases[..i], cases[..i + 1];
    forall t | t in Planted(more)
      ensures t in Planted(front) + Entities(cases[i])
    {
      var k, j :| 0 <= k < |more| && 0 <= j < |more[k].items| &&
        more[k].items[j].section == "ET" && more[k].items[j].entity == t;
      if k < i { assert front[k] == more[k]; }
    }
    forall t | t in Planted(front)
      ensures t in Planted(more)
    {
      var k, j :| 0 <= k < |front| && 0 <= j < |front[k].items| &&
        front[k].items[j].section == "ET" && front[k].items[j].entity == t;
      assert more[k] == front[k];
    }
    forall t | t in Entities(cases[i])
      ensures t in Planted(more)
    {
      var j :| 0 <= j < |cases[i].items| && cases[i].items[j].section == "ET" && cases[i].items[j].entity == t;
      assert more[i] == cases[i];
    }
  }

  /** One case more, under its verdict or as not planted. */
  method CountCase(ghost outcomes: seq<CaseOutcome>, o: CaseOutcome, counts: map<Verdict, nat>, notPlanted: nat)
    returns (more: map<Verdict, nat>, left: nat)
    requires forall v :: CountIn(counts, v) == CountVerdicts(outcomes, v)
    requires notPlanted == CountNotPlanted(outcomes)
    ensures forall v :: CountIn(more, v) == CountVerdicts(outcomes + [o], v)
    ensures left == CountNotPlanted(outcomes + [o])
  {
    assert (outcomes + [o])[..|outcomes|] == outcomes;
    more, left := counts, notPlanted;
    if Counted(o) {
      more := Bump(counts, VerdictOf(o));
    } else {
      left := notPlanted + 1;
    }
  }

  /** What the case loop has by now. */
  ghost predicate CasesCompared(b: Values, a: Values, cases: seq<Case>, outcomes: seq<CaseOutcome>,
                                counts: map<Verdict, nat>, notPlanted: nat, planted: set<string>)
  {
    && AreOutcomes(b, a, cases, outcomes)
    && (forall v :: CountIn(counts, v) == CountVerdicts(outcomes, v))
    && notPlanted == CountNotPlanted(outcomes)
    && planted == Planted(cases)
  }

  ghost predicate AreOutcomes(b: Values, a: Values, cases: seq<Case>, outcomes: seq<CaseOutcome>) {
    && |outcomes| == |cases|
    && forall k :: 0 <= k < |cases| ==> IsCaseOutcome(b, a, cases[k], outcomes[k])
  }

  lemma OutcomesGrow(b: Values, a: Values, cases: seq<Case>, i: nat, outcomes: seq<CaseOutcome>, o: CaseOutcome)
    requires i < |cases| && AreOutcomes(b, a, cases[..i], outcomes) && IsCaseOutcome(b, a, cases[i], o)
    ensures AreOutcomes(b, a, cases[..i + 1], outcomes + [o])
  {
    var more, all := cases[..i + 1], outcomes + [o];
    forall k | 0 <= k < |more|
      ensures IsCaseOutcome(b, a, more[k], all[k])
    {
      if k < i { assert more[k] == cases[..i][k] && all[k] == outcomes[k]; }
    }
  }

  /** One turn of it. */
  method CompareNext(before: Record, after: Record, cases: seq<Case>, i: nat, outcomes: seq<CaseOutcome>,
                     counts: map<Verdict, nat>, notPlanted: nat, planted: set<string>)
    returns (outcomes1: seq<CaseOutcome>, counts1: map<Verdict, nat>, notPlanted1: nat, planted1: set<string>)
    requires before.Valid() && after.Valid() && i < |cases|
    requires CasesCompared(before.Contents(), after.Contents(), cases[..i], outcomes, counts, notPlanted, planted)
    ensures CasesCompared(before.Contents(), after.Contents(), cases[..i + 1],
                          outcomes1, counts1, notPlanted1, planted1)
  {
    var o := CompareCase(before, after, cases[i]);
    PlantedGrows(cases, i);
    planted1 := planted + Entities(cases[i]);
    counts1, notPlanted1 := CountCase(outcomes, o, counts, notPlanted);
    outcomes1 := outcomes + [o];
    OutcomesGrow(before.Contents(), after.Contents(), cases, i, outcomes, o);
  }

  method CompareCases(before: Record, after: Record, cases: seq<Case>)
    returns (outcomes: seq<CaseOutcome>, counts: map<Verdict, nat>, notPlanted: nat, planted: set<string>)
    requires before.Valid() && after.Valid()
    ensures CasesCompared(before.Contents(), after.Contents(), cases, outcomes, counts, notPlanted, planted)
  {
    outcomes, counts, notPlanted, planted := [], map[], 0, {};
    for i := 0 to |cases|
      invariant CasesCompared(before.Contents(), after.Contents(), cases[..i], outcomes, counts, notPlanted, planted)
    {
      outcomes, counts, notPlanted, planted :=
        CompareNext(before, after, cases, i, outcomes, counts, notPlanted, planted);
    }
    assert cases[..|cases|] == cases;
  }

  // ----- the tracks outside the cases

  lemma ChangedInGrows(b: Values, a: Values, tracks: set<string>, track: string, f: string)
    requires track !in tracks
    ensures |ChangedIn(b, a, tracks + {track}, f)| ==
            |ChangedIn(b, a, tracks, f)| + if Differs(b, a, track, f) then 1 else 0
  {
    var more := ChangedIn(b, a, tracks + {track}, f);
    if Differs(b, a, track, f) {
      assert more == ChangedIn(b, a, tracks, f) + {track};
    } else {
      assert more == ChangedIn(b, a, tracks, f);
    }
  }

  /** One track's changes, counted field by field. */
  method CountChanges(counts: map<string, nat>, changes: seq<Change>) returns (more: map<string, nat>)
    requires FieldsAscend(changes)
    ensures forall f :: CountIn(more, f) == CountIn(counts, f) + if HasChange(changes, f) then 1 else 0
  {
    more := counts;
    for k := 0 to |changes|
      invariant forall f :: CountIn(more, f) == CountIn(counts, f) + if HasChange(changes[..k], f) then 1 else 0
    {
      forall f
        ensures HasChange(changes[..k + 1], f) <==> HasChange(changes[..k], f) || f == changes[k].field
        ensures f == changes[k].field ==> !HasChange(changes[..k], f)
      {
        HasChangeGrows(changes, k, f);
      }
      more := Bump(more, changes[k].field);
    }
    assert changes[..|changes|] == changes;
  }

  lemma HasChangeGrows(changes: seq<Change>, k: nat, f: string)
    requires FieldsAscend(changes) && k < |changes|
    ensures HasChange(changes[..k + 1], f) <==> HasChange(changes[..k], f) || f == changes[k].field
    ensures f == changes[k].field ==> !HasChange(changes[..k], f)
  {
    var front, more := changes[..k], changes[..k + 1];
    BeforeIsAnOrder(f, f, f);
    if HasChange(front, f) {
      var i :| 0 <= i < |front| && front[i].field == f;
      assert more[i].field == f;
    }
    assert more[k] == changes[k];
    assert forall i :: 0 <= i < k ==> more[i] == front[i];
  }

  method CompareTracks(before: Record, after: Record, planted: set<string>)
    returns (added: seq<string>, removed: seq<string>, changes: map<string, nat>, touched: set<string>)
    requires before.Valid() && after.Valid()
    ensures var b, a := before.Contents(), after.Contents();
            var others := EntitiesOf(b, "ET") * EntitiesOf(a, "ET") - planted;
            && StringsAscend(added) && StringsAscend(removed)
            && (forall t :: t in added <==> t in EntitiesOf(a, "ET") - EntitiesOf(b, "ET"))
            && (forall t :: t in removed <==> t in EntitiesOf(b, "ET") - EntitiesOf(a, "ET") - planted)
            && (forall f :: CountIn(changes, f) == |ChangedIn(b, a, others, f)|)
            && (forall t :: t in touched <==> t in others && Changed(b, a, t))
  {
    ghost var b, a := before.Contents(), after.Contents();
    var beforeTracks := before.Entities("ET");
    var afterTracks := after.Entities("ET");
    added := InOrder(afterTracks - beforeTracks);
    removed := InOrder(beforeTracks - afterTracks - planted);
    changes, touched := map[], {};
    var walk := InOrder(beforeTracks * afterTracks - planted);
    ghost var done: set<string> := {};
    for i := 0 to |walk|
      invariant done == set t | t in walk[..i]
      invariant forall f :: CountIn(changes, f) == |ChangedIn(b, a, done, f)|
      invariant forall t :: t in touched <==> t in done && Changed(b, a, t)
    {
      var path := walk[i];
      assert path !in done by {
        BeforeIsAnOrder(path, path, path);
      }
      assert walk[..i + 1] == walk[..i] + [path];
      var found := DifferingFields(before, after, path, {});
      ChangesSay(b, a, path, found);
      changes := CountChanges(changes, found);
      if found != [] {
        touched := touched + {path};
      }
      forall f
        ensures |ChangedIn(b, a, done + {path}, f)| ==
                |ChangedIn(b, a, done, f)| + if Differs(b, a, path, f) then 1 else 0
      {
        ChangedInGrows(b, a, done, path, f);
      }
      done := done + {path};
    }
    assert walk[..|walk|] == walk;
    assert done == EntitiesOf(b, "ET") * EntitiesOf(a, "ET") - planted;
  }

  lemma ChangesSay(b: Values, a: Values, track: string, changes: seq<Change>)
    requires AreChanges(b, a, track, {}, changes)
    ensures forall f :: HasChange(changes, f) <==> Differs(b, a, track, f)
    ensures changes != [] <==> Changed(b, a, track)
  {
    if changes != [] {
      assert Differs(b, a, track, changes[0].field);
    }
  }

  method CompareRecords(before: Record, after: Record, cases: seq<Case>) returns (result: Comparison)
    requires before.Valid() && after.Valid()
    ensures IsComparison(before.Contents(), after.Contents(), cases, result)
  {
    var outcomes, counts, notPlanted, planted := CompareCases(before, after, cases);
    var added, removed, changes, touched := CompareTracks(before, after, planted);
    result := Comparison(outcomes, counts, notPlanted, added, removed, changes, touched);
  }

  // ----- what it reports

  /** A changed field of an Engine track shows somewhere in the comparison. */
  ghost predicate Reported(b: Values, a: Values, cases: seq<Case>, r: Comparison, track: string, field: string)
    requires IsComparison(b, a, cases, r)
  {
    || ByItem(r, track, field)
    || ByCase(cases, r, track, field)
    || track in r.added
    || track in r.removed
    || (track in r.touched && CountIn(r.changes, field) > 0)
  }

  /** An item watching the field has a verdict other than Kept. */
  ghost predicate ByItem(r: Comparison, track: string, field: string) {
    exists i, j :: 0 <= i < |r.cases| && 0 <= j < |r.cases[i].items| &&
      var o := r.cases[i].items[j];
      o.item.section == "ET" && o.item.entity == track && o.item.field == field && o.verdict != Kept
  }

  /** A case on the track lists the field among what also changed. */
  ghost predicate ByCase(cases: seq<Case>, r: Comparison, track: string, field: string)
    requires |r.cases| == |cases|
  {
    exists i :: 0 <= i < |cases| && OnTrack(cases[i]) && cases[i].items[0].entity == track &&
      HasChange(r.cases[i].alsoChanged, field)
  }

  /** An item that watches a whole field of a track, not one element of it. */
  ghost predicate WatchedWhole(cases: seq<Case>, track: string, field: string) {
    exists i, j :: 0 <= i < |cases| && 0 <= j < |cases[i].items| &&
      var item := cases[i].items[j];
      item.section == "ET" && item.entity == track && item.field == field && Member(item).None?
  }

  /** A case on the track that watches no field of that name on any track. */
  ghost predicate LeftToCase(cases: seq<Case>, track: string, field: string) {
    exists i :: 0 <= i < |cases| && OnTrack(cases[i]) && cases[i].items[0].entity == track &&
      field !in Watched(cases[i])
  }

  ghost predicate Covered(cases: seq<Case>, track: string, field: string) {
    WatchedWhole(cases, track, field) || LeftToCase(cases, track, field)
  }

  /** Every field of every track the cases are about is watched whole or left to a case on the track. */
  ghost predicate CasesCover(cases: seq<Case>) {
    forall track, field :: track in Planted(cases) ==> Covered(cases, track, field)
  }

  lemma DiffersIsKnown(b: Values, a: Values, track: string, field: string)
    requires Differs(b, a, track, field)
    ensures track in EntitiesOf(b, "ET") + EntitiesOf(a, "ET")
  {
    var key := Key("ET", track, field);
    assert key in b || key in a;
  }

  lemma OthersReported(b: Values, a: Values, cases: seq<Case>, r: Comparison, track: string, field: string)
    requires IsComparison(b, a, cases, r) && Differs(b, a, track, field) && track in Others(b, a, cases)
    ensures track in r.touched && CountIn(r.changes, field) > 0
  {
    assert track in ChangedIn(b, a, Others(b, a, cases), field);
    assert Changed(b, a, track);
  }

  lemma WatchedWholeReported(b: Values, a: Values, cases: seq<Case>, r: Comparison, track: string, field: string)
    requires IsComparison(b, a, cases, r) && Differs(b, a, track, field) && WatchedWhole(cases, track, field)
    ensures ByItem(r, track, field)
  {
    var i, j :| 0 <= i < |cases| && 0 <= j < |cases[i].items| &&
      var item := cases[i].items[j];
      item.section == "ET" && item.entity == track && item.field == field && Member(item).None?;
    assert IsCaseOutcome(b, a, cases[i], r.cases[i]);
    var o := r.cases[i].items[j];
    assert o == OutcomeOf(b, a, cases[i].items[j]);
    ClassifyMeans(o.before, o.after, o.rekordbox, IsSet(o.item));
  }

  lemma LeftToCaseReported(b: Values, a: Values, cases: seq<Case>, r: Comparison, track: string, field: string)
    requires IsComparison(b, a, cases, r) && Differs(b, a, track, field) && LeftToCase(cases, track, field)
    ensures ByCase(cases, r, track, field)
  {
    var i :| 0 <= i < |cases| && OnTrack(cases[i]) && cases[i].items[0].entity == track && field !in Watched(cases[i]);
    assert IsCaseOutcome(b, a, cases[i], r.cases[i]);
  }

  /** Where the cases cover their tracks, no change to any Engine track goes unreported. */
  lemma NothingIsLost(b: Values, a: Values, cases: seq<Case>, r: Comparison, track: string, field: string)
    requires IsComparison(b, a, cases, r) && Differs(b, a, track, field)
    requires track in Planted(cases) ==> Covered(cases, track, field)
    ensures Reported(b, a, cases, r, track, field)
  {
    DiffersIsKnown(b, a, track, field);
    if track in EntitiesOf(b, "ET") && (track in EntitiesOf(a, "ET") || track in Planted(cases)) {
      if track in Planted(cases) {
        if WatchedWhole(cases, track, field) {
          WatchedWholeReported(b, a, cases, r, track, field);
        } else {
          LeftToCaseReported(b, a, cases, r, track, field);
        }
      } else {
        OthersReported(b, a, cases, r, track, field);
      }
    }
  }

  // ----- and where it does lose a change

  /** A value no item's element can be: longer than all of them, and one element itself. */
  function Fresh(n: nat): (s: string)
    ensures |s| == n + 1 && Free(s, '\t')
  {
    seq(n + 1, i => 'x')
  }

  function LongestMode(cases: seq<Case>): (n: nat)
    ensures forall i, j :: 0 <= i < |cases| && 0 <= j < |cases[i].items| ==> |cases[i].items[j].mode| <= n
  {
    if cases == [] then 0
    else
      var front, last := LongestMode(cases[..|cases| - 1]), LongestOf(cases[|cases| - 1].items);
      assert forall i :: 0 <= i < |cases| - 1 ==> cases[i] == cases[..|cases| - 1][i];
      if front < last then last else front
  }

  function LongestOf(items: seq<Item>): (n: nat)
    ensures forall j :: 0 <= j < |items| ==> |items[j].mode| <= n
  {
    if items == [] then 0
    else
      var front, last := LongestOf(items[..|items| - 1]), |items[|items| - 1].mode|;
      if front < last then last else front
  }

  lemma SetOfFresh(n: nat)
    ensures SetOf(Fresh(n)) == {Fresh(n)} && SetOf("") == {}
  {
    CutCons(Fresh(n), '\t', "");
  }

  /** Two records that differ in one field of one track, from empty to a value no item watches for. */
  function OneFieldBefore(track: string, field: string): Values {
    map[Key("ET", track, field) := ""]
  }

  function OneFieldAfter(cases: seq<Case>, track: string, field: string): Values {
    map[Key("ET", track, field) := Fresh(LongestMode(cases))]
  }

  lemma UnwatchedItemKept(cases: seq<Case>, track: string, field: string, i: nat, j: nat)
    requires i < |cases| && j < |cases[i].items|
    requires !WatchedWhole(cases, track, field)
    ensures var item := cases[i].items[j];
            item.section == "ET" && item.entity == track && item.field == field ==>
              OutcomeOf(OneFieldBefore(track, field), OneFieldAfter(cases, track, field), item).verdict == Kept
  {
    var item := cases[i].items[j];
    if item.section == "ET" && item.entity == track && item.field == field {
      SetOfFresh(LongestMode(cases));
      assert Member(item).Some?;
      assert |Member(item).value| < |Fresh(LongestMode(cases))|;
    }
  }

  /** A field that is not covered can change without a trace. */
  lemma UncoveredIsLost(cases: seq<Case>, track: string, field: string, r: Comparison)
    requires track in Planted(cases) && !Covered(cases, track, field)
    requires IsComparison(OneFieldBefore(track, field), OneFieldAfter(cases, track, field), cases, r)
    ensures Differs(OneFieldBefore(track, field), OneFieldAfter(cases, track, field), track, field)
    ensures !Reported(OneFieldBefore(track, field), OneFieldAfter(cases, track, field), cases, r, track, field)
  {
    var b, a := OneFieldBefore(track, field), OneFieldAfter(cases, track, field);
    var key := Key("ET", track, field);
    assert key in b && key in a && b[key] != a[key];
    assert track in EntitiesOf(b, "ET") && track in EntitiesOf(a, "ET");
    forall i, j | 0 <= i < |r.cases| && 0 <= j < |r.cases[i].items|
      ensures var o := r.cases[i].items[j];
              o.item.section == "ET" && o.item.entity == track && o.item.field == field ==> o.verdict == Kept
    {
      assert IsCaseOutcome(b, a, cases[i], r.cases[i]);
      UnwatchedItemKept(cases, track, field, i, j);
    }
    forall i | 0 <= i < |cases| && OnTrack(cases[i]) && cases[i].items[0].entity == track
      ensures !HasChange(r.cases[i].alsoChanged, field)
    {
      assert IsCaseOutcome(b, a, cases[i], r.cases[i]);
      assert field in Watched(cases[i]);
    }
  }

  /** Whether, comparing with these cases, no change to an Engine track can ever go unreported. */
  ghost predicate NeverLoses(cases: seq<Case>) {
    forall b: Values, a: Values, r, track, field ::
      IsComparison(b, a, cases, r) && Differs(b, a, track, field) ==> Reported(b, a, cases, r, track, field)
  }

  /** A case's outcome when nothing on its track changed but what it watches. */
  ghost function BlandOutcome(b: Values, a: Values, c: Case): CaseOutcome {
    CaseOutcome(c, seq(|c.items|, j requires 0 <= j < |c.items| => OutcomeOf(b, a, c.items[j])), [])
  }

  lemma BlandIsOutcome(b: Values, a: Values, c: Case)
    requires OnTrack(c) ==> forall f :: Differs(b, a, c.items[0].entity, f) ==> f in Watched(c)
    ensures IsCaseOutcome(b, a, c, BlandOutcome(b, a, c))
  {
  }

  /** The comparison of the two records that differ in one field no case covers. */
  lemma UncoveredComparison(cases: seq<Case>, track: string, field: string) returns (r: Comparison)
    requires track in Planted(cases) && !Covered(cases, track, field)
    ensures IsComparison(OneFieldBefore(track, field), OneFieldAfter(cases, track, field), cases, r)
  {
    var b, a := OneFieldBefore(track, field), OneFieldAfter(cases, track, field);
    OneFieldApart(cases, track, field);
    var outcomes := UncoveredOutcomes(cases, track, field);
    var counts := VerdictCounts(outcomes);
    forall v
      ensures CountIn(counts, v) == CountVerdicts(outcomes, v)
    {
      VerdictCountsCount(outcomes, v);
    }
    NothingElseChanged(cases, track, field);
    r := Comparison(outcomes, counts, CountNotPlanted(outcomes), [], [], map[], {});
  }

  lemma UncoveredOutcomes(cases: seq<Case>, track: string, field: string) returns (outcomes: seq<CaseOutcome>)
    requires !Covered(cases, track, field)
    ensures AreOutcomes(OneFieldBefore(track, field), OneFieldAfter(cases, track, field), cases, outcomes)
  {
    var b, a := OneFieldBefore(track, field), OneFieldAfter(cases, track, field);
    OneFieldApart(cases, track, field);
    outcomes := seq(|cases|, i requires 0 <= i < |cases| => BlandOutcome(b, a, cases[i]));
    forall i | 0 <= i < |cases|
      ensures IsCaseOutcome(b, a, cases[i], outcomes[i])
    {
      assert OnTrack(cases[i]) && cases[i].items[0].entity == track ==> field in Watched(cases[i]);
      BlandIsOutcome(b, a, cases[i]);
    }
  }

  function VerdictCounts(outcomes: seq<CaseOutcome>): map<Verdict, nat> {
    map[Kept := CountVerdicts(outcomes, Kept), Overwritten := CountVerdicts(outcomes, Overwritten),
        Deleted := CountVerdicts(outcomes, Deleted), Added := CountVerdicts(outcomes, Added),
        Merged := CountVerdicts(outcomes, Merged)]
  }

  lemma VerdictCountsCount(outcomes: seq<CaseOutcome>, v: Verdict)
    ensures CountIn(VerdictCounts(outcomes), v) == CountVerdicts(outcomes, v)
  {
    match v
    case Kept =>
    case Overwritten =>
    case Deleted =>
    case Added =>
    case Merged =>
  }

  lemma NothingElseChanged(cases: seq<Case>, track: string, field: string)
    requires track in Planted(cases)
    ensures var b, a := OneFieldBefore(track, field), OneFieldAfter(cases, track, field);
            Others(b, a, cases) == {} && forall f :: |ChangedIn(b, a, Others(b, a, cases), f)| == 0
  {
    var b, a := OneFieldBefore(track, field), OneFieldAfter(cases, track, field);
    OneFieldApart(cases, track, field);
    forall f
      ensures |ChangedIn(b, a, Others(b, a, cases), f)| == 0
    {
      assert ChangedIn(b, a, Others(b, a, cases), f) == {};
    }
  }

  /** The two records hold one track, and differ in its one field. */
  lemma OneFieldApart(cases: seq<Case>, track: string, field: string)
    ensures var b, a := OneFieldBefore(track, field), OneFieldAfter(cases, track, field);
            && EntitiesOf(b, "ET") == {track} == EntitiesOf(a, "ET")
            && forall t, f :: Differs(b, a, t, f) <==> t == track && f == field
  {
    var b, a := OneFieldBefore(track, field), OneFieldAfter(cases, track, field);
    var key := Key("ET", track, field);
    assert key in b && key in a && b[key] != a[key];
  }

  /**
   The comparison loses no Engine-track change, whatever the records, exactly when the cases cover
   the tracks they are about.
   */
  lemma LosesNothingIff(cases: seq<Case>)
    ensures NeverLoses(cases) <==> CasesCover(cases)
  {
    if CasesCover(cases) {
      forall b: Values, a: Values, r, track, field | IsComparison(b, a, cases, r) && Differs(b, a, track, field)
        ensures Reported(b, a, cases, r, track, field)
      {
        NothingIsLost(b, a, cases, r, track, field);
      }
    }
    if NeverLoses(cases) {
      forall track, field | track in Planted(cases)
        ensures Covered(cases, track, field)
      {
        if !Covered(cases, track, field) {
          var r := UncoveredComparison(cases, track, field);
          UncoveredIsLost(cases, track, field, r);
        }
      }
    }
  }

  /** Cases each about one track, every item of it watching a whole field, cover their tracks. */
  lemma OneTrackCasesCover(cases: seq<Case>)
    requires forall i, j :: 0 <= i < |cases| && 0 <= j < |cases[i].items| && cases[i].items[j].section == "ET" ==>
               && Member(cases[i].items[j]).None?
               && OnTrack(cases[i]) && cases[i].items[j].entity == cases[i].items[0].entity
    ensures CasesCover(cases)
  {
    forall track, field | track in Planted(cases)
      ensures Covered(cases, track, field)
    {
      var i, j :| 0 <= i < |cases| && 0 <= j < |cases[i].items| &&
        cases[i].items[j].section == "ET" && cases[i].items[j].entity == track;
      assert OnTrack(cases[i]) && cases[i].items[0].entity == track;
      if field in Watched(cases[i]) {
        var k :| 0 <= k < |cases[i].items| && cases[i].items[k].section == "ET" && cases[i].items[k].field == field;
        assert Member(cases[i].items[k]).None?;
        assert WatchedWhole(cases, track, field);
      }
    }
  }

  // ----- the totals

  function Total(outcomes: seq<CaseOutcome>): nat {
    CountVerdicts(outcomes, Kept) + CountVerdicts(outcomes, Overwritten) + CountVerdicts(outcomes, Deleted) +
    CountVerdicts(outcomes, Added) + CountVerdicts(outcomes, Merged)
  }

  lemma {:induction false} EveryCaseIsCounted(outcomes: seq<CaseOutcome>)
    ensures Total(outcomes) + CountNotPlanted(outcomes) == |outcomes|
  {
    if outcomes != [] {
      EveryCaseIsCounted(outcomes[..|outcomes| - 1]);
    }
  }

  /** The counted verdicts and the cases not planted add up to the cases. */
  lemma TotalsAddUp(b: Values, a: Values, cases: seq<Case>, r: Comparison)
    requires IsComparison(b, a, cases, r)
    ensures CountIn(r.counts, Kept) + CountIn(r.counts, Overwritten) + CountIn(r.counts, Deleted) +
            CountIn(r.counts, Added) + CountIn(r.counts, Merged) + r.notPlanted == |cases|
  {
    EveryCaseIsCounted(r.cases);
  }

  /** A case that was planted and whose first item has a verdict. */
  ghost predicate CountsAs(b: Values, a: Values, c: Case, v: Verdict) {
    c.status != "not planted" && c.items != [] && OutcomeOf(b, a, c.items[0]).verdict == v
  }

  ghost function Where(cases: seq<Case>, p: Case -> bool): set<int> {
    set i | 0 <= i < |cases| && p(cases[i])
  }

  ghost function CasesOf(b: Values, a: Values, cases: seq<Case>, v: Verdict): set<int> {
    Where(cases, c => CountsAs(b, a, c, v))
  }

  lemma OneCaseMore(cases: seq<Case>, p: Case -> bool)
    requires cases != []
    ensures var n := |cases| - 1;
            |Where(cases, p)| == |Where(cases[..n], p)| + if p(cases[n]) then 1 else 0
  {
    var n := |cases| - 1;
    var front := Where(cases[..n], p);
    assert Where(cases, p) == if p(cases[n]) then front + {n} else front;
  }

  lemma CountedMeans(b: Values, a: Values, c: Case, o: CaseOutcome, v: Verdict)
    requires IsCaseOutcome(b, a, c, o)
    ensures Counted(o) && VerdictOf(o) == v <==> CountsAs(b, a, c, v)
  {
  }

  lemma {:induction false} CountIsOfCases(b: Values, a: Values, cases: seq<Case>, outcomes: seq<CaseOutcome>,
                                          v: Verdict)
    requires AreOutcomes(b, a, cases, outcomes)
    ensures CountVerdicts(outcomes, v) == |CasesOf(b, a, cases, v)|
  {
    if cases != [] {
      var n := |cases| - 1;
      CountIsOfCases(b, a, cases[..n], outcomes[..n], v);
      CountedMeans(b, a, cases[n], outcomes[n], v);
      OneCaseMore(cases, c => CountsAs(b, a, c, v));
    }
  }

  /** The count of a verdict is the number of planted cases whose first item has it. */
  lemma CountsAreOfCases(b: Values, a: Values, cases: seq<Case>, r: Comparison, v: Verdict)
    requires IsComparison(b, a, cases, r)
    ensures CountIn(r.counts, v) == |CasesOf(b, a, cases, v)|
  {
    CountIsOfCases(b, a, cases, r.cases, v);
  }

  /** And an item is reported as merged exactly when it is, by both sides' values. */
  lemma MergesAreReported(b: Values, a: Values, cases: seq<Case>, r: Comparison, i: nat, j: nat)
    requires IsComparison(b, a, cases, r) && i < |cases| && j < |cases[i].items|
    ensures var item := cases[i].items[j];
            var other := if item.section == "ET" then ItemValue(b, item, "RT")
                         else if item.section == "EP" then ItemValue(b, item, "RP") else None;
            r.cases[i].items[j].verdict == Merged <==>
            IsMerge(ItemValue(b, item, item.section), ItemValue(a, item, item.section), other, item.mode == "set")
  {
    assert IsCaseOutcome(b, a, cases[i], r.cases[i]);
    SidesOf(b, a, cases[i].items[j]);
  }

  /** A record has a field of the Engine track. */
  ghost predicate Has(values: Values, track: string) {
    exists f :: ValueOf(values, "ET", track, f).Some?
  }

  ghost predicate SomeItemOn(cases: seq<Case>, track: string) {
    exists i, j :: 0 <= i < |cases| && 0 <= j < |cases[i].items| &&
      cases[i].items[j].section == "ET" && cases[i].items[j].entity == track
  }

  ghost predicate Watches(c: Case, field: string) {
    exists j :: 0 <= j < |c.items| && c.items[j].section == "ET" && c.items[j].field == field
  }

  lemma HasIsEntity(values: Values, track: string)
    ensures Has(values, track) <==> track in EntitiesOf(values, "ET")
  {
    if Has(values, track) {
      var f :| ValueOf(values, "ET", track, f).Some?;
      assert Key("ET", track, f) in values;
    }
    if track in EntitiesOf(values, "ET") {
      var k :| k in values && k.section == "ET" && k.entity == track;
      assert ValueOf(values, "ET", track, k.field).Some?;
    }
  }

  /** Outside the cases: tracks only one record has, and those both have and a field of which differs. */
  lemma TracksMean(b: Values, a: Values, cases: seq<Case>, r: Comparison, track: string)
    requires IsComparison(b, a, cases, r)
    ensures track in r.added <==> !Has(b, track) && Has(a, track)
    ensures track in r.removed <==> Has(b, track) && !Has(a, track) && !SomeItemOn(cases, track)
    ensures track in r.touched <==>
            && Has(b, track) && Has(a, track) && !SomeItemOn(cases, track)
            && exists f :: ValueOf(b, "ET", track, f) != ValueOf(a, "ET", track, f)
  {
    HasIsEntity(b, track);
    HasIsEntity(a, track);
    assert SomeItemOn(cases, track) <==> track in Planted(cases);
    assert Changed(b, a, track) <==> exists f :: ValueOf(b, "ET", track, f) != ValueOf(a, "ET", track, f) by {
      assert forall f :: Differs(b, a, track, f) <==> ValueOf(b, "ET", track, f) != ValueOf(a, "ET", track, f);
    }
  }

  /** Each field with how many of the latter differ in it. */
  lemma ChangesMean(b: Values, a: Values, cases: seq<Case>, r: Comparison, field: string)
    requires IsComparison(b, a, cases, r)
    ensures CountIn(r.changes, field) ==
            |set t | t in r.touched && ValueOf(b, "ET", t, field) != ValueOf(a, "ET", t, field)|
  {
    var differ := set t | t in r.touched && ValueOf(b, "ET", t, field) != ValueOf(a, "ET", t, field);
    forall t
      ensures t in differ <==> t in ChangedIn(b, a, Others(b, a, cases), field)
    {
      assert Differs(b, a, t, field) ==> Changed(b, a, t);
    }
    assert differ == ChangedIn(b, a, Others(b, a, cases), field);
  }

  /** What also changed: the differing fields of the first item's track that no item watches on any track. */
  lemma AlsoChangedMeans(b: Values, a: Values, cases: seq<Case>, r: Comparison, i: nat, field: string)
    requires IsComparison(b, a, cases, r) && i < |cases|
    ensures HasChange(r.cases[i].alsoChanged, field) <==>
            && cases[i].items != [] && cases[i].items[0].section == "ET" && !Watches(cases[i], field)
            && var track := cases[i].items[0].entity;
               ValueOf(b, "ET", track, field) != ValueOf(a, "ET", track, field)
  {
    assert IsCaseOutcome(b, a, cases[i], r.cases[i]);
    assert Watches(cases[i], field) <==> field in Watched(cases[i]);
    if cases[i].items != [] && cases[i].items[0].section == "ET" {
      assert Differs(b, a, cases[i].items[0].entity, field) <==>
             ValueOf(b, "ET", cases[i].items[0].entity, field) != ValueOf(a, "ET", cases[i].items[0].entity, field);
    }
  }

  /** A record set against itself reports nothing. */
  lemma SelfComparisonIsQuiet(values: Values, cases: seq<Case>, r: Comparison)
    requires IsComparison(values, values, cases, r)
    ensures forall i, j :: 0 <= i < |r.cases| && 0 <= j < |r.cases[i].items| ==> r.cases[i].items[j].verdict == Kept
    ensures forall i :: 0 <= i < |r.cases| ==> r.cases[i].alsoChanged == []
    ensures forall t :: t !in r.added && t !in r.removed && t !in r.touched
    ensures forall f :: CountIn(r.changes, f) == 0
  {
    forall i, j | 0 <= i < |r.cases| && 0 <= j < |r.cases[i].items|
      ensures r.cases[i].items[j].verdict == Kept
    {
      assert IsCaseOutcome(values, values, cases[i], r.cases[i]);
      assert r.cases[i].items[j] == OutcomeOf(values, values, cases[i].items[j]);
    }
    forall i | 0 <= i < |r.cases|
      ensures r.cases[i].alsoChanged == []
    {
      assert IsCaseOutcome(values, values, cases[i], r.cases[i]);
      var changes := r.cases[i].alsoChanged;
      if OnTrack(cases[i]) {
        assert changes != [] ==> Differs(values, values, cases[i].items[0].entity, changes[0].field);
      }
    }
    assert forall t :: !Changed(values, values, t);
    assert forall t :: t !in r.added && t !in r.removed && t !in r.touched;
    forall f
      ensures CountIn(r.changes, f) == 0
    {
      assert ChangedIn(values, values, Others(values, values, cases), f) == {};
    }
  }

  // ----- cases that lose a change

  /** A case that watches one field of two tracks: the second track's other fields are nobody's. */
  lemma SecondTrackIsNotCovered(c: Case)
    requires c.items == [Item("ET", "a", "title", "value"), Item("ET", "b", "title", "value")]
    ensures !CasesCover([c]) && !NeverLoses([c])
  {
    assert [c][0].items[1].section == "ET" && [c][0].items[1].entity == "b";
    assert "b" in Planted([c]);
    assert "artist" != "title" by { assert "artist"[0] != "title"[0]; }
    assert !Covered([c], "b", "artist");
    LosesNothingIff([c]);
  }
}
