/**
 Comparing two records: `classify`, and of `compareRecords` the planted cases and the Engine
 tracks outside them.
 */
module Comparer {
  import opened FieldText
  import opened Options
  import opened Records
  import opened CaseFile

  // ----- one item

  datatype Verdict = Kept | Overwritten | Deleted | Added | Merged

  predicate IsSet(item: Item) {
    item.mode == "set"
  }

  /** The element a "member:" item watches for. */
  function Member(item: Item): Option<string> {
    if |item.mode| >= 7 && item.mode[..7] == "member:" then Some(item.mode[7..]) else None
  }

  /** The section that holds the same thing on the rekordbox side, if any does. */
  function RekordboxSection(section: string): string {
    if section == "ET" then "RT" else if section == "EP" then "RP" else ""
  }

  function Classify(before: Option<string>, after: Option<string>, rekordbox: Option<string>, isSet: bool): Verdict {
    if before == after then Kept
    else if before.None? then Added
    else if after.None? then Deleted
    else if isSet then
      var b, a := SetOf(before.value), SetOf(after.value);
      var r := if rekordbox.Some? then SetOf(rekordbox.value) else {};
      if a == r then Overwritten else if a == b + r then Merged else Overwritten
    else Overwritten
  }

  /** Both sides are there and differ, and what is there now is all of both, and not the rekordbox side alone. */
  predicate IsMerge(before: Option<string>, after: Option<string>, rekordbox: Option<string>, isSet: bool) {
    && isSet && before.Some? && after.Some? && before != after
    && var other := if rekordbox.Some? then SetOf(rekordbox.value) else {};
       SetOf(after.value) == SetOf(before.value) + other != other
  }

  /** What each verdict says of what was there and what is there now. */
  lemma ClassifyMeans(before: Option<string>, after: Option<string>, rekordbox: Option<string>, isSet: bool)
    ensures var v := Classify(before, after, rekordbox, isSet);
            && (v == Kept <==> before == after)
            && (v == Added <==> before.None? && after.Some?)
            && (v == Deleted <==> before.Some? && after.None?)
            && (v == Merged <==> IsMerge(before, after, rekordbox, isSet))
            && (v == Overwritten <==>
                  before.Some? && after.Some? && before != after && !IsMerge(before, after, rekordbox, isSet))
  {
  }

  /** A set that took in the other side's element was merged. */
  lemma TookIn(a: string, b: string)
    requires a != "" && b != "" && a != b && Free(a, '\t') && Free(b, '\t')
    ensures Classify(Some(a), Some(a + "\t" + b), Some(b), true) == Merged
  {
    CutCons(a, '\t', b);
    CutCons(b, '\t', "");
    assert |a + "\t" + b| > |a|;
    assert a in SetOf(a + "\t" + b);
    assert SetOf(a) == {a} && SetOf(b) == {b} && SetOf(a + "\t" + b) == {a, b};
  }

  ghost function ItemValue(values: Values, item: Item, section: string): Option<string> {
    var value := ValueOf(values, section, item.entity, item.field);
    if Member(item).Some? then
      if value.Some? && Member(item).value in SetOf(value.value) then Some("member") else None
    else value
  }

  method FindItemValue(record: Record, item: Item, section: string) returns (value: Option<string>)
    requires record.Valid()
    ensures value == ItemValue(record.Contents(), item, section)
  {
    value := record.Get(section, item.entity, item.field);
    var element := Member(item);
    if element.Some? {
      if value.Some? {
        var elements := SplitSet(value.value);
        if element.value in elements {
          return Some("member");
        }
      }
      return None;
    }
  }

  datatype ItemOutcome = ItemOutcome(item: Item, before: Option<string>, after: Option<string>,
                                     rekordbox: Option<string>, oneLibrary: Option<string>, verdict: Verdict)

  ghost function OutcomeOf(b: Values, a: Values, item: Item): ItemOutcome {
    var was, isNow := ItemValue(b, item, item.section), ItemValue(a, item, item.section);
    var other := RekordboxSection(item.section);
    var rekordbox := if other == "" then None else ItemValue(b, item, other);
    ItemOutcome(item, was, isNow, rekordbox,
                if item.section == "ET" then ItemValue(b, item, "RO") else None,
                Classify(was, isNow, rekordbox, IsSet(item)))
  }

  /** The sides an item is judged by: its own section before and after, and the other catalog's before. */
  lemma SidesOf(b: Values, a: Values, item: Item)
    ensures var o := OutcomeOf(b, a, item);
            && o.before == ItemValue(b, item, item.section) && o.after == ItemValue(a, item, item.section)
            && (item.section == "ET" ==>
                  o.rekordbox == ItemValue(b, item, "RT") && o.oneLibrary == ItemValue(b, item, "RO"))
            && (item.section == "EP" ==> o.rekordbox == ItemValue(b, item, "RP") && o.oneLibrary == None)
            && (item.section != "ET" && item.section != "EP" ==> o.rekordbox == None && o.oneLibrary == None)
            && (o.verdict == Merged <==> IsMerge(o.before, o.after, o.rekordbox, item.mode == "set"))
  {
    var o := OutcomeOf(b, a, item);
    ClassifyMeans(o.before, o.after, o.rekordbox, IsSet(item));
  }

  /** What an item watches: a whole field, or whether one element is in a set. */
  lemma ValueOfItem(values: Values, item: Item, element: string)
    ensures (item.mode == "value" || item.mode == "set") ==>
              ItemValue(values, item, item.section) == ValueOf(values, item.section, item.entity, item.field)
    ensures item.mode == "member:" + element ==>
              var value := ValueOf(values, item.section, item.entity, item.field);
              ItemValue(values, item, item.section).Some? <==> value.Some? && element in SetOf(value.value)
  {
    assert ("member:" + element)[7..] == element && ("member:" + element)[..7] == "member:";
    assert item.mode == "member:" + element ==> Member(item) == Some(element);
  }

  method CompareItem(before: Record, after: Record, item: Item) returns (o: ItemOutcome)
    requires before.Valid() && after.Valid()
    ensures o == OutcomeOf(before.Contents(), after.Contents(), item)
  {
    var was := FindItemValue(before, item, item.section);
    var isNow := FindItemValue(after, item, item.section);
    var rekordbox, oneLibrary: Option<string> := None, None;
    if RekordboxSection(item.section) != "" {
      rekordbox := FindItemValue(before, item, RekordboxSection(item.section));
    }
    if item.section == "ET" {
      oneLibrary := FindItemValue(before, item, "RO");
    }
    o := ItemOutcome(item, was, isNow, rekordbox, oneLibrary, Classify(was, isNow, rekordbox, IsSet(item)));
  }

  // ----- one track

  /** A field of an Engine track that is not what it was. */
  ghost predicate Differs(b: Values, a: Values, track: string, field: string) {
    ValueOf(b, "ET", track, field) != ValueOf(a, "ET", track, field)
  }

  datatype Change = Change(field: string, before: Option<string>, after: Option<string>)

  ghost predicate FieldsAscend(changes: seq<Change>) {
    forall i, j :: 0 <= i < j < |changes| ==> Before(changes[i].field, changes[j].field)
  }

  /** The differing fields of a track outside a set, in order, with what they were and are. */
  ghost predicate AreChanges(b: Values, a: Values, track: string, skip: set<string>, changes: seq<Change>) {
    && FieldsAscend(changes)
    && (forall i :: 0 <= i < |changes| ==>
          var f := changes[i].field;
          && f !in skip && Differs(b, a, track, f)
          && changes[i] == Change(f, ValueOf(b, "ET", track, f), ValueOf(a, "ET", track, f)))
    && (forall f :: Differs(b, a, track, f) && f !in skip ==> HasChange(changes, f))
  }

  ghost predicate HasChange(changes: seq<Change>, field: string) {
    exists i :: 0 <= i < |changes| && changes[i].field == field
  }

  ghost predicate StringsAscend(q: seq<string>) {
    forall i, j :: 0 <= i < j < |q| ==> Before(q[i], q[j])
  }

  /** The elements of a std::set in the order it is walked. */
  method InOrder(s: set<string>) returns (q: seq<string>)
    ensures StringsAscend(q)
    ensures forall e :: e in s <==> e in q
  {
    q := [];
    var left := s;
    while left != {}
      invariant left <= s && StringsAscend(q)
      invariant forall e :: e in s <==> e in q || e in left
      invariant forall e :: e in left ==> e !in q
      decreases left
    {
      var e :| e in left;
      q := InsertInOrder(q, e);
      left := left - {e};
    }
  }

  method InsertInOrder(q: seq<string>, e: string) returns (r: seq<string>)
    requires StringsAscend(q) && e !in q
    ensures StringsAscend(r)
    ensures forall x :: x in r <==> x == e || x in q
  {
    var k := |q|;
    while k > 0 && Before(e, q[k - 1])
      invariant 0 <= k <= |q|
      invariant forall i :: k <= i < |q| ==> Before(e, q[i])
    {
      k := k - 1;
    }
    InsertedAscends(q, k, e);
    r := q[..k] + [e] + q[k..];
    assert q == q[..k] + q[k..];
  }

  lemma InsertedAscends(q: seq<string>, k: nat, e: string)
    requires StringsAscend(q) && e !in q && k <= |q|
    requires k > 0 ==> !Before(e, q[k - 1])
    requires forall i :: k <= i < |q| ==> Before(e, q[i])
    ensures StringsAscend(q[..k] + [e] + q[k..])
  {
    forall i | 0 <= i < k
      ensures Before(q[i], e)
    {
      BeforeIsAnOrder(q[k - 1], e, e);
      BeforeIsAnOrder(q[i], q[k - 1], e);
    }
    var r := q[..k] + [e] + q[k..];
    forall i, j | 0 <= i < j < |r|
      ensures Before(r[i], r[j])
    {
      assert i < k ==> r[i] == q[i];
      assert j > k ==> r[j] == q[j - 1];
      assert i > k ==> r[i] == q[i - 1];
    }
  }

  /** The changes among the names looked at so far. */
  ghost predicate Collected(b: Values, a: Values, track: string, skip: set<string>,
                            names: seq<string>, changes: seq<Change>)
  {
    && FieldsAscend(changes)
    && (forall k :: 0 <= k < |changes| ==>
          var f := changes[k].field;
          && f !in skip && Differs(b, a, track, f) && f in names
          && changes[k] == Change(f, ValueOf(b, "ET", track, f), ValueOf(a, "ET", track, f)))
    && (forall f :: f in names && Differs(b, a, track, f) && f !in skip ==> HasChange(changes, f))
  }

  /** One more name looked at: a change, unless the name is skipped or the values agree. */
  function WithChange(changes: seq<Change>, skip: set<string>, name: string,
                      before: Option<string>, after: Option<string>): seq<Change>
  {
    if name !in skip && before != after then changes + [Change(name, before, after)] else changes
  }

  lemma CollectOne(b: Values, a: Values, track: string, skip: set<string>,
                   names: seq<string>, i: nat, changes: seq<Change>)
    requires i < |names| && StringsAscend(names)
    requires Collected(b, a, track, skip, names[..i], changes)
    ensures var was, isNow := ValueOf(b, "ET", track, names[i]), ValueOf(a, "ET", track, names[i]);
            var more := WithChange(changes, skip, names[i], was, isNow);
            Collected(b, a, track, skip, names[..i + 1], more)
  {
    var front, name := names[..i], names[i];
    var more := WithChange(changes, skip, name, ValueOf(b, "ET", track, name), ValueOf(a, "ET", track, name));
    assert names[..i + 1] == front + [name];
    assert forall f :: f in front ==> Before(f, name);
    forall f | f in front + [name] && Differs(b, a, track, f) && f !in skip
      ensures HasChange(more, f)
    {
      HasChangeAfter(changes, more, f);
      if f !in front {
        assert more[|changes|].field == name;
      }
    }
  }

  lemma HasChangeAfter(changes: seq<Change>, more: seq<Change>, f: string)
    requires changes <= more
    ensures HasChange(changes, f) ==> HasChange(more, f)
  {
    if HasChange(changes, f) {
      var k :| 0 <= k < |changes| && changes[k].field == f;
      assert more[k].field == f;
    }
  }

  function Looked(fields: map<string, string>, f: string): Option<string> {
    if f in fields then Some(fields[f]) else None
  }

  lemma LookedIsValue(values: Values, track: string, f: string)
    ensures Looked(FieldsOf(values, "ET", track), f) == ValueOf(values, "ET", track, f)
  {
    FieldsOfIs(values, "ET", track, f);
  }

  lemma CollectedAll(b: Values, a: Values, track: string, skip: set<string>, names: seq<string>, changes: seq<Change>)
    requires Collected(b, a, track, skip, names, changes)
    requires forall f :: f in FieldsOf(b, "ET", track) || f in FieldsOf(a, "ET", track) ==> f in names
    ensures AreChanges(b, a, track, skip, changes)
  {
    forall f | Differs(b, a, track, f)
      ensures f in names
    {
      LookedIsValue(b, track, f);
      LookedIsValue(a, track, f);
    }
  }

  method DifferingFields(before: Record, after: Record, track: string, skip: set<string>) returns (changes: seq<Change>)
    requires before.Valid() && after.Valid()
    ensures AreChanges(before.Contents(), after.Contents(), track, skip, changes)
  {
    ghost var bc, ac := before.Contents(), after.Contents();
    var b := before.Fields("ET", track);
    var a := after.Fields("ET", track);
    var names := InOrder(b.Keys + a.Keys);
    changes := [];
    for i := 0 to |names|
      invariant Collected(bc, ac, track, skip, names[..i], changes)
    {
      var name := names[i];
      LookedIsValue(bc, track, name);
      LookedIsValue(ac, track, name);
      CollectOne(bc, ac, track, skip, names, i, changes);
      changes := WithChange(changes, skip, name, Looked(b, name), Looked(a, name));
    }
    assert names[..|names|] == names;
    CollectedAll(bc, ac, track, skip, names, changes);
  }

  // ----- one case

  datatype CaseOutcome = CaseOutcome(planted: Case, items: seq<ItemOutcome>, alsoChanged: seq<Change>)

  predicate Counted(o: CaseOutcome) {
    o.planted.status != "not planted" && o.items != []
  }

  function VerdictOf(o: CaseOutcome): Verdict {
    if o.items == [] then Kept else o.items[0].verdict
  }

  /** The fields a case watches on any Engine track. */
  function Watched(c: Case): set<string> {
    set i | 0 <= i < |c.items| && c.items[i].section == "ET" :: c.items[i].field
  }

  /** A case about an Engine track, by its first item. */
  predicate OnTrack(c: Case) {
    c.items != [] && c.items[0].section == "ET"
  }

  ghost predicate IsCaseOutcome(b: Values, a: Values, c: Case, o: CaseOutcome) {
    && o.planted == c
    && |o.items| == |c.items|
    && (forall j :: 0 <= j < |c.items| ==> o.items[j] == OutcomeOf(b, a, c.items[j]))
    && (if OnTrack(c) then AreChanges(b, a, c.items[0].entity, Watched(c), o.alsoChanged) else o.alsoChanged == [])
  }

  method CompareCase(before: Record, after: Record, c: Case) returns (o: CaseOutcome)
    requires before.Valid() && after.Valid()
    ensures IsCaseOutcome(before.Contents(), after.Contents(), c, o)
  {
    var items: seq<ItemOutcome> := [];
    var watched: set<string> := {};
    for j := 0 to |c.items|
      invariant |items| == j
      invariant forall i :: 0 <= i < j ==> items[i] == OutcomeOf(before.Contents(), after.Contents(), c.items[i])
      invariant watched == set i | 0 <= i < j && c.items[i].section == "ET" :: c.items[i].field
    {
      if c.items[j].section == "ET" {
        watched := watched + {c.items[j].field};
      }
      var io := CompareItem(before, after, c.items[j]);
      items := items + [io];
    }
    var alsoChanged: seq<Change> := [];
    if c.items != [] && c.items[0].section == "ET" {
      alsoChanged := DifferingFields(before, after, c.items[0].entity, watched);
    }
    o := CaseOutcome(c, items, alsoChanged);
  }

  // ----- the whole comparison

  datatype Comparison = Comparison(cases: seq<CaseOutcome>, counts: map<Verdict, nat>, notPlanted: nat,
                                   added: seq<string>, removed: seq<string>,
                                   changes: map<string, nat>, touched: set<string>)

  function CountIn<T>(counts: map<T, nat>, key: T): nat {
    if key in counts then counts[key] else 0
  }

  function Bump<T>(counts: map<T, nat>, key: T): map<T, nat> {
    counts[key := CountIn(counts, key) + 1]
  }

  /** The tracks some item of a case is about. */
  function Planted(cases: seq<Case>): set<string> {
    set i, j | 0 <= i < |cases| && 0 <= j < |cases[i].items| && cases[i].items[j].section == "ET" ::
      cases[i].items[j].entity
  }

  function CountVerdicts(outcomes: seq<CaseOutcome>, v: Verdict): nat {
    if outcomes == [] then 0
    else
      var last := outcomes[|outcomes| - 1];
      CountVerdicts(outcomes[..|outcomes| - 1], v) + if Counted(last) && VerdictOf(last) == v then 1 else 0
  }

  function CountNotPlanted(outcomes: seq<CaseOutcome>): nat {
    if outcomes == [] then 0
    else CountNotPlanted(outcomes[..|outcomes| - 1]) + if Counted(outcomes[|outcomes| - 1]) then 0 else 1
  }

  /** The tracks both records hold and no case is about. */
  ghost function Others(b: Values, a: Values, cases: seq<Case>): set<string> {
    EntitiesOf(b, "ET") * EntitiesOf(a, "ET") - Planted(cases)
  }

  ghost function ChangedIn(b: Values, a: Values, tracks: set<string>, field: string): set<string> {
    set t | t in tracks && Differs(b, a, t, field)
  }

  ghost predicate Changed(b: Values, a: Values, track: string) {
    exists f :: Differs(b, a, track, f)
  }

  ghost predicate IsComparison(b: Values, a: Values, cases: seq<Case>, r: Comparison) {
    && |r.cases| == |cases|
    && (forall i :: 0 <= i < |cases| ==> IsCaseOutcome(b, a, cases[i], r.cases[i]))
    && (forall v :: CountIn(r.counts, v) == CountVerdicts(r.cases, v))
    && r.notPlanted == CountNotPlanted(r.cases)
    && StringsAscend(r.added) && StringsAscend(r.removed)
    && (forall t :: t in r.added <==> t in EntitiesOf(a, "ET") - EntitiesOf(b, "ET"))
    && (forall t :: t in r.removed <==> t in EntitiesOf(b, "ET") - EntitiesOf(a, "ET") - Planted(cases))
    && (forall f :: CountIn(r.changes, f) == |ChangedIn(b, a, Others(b, a, cases), f)|)
    && (forall t :: t in r.touched <==> t in Others(b, a, cases) && Changed(b, a, t))
  }
}
