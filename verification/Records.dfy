/**
 The probe's records: an ordered map from (section, entity, field) to a value, and its range scan,
 as engine_import_probe_compare.hpp has them.
 */
module Records {
  import opened Options

  datatype Key = Key(section: string, entity: string, field: string)

  datatype Entry = Entry(key: Key, value: string)

  type Values = map<Key, string>

  // ----- the order of the map

  predicate Before(a: string, b: string) {
    b != "" && (a == "" || a[0] < b[0] || (a[0] == b[0] && Before(a[1..], b[1..])))
  }

  lemma {:induction false} BeforeIsAnOrder(a: string, b: string, c: string)
    ensures !Before(a, a)
    ensures Before(a, b) || a == b || Before(b, a)
    ensures Before(a, b) && Before(b, c) ==> Before(a, c)
    decreases |a| + |b| + |c|
  {
    if a != "" && b != "" {
      if c != "" {
        BeforeIsAnOrder(a[1..], b[1..], c[1..]);
      } else {
        BeforeIsAnOrder(a[1..], b[1..], c);
      }
      assert a == [a[0]] + a[1..] && b == [b[0]] + b[1..];
    } else if a != "" {
      BeforeIsAnOrder(a[1..], b, c);
    }
  }

  /** The first place where two strings differ decides, and where there is none the shorter comes first. */
  ghost predicate Precedes(a: string, b: string) {
    exists k :: 0 <= k <= |a| && k < |b| && a[..k] == b[..k] && (k == |a| || a[k] < b[k])
  }

  lemma {:induction false} BeforeIsByFirstDifference(a: string, b: string)
    ensures Before(a, b) <==> Precedes(a, b)
  {
    if a != "" && b != "" && a[0] == b[0] {
      BeforeIsByFirstDifference(a[1..], b[1..]);
      if Before(a, b) {
        var k :| 0 <= k <= |a| - 1 && k < |b| - 1 && a[1..][..k] == b[1..][..k] &&
          (k == |a| - 1 || a[1..][k] < b[1..][k]);
        assert a[..k + 1] == [a[0]] + a[1..][..k] && b[..k + 1] == [b[0]] + b[1..][..k];
        assert k + 1 == |a| || a[k + 1] < b[k + 1];
      }
      if Precedes(a, b) {
        var k :| 0 <= k <= |a| && k < |b| && a[..k] == b[..k] && (k == |a| || a[k] < b[k]);
        assert k > 0;
        assert a[1..][..k - 1] == a[..k][1..] && b[1..][..k - 1] == b[..k][1..];
        assert Precedes(a[1..], b[1..]);
      }
    } else if Before(a, b) {
      assert a[..0] == b[..0];
    } else {
      forall k | 0 < k <= |a| && k < |b|
        ensures a[..k] != b[..k]
      {
        assert a[..k][0] != b[..k][0];
      }
    }
  }

  predicate KeyBefore(a: Key, b: Key) {
    Before(a.section, b.section) ||
    (a.section == b.section && (Before(a.entity, b.entity) || (a.entity == b.entity && Before(a.field, b.field))))
  }

  lemma KeyBeforeIsAnOrder(a: Key, b: Key, c: Key)
    ensures !KeyBefore(a, a)
    ensures KeyBefore(a, b) || a == b || KeyBefore(b, a)
    ensures KeyBefore(a, b) && KeyBefore(b, c) ==> KeyBefore(a, c)
  {
    BeforeIsAnOrder(a.section, b.section, c.section);
    BeforeIsAnOrder(a.entity, b.entity, c.entity);
    BeforeIsAnOrder(a.field, b.field, c.field);
  }

  /** The entries of a std::map: each key once, in order. */
  ghost predicate Ascending(entries: seq<Entry>) {
    forall i, j :: 0 <= i < j < |entries| ==> KeyBefore(entries[i].key, entries[j].key)
  }

  /** The map a sequence of entries spells out, later entries winning. */
  function ValuesOf(entries: seq<Entry>): Values {
    if entries == [] then map[]
    else ValuesOf(entries[..|entries| - 1])[entries[|entries| - 1].key := entries[|entries| - 1].value]
  }

  lemma {:induction false} ValuesAt(entries: seq<Entry>, key: Key)
    requires Ascending(entries)
    ensures key in ValuesOf(entries) <==> exists i :: 0 <= i < |entries| && entries[i].key == key
    ensures forall i :: 0 <= i < |entries| && entries[i].key == key ==> ValuesOf(entries)[key] == entries[i].value
  {
    if entries != [] {
      var front, last := entries[..|entries| - 1], entries[|entries| - 1];
      ValuesAt(front, key);
      KeyBeforeIsAnOrder(key, key, key);
      assert forall i :: 0 <= i < |front| ==> entries[i] == front[i];
      assert forall i :: 0 <= i < |front| ==> KeyBefore(front[i].key, last.key);
    }
  }

  lemma ValuesByEntry(entries: seq<Entry>, key: Key)
    requires Ascending(entries)
    ensures key in ValuesOf(entries) <==> exists x :: x in entries && x.key == key
    ensures forall x :: x in entries && x.key == key ==> ValuesOf(entries)[key] == x.value
  {
    ValuesAt(entries, key);
  }

  function Put(entries: seq<Entry>, n: nat, e: Entry): seq<Entry>
    requires n <= |entries|
  {
    if n < |entries| && entries[n].key == e.key then entries[n := e] else entries[..n] + [e] + entries[n..]
  }

  /** n is where a key belongs in the order. */
  ghost predicate Belongs(entries: seq<Entry>, n: nat, key: Key) {
    && n <= |entries|
    && (forall i :: 0 <= i < n ==> KeyBefore(entries[i].key, key))
    && (forall i :: n <= i < |entries| ==> !KeyBefore(entries[i].key, key))
  }

  lemma BelongsApart(entries: seq<Entry>, n: nat, key: Key, i: nat)
    requires Ascending(entries) && Belongs(entries, n, key) && i < |entries|
    ensures i < n ==> entries[i].key != key
    ensures n < i ==> KeyBefore(key, entries[i].key)
    ensures n == i && entries[n].key != key ==> KeyBefore(key, entries[i].key)
  {
    KeyBeforeIsAnOrder(key, key, key);
    KeyBeforeIsAnOrder(entries[i].key, key, key);
    if n < i {
      KeyBeforeIsAnOrder(entries[n].key, entries[i].key, key);
      KeyBeforeIsAnOrder(key, entries[n].key, entries[i].key);
    }
  }

  lemma PutKeepsOrder(entries: seq<Entry>, n: nat, e: Entry)
    requires Ascending(entries) && Belongs(entries, n, e.key)
    ensures Ascending(Put(entries, n, e))
  {
    forall i | 0 <= i < |entries|
      ensures n < i ==> KeyBefore(e.key, entries[i].key)
      ensures n == i && entries[n].key != e.key ==> KeyBefore(e.key, entries[i].key)
    {
      BelongsApart(entries, n, e.key, i);
    }
    var put := Put(entries, n, e);
    if |put| > |entries| {
      assert forall i :: n < i < |put| ==> put[i] == entries[i - 1];
    }
  }

  lemma PutSets(entries: seq<Entry>, n: nat, e: Entry)
    requires Ascending(entries) && Belongs(entries, n, e.key)
    ensures ValuesOf(Put(entries, n, e)) == ValuesOf(entries)[e.key := e.value]
  {
    var put := Put(entries, n, e);
    PutKeepsOrder(entries, n, e);
    forall k: Key
      ensures k in ValuesOf(put) <==> k in ValuesOf(entries) || k == e.key
      ensures k in ValuesOf(put) ==> ValuesOf(put)[k] == if k == e.key then e.value else ValuesOf(entries)[k]
    {
      ValuesByEntry(put, k);
      ValuesByEntry(entries, k);
      PutHolds(entries, n, e, k);
    }
  }

  /** What a put sequence holds: the new entry and, but for its key, every old one. */
  lemma PutHolds(entries: seq<Entry>, n: nat, e: Entry, k: Key)
    requires n <= |entries|
    ensures e in Put(entries, n, e)
    ensures forall x :: x in entries && x.key != e.key ==> x in Put(entries, n, e)
    ensures forall x :: x in Put(entries, n, e) && x.key != e.key ==> x in entries
  {
    var put := Put(entries, n, e);
    assert put[n] == e;
    if |put| == |entries| {
      forall x | x in entries && x.key != e.key
        ensures x in put
      {
        var j :| 0 <= j < |entries| && entries[j] == x;
        assert put[j] == x;
      }
    } else {
      assert entries == entries[..n] + entries[n..];
    }
  }

  // ----- one entity's fields

  /** Every (field, value) of one entity. */
  ghost function FieldsOf(values: Values, section: string, entity: string): map<string, string> {
    map k | k in values && k.section == section && k.entity == entity :: k.field := values[k]
  }

  ghost function EntitiesOf(values: Values, section: string): set<string> {
    set k | k in values && k.section == section :: k.entity
  }

  ghost function ValueOf(values: Values, section: string, entity: string, field: string): Option<string> {
    var key := Key(section, entity, field);
    if key in values then Some(values[key]) else None
  }

  lemma FieldsOfIs(values: Values, section: string, entity: string, field: string)
    ensures var fields := FieldsOf(values, section, entity);
            ValueOf(values, section, entity, field) == if field in fields then Some(fields[field]) else None
  {
    var key := Key(section, entity, field);
    assert key in values ==> key.field == field;
  }

  /** Past the first key of another entity there is no more of this one. */
  lemma PastTheRange(other: Key, key: Key, section: string, entity: string)
    requires other.section != section || other.entity != entity
    requires !KeyBefore(other, Key(section, entity, ""))
    requires other == key || KeyBefore(other, key)
    ensures key.section != section || key.entity != entity
  {
    BeforeIsAnOrder(other.section, section, other.section);
    BeforeIsAnOrder(other.entity, entity, other.entity);
  }

  /** The range scan stops at exactly the entries a filter would pick. */
  lemma ScanIsFilter(entries: seq<Entry>, section: string, entity: string, n: nat, i: nat, j: nat)
    requires Ascending(entries) && Belongs(entries, n, Key(section, entity, "")) && n <= i <= |entries| && j < |entries|
    requires i < |entries| ==> entries[i].key.section != section || entries[i].key.entity != entity
    ensures entries[j].key.section == section && entries[j].key.entity == entity ==> n <= j < i
  {
    if j < n {
      assert KeyBefore(entries[j].key, Key(section, entity, ""));
      BeforeIsAnOrder(section, section, section);
      BeforeIsAnOrder(entity, entity, entity);
    }
    if i <= j {
      PastTheRange(entries[i].key, entries[j].key, section, entity);
    }
  }

  lemma ScannedFields(entries: seq<Entry>, section: string, entity: string, n: nat, i: nat, out: map<string, string>)
    requires Ascending(entries) && Belongs(entries, n, Key(section, entity, "")) && n <= i <= |entries|
    requires i < |entries| ==> entries[i].key.section != section || entries[i].key.entity != entity
    requires forall j :: n <= j < i ==> entries[j].key.section == section && entries[j].key.entity == entity
    requires forall f :: f in out <==> exists j :: n <= j < i && entries[j].key.field == f
    requires forall j :: n <= j < i ==> entries[j].key.field in out && out[entries[j].key.field] == entries[j].value
    ensures out == FieldsOf(ValuesOf(entries), section, entity)
  {
    var values := ValuesOf(entries);
    forall f
      ensures (if f in out then Some(out[f]) else None) == ValueOf(values, section, entity, f)
    {
      ScannedField(entries, section, entity, n, i, f);
      if f in out {
        var j :| n <= j < i && entries[j].key.field == f;
      }
    }
    FieldsAre(values, section, entity, out);
  }

  lemma FieldsAre(values: Values, section: string, entity: string, out: map<string, string>)
    requires forall f :: (if f in out then Some(out[f]) else None) == ValueOf(values, section, entity, f)
    ensures out == FieldsOf(values, section, entity)
  {
    var fields := FieldsOf(values, section, entity);
    forall f: string
      ensures f in out <==> f in fields
      ensures f in out ==> out[f] == fields[f]
    {
      FieldsOfIs(values, section, entity, f);
    }
  }

  lemma ScannedField(entries: seq<Entry>, section: string, entity: string, n: nat, i: nat, f: string)
    requires Ascending(entries) && Belongs(entries, n, Key(section, entity, "")) && n <= i <= |entries|
    requires i < |entries| ==> entries[i].key.section != section || entries[i].key.entity != entity
    requires forall j :: n <= j < i ==> entries[j].key.section == section && entries[j].key.entity == entity
    ensures ValueOf(ValuesOf(entries), section, entity, f).Some? <==>
            exists j :: n <= j < i && entries[j].key.field == f
    ensures forall j :: n <= j < i && entries[j].key.field == f ==>
              ValueOf(ValuesOf(entries), section, entity, f) == Some(entries[j].value)
  {
    ValuesAt(entries, Key(section, entity, f));
    forall j | 0 <= j < |entries| && entries[j].key == Key(section, entity, f)
      ensures n <= j < i
    {
      ScanIsFilter(entries, section, entity, n, i, j);
    }
  }

  lemma EntitiesAreFilter(entries: seq<Entry>, section: string, out: set<string>)
    requires Ascending(entries)
    requires forall e :: e in out <==>
               exists j :: 0 <= j < |entries| && entries[j].key.section == section && entries[j].key.entity == e
    ensures out == EntitiesOf(ValuesOf(entries), section)
  {
    var values := ValuesOf(entries);
    forall e | e in out
      ensures e in EntitiesOf(values, section)
    {
      var j :| 0 <= j < |entries| && entries[j].key.section == section && entries[j].key.entity == e;
      ValuesAt(entries, entries[j].key);
    }
    forall e | e in EntitiesOf(values, section)
      ensures e in out
    {
      var k :| k in values && k.section == section && k.entity == e;
      ValuesAt(entries, k);
    }
  }

  class Record {
    var entries: seq<Entry>

    ghost predicate Valid()
      reads this
    {
      Ascending(entries)
    }

    ghost function Contents(): Values
      reads this
    {
      ValuesOf(entries)
    }

    constructor ()
      ensures Valid() && Contents() == map[]
    {
      entries := [];
    }

    /** The index of the first entry not before a key. */
    method LowerBound(key: Key) returns (n: nat)
      requires Valid()
      ensures Belongs(entries, n, key)
    {
      var lo, hi := 0, |entries|;
      while lo < hi
        invariant 0 <= lo <= hi <= |entries|
        invariant forall i :: 0 <= i < lo ==> KeyBefore(entries[i].key, key)
        invariant forall i :: hi <= i < |entries| ==> !KeyBefore(entries[i].key, key)
      {
        var mid := (lo + hi) / 2;
        forall i | 0 <= i < |entries|
          ensures i < mid && KeyBefore(entries[mid].key, key) ==> KeyBefore(entries[i].key, key)
          ensures mid < i && KeyBefore(entries[i].key, key) ==> KeyBefore(entries[mid].key, key)
        {
          KeyBeforeIsAnOrder(entries[i].key, entries[mid].key, key);
          KeyBeforeIsAnOrder(entries[mid].key, entries[i].key, key);
        }
        if KeyBefore(entries[mid].key, key) {
          lo := mid + 1;
        } else {
          hi := mid;
        }
      }
      n := lo;
    }

    method Set(section: string, entity: string, field: string, value: string)
      requires Valid()
      modifies this
      ensures Valid()
      ensures Contents() == old(Contents())[Key(section, entity, field) := value]
    {
      var key := Key(section, entity, field);
      var n := LowerBound(key);
      ghost var before := entries;
      if n < |entries| && entries[n].key == key {
        entries := entries[n := Entry(key, value)];
      } else {
        entries := entries[..n] + [Entry(key, value)] + entries[n..];
      }
      PutKeepsOrder(before, n, Entry(key, value));
      PutSets(before, n, Entry(key, value));
    }

    method Get(section: string, entity: string, field: string) returns (value: Option<string>)
      requires Valid()
      ensures value == ValueOf(Contents(), section, entity, field)
    {
      var key := Key(section, entity, field);
      var n := LowerBound(key);
      ValuesAt(entries, key);
      if n < |entries| && entries[n].key == key {
        return Some(entries[n].value);
      }
      forall i | 0 <= i < |entries|
        ensures entries[i].key != key
      {
        BelongsApart(entries, n, key, i);
      }
      return None;
    }

    /** The range scan: from the entity's first possible key, until the section or the entity changes. */
    method Fields(section: string, entity: string) returns (out: map<string, string>)
      requires Valid()
      ensures out == FieldsOf(Contents(), section, entity)
    {
      var n := LowerBound(Key(section, entity, ""));
      out := map[];
      var i := n;
      while i < |entries| && entries[i].key.section == section && entries[i].key.entity == entity
        invariant n <= i <= |entries|
        invariant forall j :: n <= j < i ==> entries[j].key.section == section && entries[j].key.entity == entity
        invariant forall f :: f in out <==> exists j :: n <= j < i && entries[j].key.field == f
        invariant forall j :: n <= j < i ==>
                    entries[j].key.field in out && out[entries[j].key.field] == entries[j].value
      {
        forall j | n <= j < i
          ensures entries[j].key.field != entries[i].key.field
        {
          KeyBeforeIsAnOrder(entries[j].key, entries[j].key, entries[j].key);
        }
        out := out[entries[i].key.field := entries[i].value];
        i := i + 1;
      }
      ScannedFields(entries, section, entity, n, i, out);
    }

    method Entities(section: string) returns (out: set<string>)
      requires Valid()
      ensures out == EntitiesOf(Contents(), section)
    {
      out := {};
      for i := 0 to |entries|
        invariant forall e :: e in out <==>
                    exists j :: 0 <= j < i && entries[j].key.section == section && entries[j].key.entity == e
      {
        if entries[i].key.section == section {
          out := out + {entries[i].key.entity};
        }
      }
      EntitiesAreFilter(entries, section, out);
    }
  }
}
