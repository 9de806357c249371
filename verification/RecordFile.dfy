/** Writing records to text and reading them back: `writeRecord` and `readRecord`. */
module RecordFile {
  import opened FieldText
  import opened Records

  const RECORD_HEADER: string := "# engine import probe record v1"

  function EntryLine(e: Entry): string {
    Line([e.key.section, e.key.entity, e.key.field, e.value])
  }

  function Body(entries: seq<Entry>): string {
    if entries == [] then "" else EntryLine(entries[0]) + "\n" + Body(entries[1..])
  }

  function RecordText(entries: seq<Entry>): string {
    RECORD_HEADER + "\n" + Body(entries)
  }

  method WriteRecord(record: Record) returns (text: string)
    requires record.Valid()
    ensures text == RecordText(record.entries)
  {
    text := RECORD_HEADER + "\n";
    var entries := record.entries;
    assert entries[0..] == entries;
    for i := 0 to |entries|
      invariant text + Body(entries[i..]) == RecordText(entries)
    {
      assert entries[i..][1..] == entries[i + 1..];
      var section := EscapeField(entries[i].key.section);
      var entity := EscapeField(entries[i].key.entity);
      var field := EscapeField(entries[i].key.field);
      var value := EscapeField(entries[i].value);
      EntryLineIs(entries[i]);
      text := text + (section + "\t" + (entity + "\t" + (field + "\t" + value)) + "\n");
    }
    assert entries[|entries|..] == [];
  }

  lemma EntryLineIs(e: Entry)
    ensures EntryLine(e) == Escape(e.key.section) + "\t" +
                            (Escape(e.key.entity) + "\t" + (Escape(e.key.field) + "\t" + Escape(e.value)))
  {
    LineCons(e.key.section, [e.key.entity, e.key.field, e.value]);
    LineCons(e.key.entity, [e.key.field, e.value]);
    LineCons(e.key.field, [e.value]);
    assert [e.key.section] + [e.key.entity, e.key.field, e.value] ==
           [e.key.section, e.key.entity, e.key.field, e.value];
    assert [e.key.entity] + [e.key.field, e.value] == [e.key.entity, e.key.field, e.value];
    assert [e.key.field] + [e.value] == [e.key.field, e.value];
  }

  lemma LineCons(first: string, rest: seq<string>)
    requires rest != []
    ensures Line([first] + rest) == Escape(first) + "\t" + Line(rest)
  {
    assert ([first] + rest)[1..] == rest;
  }

  // ----- reading

  datatype Outcome = Read | NotARecord | WrongFieldCount(lineNumber: nat, count: nat)

  /** Reading lines into a record: what it holds afterwards, an error's earlier lines included, and how it went. */
  function ReadLines(lines: seq<string>, values: Values, lineNumber: nat): (Values, Outcome)
    decreases |lines|
  {
    if lines == [] then (values, Read)
    else if Skipped(lines[0]) then ReadLines(lines[1..], values, lineNumber + 1)
    else
      var parts := Fields(lines[0]);
      if |parts| != 4 then (values, WrongFieldCount(lineNumber + 1, |parts|))
      else ReadLines(lines[1..], values[Key(parts[0], parts[1], parts[2]) := parts[3]], lineNumber + 1)
  }

  function ReadText(text: string, values: Values): (Values, Outcome) {
    var lines := Lines(text);
    if lines == [] || lines[0] != RECORD_HEADER then (values, NotARecord)
    else ReadLines(lines[1..], values, 1)
  }

  method ReadRecord(text: string, record: Record) returns (outcome: Outcome)
    requires record.Valid()
    modifies record
    ensures record.Valid()
    ensures (record.Contents(), outcome) == ReadText(text, old(record.Contents()))
  {
    var lines := Lines(text);
    if lines == [] || lines[0] != RECORD_HEADER {
      return NotARecord;
    }
    var i := 1;
    while i < |lines|
      invariant 1 <= i <= |lines| && record.Valid()
      invariant ReadLines(lines[i..], record.Contents(), i) == ReadText(text, old(record.Contents()))
    {
      assert lines[i..][1..] == lines[i + 1..];
      if !Skipped(lines[i]) {
        var parts := SplitLine(lines[i]);
        if |parts| != 4 {
          return WrongFieldCount(i + 1, |parts|);
        }
        record.Set(parts[0], parts[1], parts[2], parts[3]);
      }
      i := i + 1;
    }
    return Read;
  }

  // ----- what comes back

  /** A section whose lines read as comments. */
  predicate Commented(section: string) {
    section != "" && section[0] == '#'
  }

  ghost function Uncommented(values: Values): Values {
    map k | k in values && !Commented(k.section) :: values[k]
  }

  function Load(values: Values, entries: seq<Entry>): Values
    decreases |entries|
  {
    if entries == [] then values
    else
      var e := entries[0];
      Load(if Commented(e.key.section) then values else values[e.key := e.value], entries[1..])
  }

  lemma EntryLineStart(e: Entry)
    ensures Skipped(EntryLine(e)) <==> Commented(e.key.section)
    ensures Free(EntryLine(e), '\n')
    ensures Fields(EntryLine(e)) == [e.key.section, e.key.entity, e.key.field, e.value]
  {
    var all := [e.key.section, e.key.entity, e.key.field, e.value];
    LineIsOneLine(all);
    FieldsOfLine(all);
    EntryLineIs(e);
    EscapeStart(e.key.section);
  }

  lemma {:induction false} BodyLoads(entries: seq<Entry>, values: Values, lineNumber: nat)
    ensures ReadLines(Lines(Body(entries)), values, lineNumber) == (Load(values, entries), Read)
    decreases |entries|
  {
    if entries != [] {
      var e := entries[0];
      EntryLineStart(e);
      LinesCons(EntryLine(e), Body(entries[1..]));
      var lines := Lines(Body(entries));
      assert lines[1..] == Lines(Body(entries[1..]));
      BodyLoads(entries[1..], if Commented(e.key.section) then values else values[e.key := e.value], lineNumber + 1);
    }
  }

  lemma {:induction false} LoadLast(values: Values, entries: seq<Entry>)
    requires entries != []
    ensures var e := entries[|entries| - 1]; var front := Load(values, entries[..|entries| - 1]);
            Load(values, entries) == if Commented(e.key.section) then front else front[e.key := e.value]
    decreases |entries|
  {
    var e := entries[0];
    var next := if Commented(e.key.section) then values else values[e.key := e.value];
    if |entries| > 1 {
      LoadLast(next, entries[1..]);
      assert entries[1..][..|entries| - 2] == entries[..|entries| - 1][1..];
    }
  }

  lemma {:induction false} LoadIsUncommented(entries: seq<Entry>)
    ensures Load(map[], entries) == Uncommented(ValuesOf(entries))
  {
    if entries != [] {
      LoadIsUncommented(entries[..|entries| - 1]);
      LoadLast(map[], entries);
    }
  }

  /** A written record reads back as everything in it but the sections that begin with '#'. */
  lemma ReadBack(entries: seq<Entry>)
    ensures ReadText(RecordText(entries), map[]) == (Uncommented(ValuesOf(entries)), Read)
  {
    assert Free(RECORD_HEADER, '\n');
    LinesCons(RECORD_HEADER, Body(entries));
    assert Lines(RecordText(entries))[1..] == Lines(Body(entries));
    BodyLoads(entries, map[], 1);
    LoadIsUncommented(entries);
  }

  /** So a record survives the trip exactly when no section of it begins with '#'. */
  lemma RecordSurvives(entries: seq<Entry>)
    ensures ReadText(RecordText(entries), map[]) == (ValuesOf(entries), Read) <==>
            forall k :: k in ValuesOf(entries) ==> !Commented(k.section)
  {
    ReadBack(entries);
    var values := ValuesOf(entries);
    if Uncommented(values) == values {
      assert forall k :: k in values ==> k in Uncommented(values);
    }
    if forall k :: k in values ==> !Commented(k.section) {
      assert Uncommented(values) == values;
    }
  }

  /** A record of one entry in a section "#" reads back empty. */
  lemma HashSectionIsLost()
    ensures var entries := [Entry(Key("#", "a", "b"), "c")];
            ReadText(RecordText(entries), map[]) == (map[], Read) && ValuesOf(entries) != map[]
  {
    var entries := [Entry(Key("#", "a", "b"), "c")];
    ReadBack(entries);
    assert entries[..0] == [];
    assert ValuesOf(entries) == map[Key("#", "a", "b") := "c"];
    assert Key("#", "a", "b") in ValuesOf(entries);
    assert Uncommented(ValuesOf(entries)) == map[];
  }

  /** Equal contents are kept as equal entries, so they are written as equal text. */
  lemma {:induction false} ContentsDecideText(a: seq<Entry>, b: seq<Entry>)
    requires Ascending(a) && Ascending(b) && ValuesOf(a) == ValuesOf(b)
    ensures a == b
  {
    if a == [] {
      if b != [] { ValuesAt(b, b[0].key); }
    } else {
      var x := a[|a| - 1];
      ValuesAt(a, x.key);
      ValuesAt(b, x.key);
      var y := b[|b| - 1];
      ValuesAt(a, y.key);
      ValuesAt(b, y.key);
      LastIsLast(a, y.key);
      LastIsLast(b, x.key);
      KeyBeforeIsAnOrder(x.key, y.key, x.key);
      assert x == y;
      FrontValues(a);
      FrontValues(b);
      ContentsDecideText(a[..|a| - 1], b[..|b| - 1]);
      assert a == a[..|a| - 1] + [x] && b == b[..|b| - 1] + [y];
    }
  }

  lemma LastIsLast(entries: seq<Entry>, key: Key)
    requires Ascending(entries) && exists i :: 0 <= i < |entries| && entries[i].key == key
    ensures key == entries[|entries| - 1].key || KeyBefore(key, entries[|entries| - 1].key)
  {
  }

  lemma FrontValues(entries: seq<Entry>)
    requires Ascending(entries) && entries != []
    ensures ValuesOf(entries[..|entries| - 1]) == ValuesOf(entries) - {entries[|entries| - 1].key}
  {
    LastIsNew(entries);
    var front, last := ValuesOf(entries[..|entries| - 1]), entries[|entries| - 1];
    assert front[last.key := last.value] - {last.key} == front;
  }

  lemma LastIsNew(entries: seq<Entry>)
    requires Ascending(entries) && entries != []
    ensures entries[|entries| - 1].key !in ValuesOf(entries[..|entries| - 1])
  {
    var front, last := entries[..|entries| - 1], entries[|entries| - 1];
    assert Ascending(front);
    ValuesAt(front, last.key);
    KeyBeforeIsAnOrder(last.key, last.key, last.key);
    assert forall i :: 0 <= i < |front| ==> front[i] == entries[i];
  }
}
