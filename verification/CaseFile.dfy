/** The probe's list of planted cases, and the file it is kept in: `writeCases` and `readCases`. */
module CaseFile {
  import opened FieldText

  datatype Item = Item(section: string, entity: string, field: string, mode: string)

  datatype Case = Case(id: string, status: string, title: string, track: string, engine: string,
                       rekordbox: string, how: string, items: seq<Item>)

  const CASES_HEADER: string := "# engine import probe cases v1"
  const CASE_COLUMNS: string := "# case\tid\tstatus\ttitle\ttrack" + "\tengine\trekordbox\thow"
  const WATCH_COLUMNS: string := "# watch\tid\tsection\tentity\tfield\tmode"

  function CaseLine(c: Case): string {
    "case\t" + Line([c.id, c.status, c.title, c.track, c.engine, c.rekordbox, c.how])
  }

  function WatchLine(id: string, item: Item): string {
    "watch\t" + Line([id, item.section, item.entity, item.field, item.mode])
  }

  function Watches(id: string, items: seq<Item>): string {
    if items == [] then "" else WatchLine(id, items[0]) + "\n" + Watches(id, items[1..])
  }

  function Body(cases: seq<Case>): string {
    if cases == [] then ""
    else CaseLine(cases[0]) + "\n" + Watches(cases[0].id, cases[0].items) + Body(cases[1..])
  }

  function CasesText(cases: seq<Case>): string {
    CASES_HEADER + "\n" + CASE_COLUMNS + "\n" + WATCH_COLUMNS + "\n" + Body(cases)
  }

  /** The fields of a line, each escaped, with tabs between them. */
  method FieldsToLine(fields: seq<string>) returns (line: string)
    ensures line == Line(fields)
  {
    line := "";
    if fields == [] {
      return;
    }
    var i := |fields| - 1;
    line := EscapeField(fields[i]);
    while i > 0
      invariant 0 <= i < |fields|
      invariant line == Line(fields[i..])
    {
      i := i - 1;
      assert fields[i..][1..] == fields[i + 1..];
      var field := EscapeField(fields[i]);
      line := field + "\t" + line;
    }
    assert fields[0..] == fields;
  }

  method WriteCases(cases: seq<Case>) returns (text: string)
    ensures text == CasesText(cases)
  {
    text := CASES_HEADER + "\n" + CASE_COLUMNS + "\n" + WATCH_COLUMNS + "\n";
    assert cases[0..] == cases;
    for i := 0 to |cases|
      invariant text + Body(cases[i..]) == CasesText(cases)
    {
      var c := cases[i];
      assert cases[i..][1..] == cases[i + 1..];
      var line := FieldsToLine([c.id, c.status, c.title, c.track, c.engine, c.rekordbox, c.how]);
      var watches := WriteWatches(c.id, c.items);
      text := text + (("case\t" + line) + "\n" + watches);
    }
    assert cases[|cases|..] == [];
  }

  method WriteWatches(id: string, items: seq<Item>) returns (text: string)
    ensures text == Watches(id, items)
  {
    text := "";
    assert items[0..] == items;
    for i := 0 to |items|
      invariant text + Watches(id, items[i..]) == Watches(id, items)
    {
      var item := items[i];
      assert items[i..][1..] == items[i + 1..];
      var line := FieldsToLine([id, item.section, item.entity, item.field, item.mode]);
      text := text + (("watch\t" + line) + "\n");
    }
    assert items[|items|..] == [];
  }

  // ----- reading

  datatype Outcome = Read | NotACaseList | UnknownCase(id: string) | Unreadable(line: string)

  /** The first case of an id, or the number of cases when none has it. */
  function FindCase(cases: seq<Case>, id: string): (n: nat)
    ensures n <= |cases|
    ensures n < |cases| ==> cases[n].id == id
    ensures forall i :: 0 <= i < n ==> cases[i].id != id
  {
    if cases == [] || cases[0].id == id then 0
    else
      var n := 1 + FindCase(cases[1..], id);
      assert forall i :: 1 <= i < n ==> cases[i] == cases[1..][i - 1];
      n
  }

  function Watch(cases: seq<Case>, n: nat, item: Item): seq<Case>
    requires n < |cases|
  {
    cases[n := cases[n].(items := cases[n].items + [item])]
  }

  function CaseOf(parts: seq<string>): Case
    requires |parts| == 8
  {
    Case(parts[1], parts[2], parts[3], parts[4], parts[5], parts[6], parts[7], [])
  }

  function ReadLines(lines: seq<string>, cases: seq<Case>): (seq<Case>, Outcome)
    decreases |lines|
  {
    if lines == [] then (cases, Read)
    else if Skipped(lines[0]) then ReadLines(lines[1..], cases)
    else
      var parts := Fields(lines[0]);
      if parts[0] == "case" && |parts| == 8 then ReadLines(lines[1..], cases + [CaseOf(parts)])
      else if parts[0] == "watch" && |parts| == 6 then
        var n := FindCase(cases, parts[1]);
        if n == |cases| then (cases, UnknownCase(parts[1]))
        else ReadLines(lines[1..], Watch(cases, n, Item(parts[2], parts[3], parts[4], parts[5])))
      else (cases, Unreadable(lines[0]))
  }

  function ReadText(text: string, cases: seq<Case>): (seq<Case>, Outcome) {
    var lines := Lines(text);
    if lines == [] || lines[0] != CASES_HEADER then (cases, NotACaseList) else ReadLines(lines[1..], cases)
  }

  method ReadCases(text: string, already: seq<Case>) returns (cases: seq<Case>, outcome: Outcome)
    ensures (cases, outcome) == ReadText(text, already)
  {
    var lines := Lines(text);
    cases := already;
    if lines == [] || lines[0] != CASES_HEADER {
      return cases, NotACaseList;
    }
    var i := 1;
    while i < |lines|
      invariant 1 <= i <= |lines|
      invariant ReadLines(lines[i..], cases) == ReadText(text, already)
    {
      assert lines[i..][1..] == lines[i + 1..];
      if !Skipped(lines[i]) {
        var parts := SplitLine(lines[i]);
        if parts[0] == "case" && |parts| == 8 {
          cases := cases + [CaseOf(parts)];
        } else if parts[0] == "watch" && |parts| == 6 {
          var n := FindCase(cases, parts[1]);
          if n == |cases| {
            return cases, UnknownCase(parts[1]);
          }
          cases := Watch(cases, n, Item(parts[2], parts[3], parts[4], parts[5]));
        } else {
          return cases, Unreadable(lines[i]);
        }
      }
      i := i + 1;
    }
    return cases, Read;
  }

  // ----- what comes back

  lemma TaggedLine(tag: string, fields: seq<string>)
    requires tag != "" && tag[0] != '#' && Escape(tag) == tag && fields != []
    ensures !Skipped(tag + "\t" + Line(fields)) && Free(tag + "\t" + Line(fields), '\n')
    ensures Fields(tag + "\t" + Line(fields)) == [tag] + fields
  {
    var all := [tag] + fields;
    assert all[1..] == fields;
    assert Line(all) == tag + "\t" + Line(fields);
    LineIsOneLine(all);
    FieldsOfLine(all);
  }

  lemma TagsAreThemselves()
    ensures Escape("case") == "case" && Escape("watch") == "watch"
  {
    PlainStays("case");
    PlainStays("watch");
  }

  lemma {:induction false} PlainStays(s: string)
    requires forall k :: 0 <= k < |s| ==> 'a' <= s[k] <= 'z'
    ensures Escape(s) == s
  {
    if s != "" {
      PlainStays(s[1..]);
      assert EscapeChar(s[0]) == [s[0]];
    }
  }

  function WatchAll(cases: seq<Case>, n: nat, items: seq<Item>): (out: seq<Case>)
    requires n < |cases|
    ensures |out| == |cases| && out[n] == cases[n].(items := cases[n].items + items)
    ensures forall i :: 0 <= i < |cases| && i != n ==> out[i] == cases[i]
  {
    cases[n := cases[n].(items := cases[n].items + items)]
  }

  /** What reading back does with one case: it joins the list without items, and its items go to the first of its id. */
  function Refile(cases: seq<Case>, c: Case): seq<Case> {
    var more := cases + [c.(items := [])];
    assert more[|cases|].id == c.id;
    WatchAll(more, FindCase(more, c.id), c.items)
  }

  function RefileAll(cases: seq<Case>, more: seq<Case>): seq<Case>
    decreases |more|
  {
    if more == [] then cases else RefileAll(Refile(cases, more[0]), more[1..])
  }

  lemma WatchLineIs(id: string, item: Item)
    ensures var line := WatchLine(id, item);
            !Skipped(line) && Free(line, '\n') &&
            Fields(line) == ["watch", id, item.section, item.entity, item.field, item.mode]
  {
    var fields := [id, item.section, item.entity, item.field, item.mode];
    TagsAreThemselves();
    TaggedLine("watch", fields);
    assert ["watch"] + fields == ["watch", id, item.section, item.entity, item.field, item.mode];
    assert "watch\t" == "watch" + "\t";
  }

  lemma CaseLineIs(c: Case)
    ensures !Skipped(CaseLine(c)) && Free(CaseLine(c), '\n')
    ensures Fields(CaseLine(c)) == ["case", c.id, c.status, c.title, c.track, c.engine, c.rekordbox, c.how]
  {
    var fields := [c.id, c.status, c.title, c.track, c.engine, c.rekordbox, c.how];
    TagsAreThemselves();
    TaggedLine("case", fields);
    assert "case\t" + Line(fields) == "case" + "\t" + Line(fields);
  }

  /** The lines of a text that begins with one. */
  lemma FirstLine(line: string, tail: string)
    requires Free(line, '\n')
    ensures var lines := Lines(line + "\n" + tail);
            lines != [] && lines[0] == line && lines[1..] == Lines(tail)
  {
    LinesCons(line, tail);
  }

  lemma WatchLineReads(id: string, item: Item, tail: string, cases: seq<Case>)
    requires FindCase(cases, id) < |cases|
    ensures ReadLines(Lines(WatchLine(id, item) + "\n" + tail), cases) ==
            ReadLines(Lines(tail), Watch(cases, FindCase(cases, id), item))
  {
    WatchLineIs(id, item);
    FirstLine(WatchLine(id, item), tail);
    var lines := Lines(WatchLine(id, item) + "\n" + tail);
    WatchFieldsRead(lines, cases, id, item);
  }

  lemma {:induction false} WatchFieldsRead(lines: seq<string>, cases: seq<Case>, id: string, item: Item)
    requires lines != [] && !Skipped(lines[0])
    requires Fields(lines[0]) == ["watch", id, item.section, item.entity, item.field, item.mode]
    requires FindCase(cases, id) < |cases|
    ensures ReadLines(lines, cases) == ReadLines(lines[1..], Watch(cases, FindCase(cases, id), item))
  {
    assert "watch"[0] != "case"[0];
  }

  lemma CaseLineReads(c: Case, tail: string, cases: seq<Case>)
    ensures ReadLines(Lines(CaseLine(c) + "\n" + tail), cases) == ReadLines(Lines(tail), cases + [c.(items := [])])
  {
    CaseLineIs(c);
    FirstLine(CaseLine(c), tail);
  }

  lemma {:induction false} WatchesRead(cases: seq<Case>, id: string, items: seq<Item>, rest: string)
    requires FindCase(cases, id) < |cases|
    ensures ReadLines(Lines(Watches(id, items) + rest), cases) ==
            ReadLines(Lines(rest), WatchAll(cases, FindCase(cases, id), items))
    decreases |items|
  {
    var n := FindCase(cases, id);
    if items == [] {
      assert Watches(id, items) + rest == rest;
      assert cases[n].items + [] == cases[n].items;
      assert WatchAll(cases, n, items) == cases;
    } else {
      var tail := Watches(id, items[1..]) + rest;
      assert Watches(id, items) + rest == WatchLine(id, items[0]) + "\n" + tail;
      WatchLineReads(id, items[0], tail, cases);
      var one := Watch(cases, n, items[0]);
      SameIds(cases, one, id);
      WatchesRead(one, id, items[1..], rest);
      WatchAllCons(cases, n, items);
    }
  }

  lemma WatchAllCons(cases: seq<Case>, n: nat, items: seq<Item>)
    requires n < |cases| && items != []
    ensures WatchAll(Watch(cases, n, items[0]), n, items[1..]) == WatchAll(cases, n, items)
  {
    assert cases[n].items + [items[0]] + items[1..] == cases[n].items + items;
  }

  lemma {:induction false} SameIds(a: seq<Case>, b: seq<Case>, id: string)
    requires |a| == |b| && forall i :: 0 <= i < |a| ==> a[i].id == b[i].id
    ensures FindCase(a, id) == FindCase(b, id)
  {
    if a != [] { SameIds(a[1..], b[1..], id); }
  }

  lemma {:induction false} BodyReads(cases: seq<Case>, more: seq<Case>)
    ensures ReadLines(Lines(Body(more)), cases) == (RefileAll(cases, more), Read)
    decreases |more|
  {
    if more != [] {
      var c := more[0];
      var tail := Watches(c.id, c.items) + Body(more[1..]);
      assert Body(more) == CaseLine(c) + "\n" + tail;
      CaseLineReads(c, tail, cases);
      var added := cases + [c.(items := [])];
      assert added[|cases|].id == c.id;
      WatchesRead(added, c.id, c.items, Body(more[1..]));
      BodyReads(Refile(cases, c), more[1..]);
    }
  }

  lemma CommentLineReads(line: string, tail: string, cases: seq<Case>)
    requires Skipped(line) && Free(line, '\n')
    ensures ReadLines(Lines(line + "\n" + tail), cases) == ReadLines(Lines(tail), cases)
  {
    FirstLine(line, tail);
  }

  lemma HeadersAreSkipped()
    ensures Free(CASES_HEADER, '\n') && Free(CASE_COLUMNS, '\n') && Free(WATCH_COLUMNS, '\n')
    ensures Skipped(CASE_COLUMNS) && Skipped(WATCH_COLUMNS)
  {
    FreeAppend("# case\tid\tstatus\ttitle\ttrack", "\tengine\trekordbox\thow");
  }

  lemma FreeAppend(a: string, b: string)
    requires Free(a, '\n') && Free(b, '\n') && a != "" && a[0] == '#'
    ensures Free(a + b, '\n') && Skipped(a + b)
  {
  }

  /** A written case list reads back with every item refiled under the first case of its id. */
  lemma ReadBack(cases: seq<Case>)
    ensures ReadText(CasesText(cases), []) == (RefileAll([], cases), Read)
  {
    BodyReads([], cases);
    HeadersAreSkipped();
    ReadPastHeaders(CASES_HEADER, CASE_COLUMNS, WATCH_COLUMNS, Body(cases));
  }

  lemma ReadPastHeaders(header: string, first: string, second: string, body: string)
    requires Free(header, '\n') && Free(first, '\n') && Free(second, '\n') && Skipped(first) && Skipped(second)
    ensures var lines := Lines(header + "\n" + first + "\n" + second + "\n" + body);
            lines != [] && lines[0] == header && ReadLines(lines[1..], []) == ReadLines(Lines(body), [])
  {
    RegroupLines(header, first, second, body);
    FirstLine(header, first + "\n" + (second + "\n" + body));
    CommentLineReads(first, second + "\n" + body, []);
    CommentLineReads(second, body, []);
  }

  lemma RegroupLines(a: string, b: string, c: string, d: string)
    ensures a + "\n" + b + "\n" + c + "\n" + d == a + "\n" + (b + "\n" + (c + "\n" + d))
  {
  }

  /** Every case with items is the first of its id. */
  ghost predicate OwnItems(cases: seq<Case>) {
    forall j :: 0 <= j < |cases| && cases[j].items != [] ==> FindCase(cases, cases[j].id) == j
  }

  /** Cases that are not the first of their id have no items. */
  ghost predicate Filed(cases: seq<Case>) {
    forall j :: 0 <= j < |cases| && FindCase(cases, cases[j].id) < j ==> cases[j].items == []
  }

  lemma {:induction false} FindInFront(cases: seq<Case>, more: seq<Case>, id: string)
    ensures FindCase(cases + more, id) ==
            if FindCase(cases, id) < |cases| then FindCase(cases, id) else |cases| + FindCase(more, id)
  {
    if cases == [] {
      assert cases + more == more;
    } else if cases[0].id != id {
      assert (cases + more)[1..] == cases[1..] + more;
      FindInFront(cases[1..], more, id);
    }
  }

  lemma RefileFiles(cases: seq<Case>, c: Case)
    requires Filed(cases)
    ensures Filed(Refile(cases, c)) && |Refile(cases, c)| == |cases| + 1
  {
    var added := cases + [c.(items := [])];
    assert added[|cases|].id == c.id;
    var out, n := Refile(cases, c), FindCase(added, c.id);
    forall j | 0 <= j < |out| && FindCase(out, out[j].id) < j
      ensures out[j].items == []
    {
      SameIds(out, added, out[j].id);
      FindInFront(cases, [c.(items := [])], out[j].id);
      if j < |cases| { assert added[j] == cases[j]; }
    }
  }

  lemma {:induction false} RefileAllFiles(cases: seq<Case>, more: seq<Case>)
    requires Filed(cases)
    ensures Filed(RefileAll(cases, more))
    decreases |more|
  {
    if more != [] {
      RefileFiles(cases, more[0]);
      RefileAllFiles(Refile(cases, more[0]), more[1..]);
    }
  }

  lemma RefileOwn(cases: seq<Case>, c: Case)
    requires c.items != [] ==> FindCase(cases, c.id) == |cases|
    ensures Refile(cases, c) == cases + [c]
  {
    var added := cases + [c.(items := [])];
    FindInFront(cases, [c.(items := [])], c.id);
    assert added[|cases|].id == c.id;
    if c.items == [] {
      WatchNothing(added, FindCase(added, c.id));
    } else {
      assert FindCase(added, c.id) == |cases|;
      assert [] + c.items == c.items;
    }
  }

  lemma WatchNothing(cases: seq<Case>, n: nat)
    requires n < |cases|
    ensures WatchAll(cases, n, []) == cases
  {
    assert cases[n].items + [] == cases[n].items;
  }

  lemma {:induction false} RefileAllOwn(cases: seq<Case>, more: seq<Case>)
    requires OwnItems(cases + more)
    ensures RefileAll(cases, more) == cases + more
    decreases |more|
  {
    if more == [] {
      assert cases + more == cases;
    } else {
      var c := more[0];
      assert (cases + more)[|cases|] == c;
      FindInFront(cases, more, c.id);
      RefileOwn(cases, c);
      assert cases + [c] + more[1..] == cases + more;
      RefileAllOwn(cases + [c], more[1..]);
    }
  }

  /** A case list survives the trip exactly when every case with items is the first of its id. */
  lemma CasesSurvive(cases: seq<Case>)
    ensures ReadText(CasesText(cases), []) == (cases, Read) <==> OwnItems(cases)
  {
    ReadBack(cases);
    RefileAllFiles([], cases);
    assert [] + cases == cases;
    if OwnItems(cases) {
      RefileAllOwn([], cases);
    }
    if RefileAll([], cases) == cases {
      forall j | 0 <= j < |cases| && cases[j].items != []
        ensures FindCase(cases, cases[j].id) == j
      {
        assert cases[j].id == cases[j].id;
      }
    }
  }

  /** Distinct ids are enough. */
  lemma DistinctIdsSurvive(cases: seq<Case>)
    requires forall i, j :: 0 <= i < j < |cases| ==> cases[i].id != cases[j].id
    ensures ReadText(CasesText(cases), []) == (cases, Read)
  {
    CasesSurvive(cases);
  }

  /** Of two cases of one id, the second's item comes back with the first. */
  lemma SecondLosesItsItems(id: string, item: Item)
    ensures var bare := Case(id, "", "", "", "", "", "", []); var full := bare.(items := [item]);
            ReadText(CasesText([bare, full]), []) == ([full, bare], Read)
  {
    var bare := Case(id, "", "", "", "", "", "", []);
    var full := bare.(items := [item]);
    ReadBack([bare, full]);
    SecondIsRefiled([bare], full);
    RefileOwn([], bare);
    assert [] + [bare] == [bare];
    assert [bare, full][1..] == [full] && [full][1..] == [];
    assert RefileAll([], [bare, full]) == RefileAll([bare], [full]);
    assert RefileAll([bare], [full]) == RefileAll([full, bare], []);
  }

  lemma SecondIsRefiled(cases: seq<Case>, c: Case)
    requires |cases| == 1 && cases[0].id == c.id && cases[0].items == []
    ensures Refile(cases, c) == [cases[0].(items := c.items), c.(items := [])]
  {
    var more := cases + [c.(items := [])];
    assert more[0] == cases[0];
    assert FindCase(more, c.id) == 0;
    assert [] + c.items == c.items;
  }
}
