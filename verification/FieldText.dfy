/**
 The text the probe's records and case lists are kept in: escaped fields, tab-separated lines and
 tab-separated sets, as engine_import_probe_compare.hpp writes and reads them.
 */
module FieldText {
  import opened Sequences

  // ----- escaping

  function EscapeChar(c: char): string {
    if c == '\\' then "\\\\"
    else if c == '\t' then "\\t"
    else if c == '\n' then "\\n"
    else if c == '\r' then "\\r"
    else [c]
  }

  function Escape(s: string): string {
    if s == "" then "" else EscapeChar(s[0]) + Escape(s[1..])
  }

  function UnescapeChar(c: char): char {
    if c == 't' then '\t' else if c == 'n' then '\n' else if c == 'r' then '\r' else c
  }

  function Unescape(s: string): string
    decreases |s|
  {
    if s == "" then ""
    else if s[0] != '\\' || |s| == 1 then [s[0]] + Unescape(s[1..])
    else [UnescapeChar(s[1])] + Unescape(s[2..])
  }

  method EscapeField(input: string) returns (out: string)
    ensures out == Escape(input)
  {
    out := "";
    assert input[0..] == input;
    for i := 0 to |input|
      invariant out + Escape(input[i..]) == Escape(input)
    {
      assert input[i..][1..] == input[i + 1..];
      out := out + EscapeChar(input[i]);
    }
    assert input[|input|..] == "";
  }

  method UnescapeField(input: string) returns (out: string)
    ensures out == Unescape(input)
  {
    out := "";
    var i := 0;
    assert input[0..] == input;
    while i < |input|
      invariant 0 <= i <= |input|
      invariant out + Unescape(input[i..]) == Unescape(input)
    {
      ghost var rest := input[i..];
      assert rest[1..] == input[i + 1..];
      if input[i] != '\\' || i + 1 == |input| {
        out := out + [input[i]];
        i := i + 1;
      } else {
        assert rest[2..] == input[i + 2..] && rest[1] == input[i + 1];
        out := out + [UnescapeChar(input[i + 1])];
        i := i + 2;
      }
    }
  }

  /** Escaping is undone by unescaping, whatever the field holds. */
  lemma {:induction false} UnescapeEscape(s: string)
    ensures Unescape(Escape(s)) == s
  {
    if s != "" {
      var c, rest := EscapeChar(s[0]), Escape(s[1..]);
      UnescapeEscape(s[1..]);
      assert (c + rest)[|c|..] == rest;
      assert (c + rest)[0] == c[0];
      assert |c| == 2 ==> (c + rest)[1] == c[1];
    }
  }

  /** An escaped field holds no tab and no end of a line. */
  lemma {:induction false} EscapeHidesBreaks(s: string)
    ensures forall i :: 0 <= i < |Escape(s)| ==> Escape(s)[i] != '\t' && Escape(s)[i] != '\n' && Escape(s)[i] != '\r'
  {
    if s != "" {
      EscapeHidesBreaks(s[1..]);
    }
  }

  lemma EscapeStart(s: string)
    ensures Escape(s) == "" <==> s == ""
    ensures s != "" ==> (Escape(s)[0] == '#' <==> s[0] == '#')
  {
  }

  // ----- cutting a string at a separator

  /** The first separator, or the length of a string that holds none. */
  function Find(s: string, sep: char): (n: nat)
    ensures n <= |s|
    ensures forall k :: 0 <= k < n ==> s[k] != sep
    ensures n < |s| ==> s[n] == sep
  {
    if s == "" || s[0] == sep then 0
    else
      var n := 1 + Find(s[1..], sep);
      assert forall k :: 1 <= k < n ==> s[k] == s[1..][k - 1];
      n
  }

  function Cut(s: string, sep: char): (parts: seq<string>)
    ensures parts != []
  {
    var n := Find(s, sep);
    if n == |s| then [s] else [s[..n]] + Cut(s[n + 1..], sep)
  }

  predicate Free(s: string, sep: char) {
    forall k :: 0 <= k < |s| ==> s[k] != sep
  }

  lemma {:induction false} FindIs(s: string, sep: char, n: nat)
    requires n <= |s| && (forall k :: 0 <= k < n ==> s[k] != sep) && (n < |s| ==> s[n] == sep)
    ensures Find(s, sep) == n
  {
  }

  /** A part without separators, a separator, and the rest. */
  lemma CutCons(a: string, sep: char, b: string)
    requires Free(a, sep)
    ensures Cut(a + [sep] + b, sep) == [a] + Cut(b, sep)
    ensures Cut(a, sep) == [a]
  {
    var s := a + [sep] + b;
    FindIs(s, sep, |a|);
    FindIs(a, sep, |a|);
    assert s[..|a|] == a && s[|a| + 1..] == b;
  }

  lemma {:induction false} CutIsFree(s: string, sep: char)
    ensures forall i :: 0 <= i < |Cut(s, sep)| ==> Free(Cut(s, sep)[i], sep)
  {
    var n := Find(s, sep);
    if n < |s| {
      CutIsFree(s[n + 1..], sep);
    }
  }

  // ----- lines of fields

  function UnescapeAll(parts: seq<string>): (out: seq<string>)
    ensures |out| == |parts|
  {
    if parts == [] then [] else [Unescape(parts[0])] + UnescapeAll(parts[1..])
  }

  /** The fields of a line. */
  function Fields(line: string): seq<string> {
    UnescapeAll(Cut(line, '\t'))
  }

  method SplitLine(line: string) returns (parts: seq<string>)
    ensures parts == Fields(line)
  {
    parts := [];
    var current := "";
    assert line[0..] == line && "" + line == line;
    for i := 0 to |line|
      invariant Free(current, '\t')
      invariant parts + Fields(current + line[i..]) == Fields(line)
    {
      CutNext(current, line[i..]);
      assert line[i..][1..] == line[i + 1..];
      if line[i] == '\t' {
        var field := UnescapeField(current);
        parts := parts + [field];
        current := "";
        assert "" + line[i + 1..] == line[i + 1..];
      } else {
        current := current + [line[i]];
      }
    }
    CutCons(current, '\t', "");
    assert current + line[|line|..] == current;
    var field := UnescapeField(current);
    parts := parts + [field];
  }

  lemma CutNext(current: string, rest: string)
    requires Free(current, '\t') && rest != ""
    ensures rest[0] == '\t' ==> Fields(current + rest) == [Unescape(current)] + Fields(rest[1..])
    ensures current + rest == current + [rest[0]] + rest[1..]
  {
    if rest[0] == '\t' {
      assert current + rest == current + ['\t'] + rest[1..];
      CutCons(current, '\t', rest[1..]);
    }
  }

  /** The fields written with tabs between them. */
  function Line(fields: seq<string>): string {
    if fields == [] then ""
    else if |fields| == 1 then Escape(fields[0])
    else Escape(fields[0]) + "\t" + Line(fields[1..])
  }

  /** A line gives its fields back. */
  lemma {:induction false} FieldsOfLine(fields: seq<string>)
    requires fields != []
    ensures Fields(Line(fields)) == fields
  {
    var first := Escape(fields[0]);
    UnescapeEscape(fields[0]);
    EscapeHidesBreaks(fields[0]);
    if |fields| == 1 {
      FieldsCons(first, "");
    } else {
      FieldsOfLine(fields[1..]);
      FieldsCons(first, Line(fields[1..]));
    }
  }

  lemma FieldsCons(a: string, b: string)
    requires Free(a, '\t')
    ensures Fields(a + "\t" + b) == [Unescape(a)] + Fields(b)
    ensures Fields(a) == [Unescape(a)]
  {
    CutCons(a, '\t', b);
    assert ([a] + Cut(b, '\t'))[1..] == Cut(b, '\t');
  }

  lemma {:induction false} LineIsOneLine(fields: seq<string>)
    ensures Free(Line(fields), '\n')
  {
    if fields != [] {
      EscapeHidesBreaks(fields[0]);
      if |fields| > 1 { LineIsOneLine(fields[1..]); }
    }
  }

  // ----- a text of lines

  /** The lines std::getline reads: what stands before each newline, and what stands after the last if anything does. */
  function Lines(text: string): seq<string> {
    if text == "" then []
    else
      var n := Find(text, '\n');
      if n == |text| then [text] else [text[..n]] + Lines(text[n + 1..])
  }

  lemma LinesCons(line: string, rest: string)
    requires Free(line, '\n')
    ensures Lines(line + "\n" + rest) == [line] + Lines(rest)
  {
    var text := line + "\n" + rest;
    FindIs(text, '\n', |line|);
    assert text[..|line|] == line && text[|line| + 1..] == rest;
  }

  /** A line the readers skip. */
  predicate Skipped(line: string) {
    line == "" || line[0] == '#'
  }

  // ----- sets as strings

  function Join(elements: seq<string>): string {
    JoinAfter("", elements)
  }

  /** The loop of `joinSet`: a separator goes before an element only when something is there already. */
  function JoinAfter(out: string, elements: seq<string>): string
    decreases |elements|
  {
    if elements == [] then out
    else JoinAfter((if out == "" then "" else out + "\t") + elements[0], elements[1..])
  }

  method JoinSet(elements: seq<string>) returns (out: string)
    ensures out == Join(elements)
  {
    out := "";
    assert elements[0..] == elements;
    for i := 0 to |elements|
      invariant JoinAfter(out, elements[i..]) == Join(elements)
    {
      assert elements[i..][1..] == elements[i + 1..];
      if out != "" {
        out := out + "\t";
      }
      out := out + elements[i];
    }
  }

  function Parts(value: string): set<string> {
    set part | part in Cut(value, '\t')
  }

  function SetOf(value: string): set<string> {
    if value == "" then {} else Parts(value)
  }

  lemma PartsNext(current: string, rest: string)
    requires Free(current, '\t')
    ensures rest != "" && rest[0] == '\t' ==> Parts(current + rest) == {current} + Parts("" + rest[1..])
    ensures rest != "" ==> current + rest == current + [rest[0]] + rest[1..]
    ensures Parts(current) == {current}
  {
    CutCons(current, '\t', "");
    if rest != "" && rest[0] == '\t' {
      CutCons(current, '\t', rest[1..]);
      assert current + rest == current + ['\t'] + rest[1..];
      assert "" + rest[1..] == rest[1..];
    }
  }

  method SplitSet(value: string) returns (out: set<string>)
    ensures out == SetOf(value)
  {
    out := {};
    if value == "" {
      return;
    }
    var current := "";
    assert "" + value[0..] == value;
    for i := 0 to |value|
      invariant Free(current, '\t')
      invariant out + Parts(current + value[i..]) == Parts(value)
    {
      PartsNext(current, value[i..]);
      assert value[i..][1..] == value[i + 1..];
      if value[i] == '\t' {
        out := out + {current};
        current := "";
      } else {
        current := current + [value[i]];
      }
    }
    PartsNext(current, "");
    assert current + value[|value|..] == current;
    out := out + {current};
  }

  // ----- when a set survives

  /** The elements after the empty ones in front. */
  function DropEmpty(elements: seq<string>): seq<string> {
    if elements != [] && elements[0] == "" then DropEmpty(elements[1..]) else elements
  }

  function SetOfAll(elements: seq<string>): set<string> {
    set e | e in elements
  }

  lemma {:induction false} JoinDropsEmpty(elements: seq<string>)
    ensures Join(elements) == Join(DropEmpty(elements))
  {
    if elements != [] && elements[0] == "" {
      assert "" + elements[0] == "";
      JoinDropsEmpty(elements[1..]);
    }
  }

  /** All the elements' parts, in order. */
  function CutAll(elements: seq<string>): seq<string> {
    if elements == [] then [] else Cut(elements[0], '\t') + CutAll(elements[1..])
  }

  lemma {:induction false} CutAppend(a: string, b: string)
    ensures Cut(a + "\t" + b, '\t') == Cut(a, '\t') + Cut(b, '\t')
  {
    var n := Find(a, '\t');
    if n < |a| {
      var first, rest := a[..n], a[n + 1..];
      assert a == first + ['\t'] + rest;
      assert a + "\t" + b == first + ['\t'] + (rest + "\t" + b);
      CutCons(first, '\t', rest);
      CutCons(first, '\t', rest + "\t" + b);
      CutAppend(rest, b);
      Associate([first], Cut(rest, '\t'), Cut(b, '\t'));
    } else {
      CutCons(a, '\t', b);
    }
  }

  lemma {:induction false} CutOfJoin(out: string, elements: seq<string>)
    requires out != ""
    ensures Cut(JoinAfter(out, elements), '\t') == Cut(out, '\t') + CutAll(elements)
    ensures JoinAfter(out, elements) != ""
    decreases |elements|
  {
    if elements != [] {
      var more, rest := out + "\t" + elements[0], elements[1..];
      CutOfJoin(more, rest);
      CutAppend(out, elements[0]);
      Associate(Cut(out, '\t'), Cut(elements[0], '\t'), CutAll(rest));
    }
  }

  lemma {:induction false} CutAllHolds(elements: seq<string>, e: string)
    requires e in elements && Free(e, '\t')
    ensures e in CutAll(elements)
  {
    CutCons(e, '\t', "");
    if e != elements[0] { CutAllHolds(elements[1..], e); }
  }

  lemma {:induction false} CutAllOfFree(elements: seq<string>)
    requires forall i :: 0 <= i < |elements| ==> Free(elements[i], '\t')
    ensures CutAll(elements) == elements
  {
    if elements != [] {
      CutCons(elements[0], '\t', "");
      CutAllOfFree(elements[1..]);
    }
  }

  lemma {:induction false} CutAllIsFree(elements: seq<string>, part: string)
    requires part in CutAll(elements)
    ensures Free(part, '\t')
  {
    CutIsFree(elements[0], '\t');
    if part !in Cut(elements[0], '\t') { CutAllIsFree(elements[1..], part); }
  }

  /** What is read back of a joined set: the parts of the elements after the empty ones in front. */
  lemma SetOfJoin(elements: seq<string>)
    ensures SetOf(Join(elements)) == SetOfAll(CutAll(DropEmpty(elements)))
  {
    var rest := DropEmpty(elements);
    JoinDropsEmpty(elements);
    DropEmptyStart(elements);
    if rest != [] {
      assert "" + rest[0] == rest[0];
      CutOfJoin(rest[0], rest[1..]);
    }
  }

  lemma {:induction false} DropEmptyStart(elements: seq<string>)
    ensures var rest := DropEmpty(elements);
            && (rest != [] ==> rest[0] != "")
            && (forall e :: e in rest ==> e in elements)
            && (forall e :: e in elements && e != "" ==> e in rest)
  {
    if elements != [] && elements[0] == "" {
      DropEmptyStart(elements[1..]);
      assert elements == [elements[0]] + elements[1..];
    }
  }

  /**
   A joined set is read back whole exactly when no element holds a tab and an empty element, if
   there is one, has one that is not empty before it.
   */
  lemma SetSurvives(elements: seq<string>)
    ensures SetOf(Join(elements)) == SetOfAll(elements) <==>
            && (forall e :: e in elements ==> Free(e, '\t'))
            && ("" in elements ==> "" in DropEmpty(elements))
  {
    var rest := DropEmpty(elements);
    SetOfJoin(elements);
    DropEmptyStart(elements);
    if (forall e :: e in elements ==> Free(e, '\t')) && ("" in elements ==> "" in rest) {
      CutAllOfFree(rest);
    }
    if SetOf(Join(elements)) == SetOfAll(elements) {
      forall e | e in elements
        ensures Free(e, '\t')
      {
        assert e in SetOfAll(elements);
        CutAllIsFree(rest, e);
      }
      CutAllOfFree(rest);
      assert "" in elements ==> "" in SetOfAll(elements);
    }
  }

  /** A set of the empty element alone is lost, and an element with a tab comes back as two. */
  lemma SetsThatDoNotSurvive(a: string, b: string)
    requires a != "" && Free(a, '\t') && Free(b, '\t')
    ensures SetOf(Join([""])) == {}
    ensures SetOf(Join([a + "\t" + b])) == {a, b}
  {
    var whole := a + "\t" + b;
    SetOfJoin([""]);
    SetOfJoin([whole]);
    assert [""][1..] == [] && [whole][1..] == [];
    CutCons(a, '\t', b);
    CutCons(b, '\t', "");
    assert CutAll([whole]) == [a, b];
  }
}
