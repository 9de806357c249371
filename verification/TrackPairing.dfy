/**
 Which key each Engine row is recorded under: the pairing in engine_import_probe.cpp's `readTracks`,
 by path first and, where that names no rekordbox track, by a file name both sides have once.
 */
module TrackPairing {
  import opened Options

  /** A catalog row: its id there, and the stick-relative, normalised path of its file, if it has one. */
  datatype Row = Row(sourceId: string, path: Option<string>)

  /** A path, or an id behind one of two prefixes. */
  type Key = string

  const ENGINE_ID: string := "engine id:"
  const REKORDBOX_ID: string := "rekordbox id:"

  function LowerChar(c: char): char {
    if 'A' <= c <= 'Z' then (c as int + 32) as char else c
  }

  function Lowered(s: string): (out: string)
    ensures |out| == |s|
  {
    seq(|s|, i requires 0 <= i < |s| => LowerChar(s[i]))
  }

  /** What follows the last slash of a path. */
  function FileName(path: string): string {
    if path == "" || path[|path| - 1] == '/' then ""
    else FileName(path[..|path| - 1]) + [path[|path| - 1]]
  }

  function NameOf(path: string): string {
    Lowered(FileName(path))
  }

  /** The same letter, or the capital and the small one of an ASCII letter. */
  predicate SameLetter(c: char, d: char) {
    c == d || ('A' <= c <= 'Z' && d as int == c as int + 32) || ('A' <= d <= 'Z' && c as int == d as int + 32)
  }

  /** The longest end of a path without a slash. */
  lemma {:induction false} FileNameIsTheEnd(path: string)
    ensures var name := FileName(path); var n := |path| - |name|;
            && n >= 0 && path[n..] == name && '/' !in name && (n > 0 ==> path[n - 1] == '/')
  {
    if path != "" && path[|path| - 1] != '/' {
      FileNameIsTheEnd(path[..|path| - 1]);
    }
  }

  /** Two files are of one name exactly when their last components differ in the case of ASCII letters at most. */
  lemma NamesMatchButCase(p: string, q: string)
    ensures var a, b := FileName(p), FileName(q);
            NameOf(p) == NameOf(q) <==> |a| == |b| && forall i :: 0 <= i < |a| ==> SameLetter(a[i], b[i])
  {
    var a, b := FileName(p), FileName(q);
    if |a| == |b| && forall i :: 0 <= i < |a| ==> SameLetter(a[i], b[i]) {
      assert forall i :: 0 <= i < |a| ==> Lowered(a)[i] == Lowered(b)[i];
    }
    if Lowered(a) == Lowered(b) {
      assert |Lowered(a)| == |Lowered(b)|;
      assert forall i :: 0 <= i < |a| ==> LowerChar(a[i]) == Lowered(a)[i] == Lowered(b)[i] == LowerChar(b[i]);
    }
  }

  function RekordboxKey(row: Row): Key {
    if row.path.None? then REKORDBOX_ID + row.sourceId else row.path.value
  }

  // ----- the rows of a name

  /** The keys of the rows whose file has a name, in order. */
  function Named(rows: seq<Row>, name: string): seq<Key> {
    if rows == [] then []
    else
      var last := rows[|rows| - 1];
      Named(rows[..|rows| - 1], name) +
      if last.path.Some? && NameOf(last.path.value) == name then [RekordboxKey(last)] else []
  }

  ghost function PathKeys(rows: seq<Row>): set<Key> {
    set i | 0 <= i < |rows| :: RekordboxKey(rows[i])
  }

  ghost predicate FallsBack(rekordbox: seq<Row>, engine: seq<Row>, path: string) {
    && path !in PathKeys(rekordbox)
    && |Named(rekordbox, NameOf(path))| == 1
    && |Named(engine, NameOf(path))| == 1
  }

  /** The key a row is recorded under. */
  ghost function KeyOf(rekordbox: seq<Row>, engine: seq<Row>, row: Row): Key {
    if row.path.None? then ENGINE_ID + row.sourceId
    else if FallsBack(rekordbox, engine, row.path.value) then Named(rekordbox, NameOf(row.path.value))[0]
    else row.path.value
  }

  ghost function CountFallbacks(rekordbox: seq<Row>, engine: seq<Row>, rows: seq<Row>): nat {
    if rows == [] then 0
    else
      var last := rows[|rows| - 1];
      CountFallbacks(rekordbox, engine, rows[..|rows| - 1]) +
      if last.path.Some? && FallsBack(rekordbox, engine, last.path.value) then 1 else 0
  }

  function Under<T>(table: map<string, T>, name: string, none: T): T {
    if name in table then table[name] else none
  }

  lemma NamedNext(rows: seq<Row>, i: nat, name: string)
    requires i < |rows|
    ensures Named(rows[..i + 1], name) ==
            if rows[i].path.Some? && NameOf(rows[i].path.value) == name then
              Named(rows[..i], name) + [RekordboxKey(rows[i])]
            else Named(rows[..i], name)
  {
    assert rows[..i + 1][..i] == rows[..i];
  }

  method IndexByName(rows: seq<Row>) returns (paths: set<Key>, byName: map<string, seq<Key>>)
    ensures paths == PathKeys(rows)
    ensures forall name :: Under(byName, name, []) == Named(rows, name)
  {
    paths, byName := {}, map[];
    for i := 0 to |rows|
      invariant paths == set k | 0 <= k < i :: RekordboxKey(rows[k])
      invariant forall name :: Under(byName, name, []) == Named(rows[..i], name)
    {
      paths := paths + {RekordboxKey(rows[i])};
      byName := FileUnderName(rows, i, byName);
    }
    assert rows[..|rows|] == rows;
  }

  /** One row more, under its name. */
  method FileUnderName(rows: seq<Row>, i: nat, byName: map<string, seq<Key>>) returns (more: map<string, seq<Key>>)
    requires i < |rows| && forall name :: Under(byName, name, []) == Named(rows[..i], name)
    ensures forall name :: Under(more, name, []) == Named(rows[..i + 1], name)
  {
    more := byName;
    if rows[i].path.Some? {
      var name := NameOf(rows[i].path.value);
      more := byName[name := Under(byName, name, []) + [RekordboxKey(rows[i])]];
    }
    forall name
      ensures Under(more, name, []) == Named(rows[..i + 1], name)
    {
      NamedNext(rows, i, name);
      assert Under(byName, name, []) == Named(rows[..i], name);
    }
  }

  method CountByName(rows: seq<Row>) returns (byName: map<string, nat>)
    ensures forall name :: Under(byName, name, 0) == |Named(rows, name)|
  {
    byName := map[];
    for i := 0 to |rows|
      invariant forall name :: Under(byName, name, 0) == |Named(rows[..i], name)|
    {
      ghost var before := byName;
      if rows[i].path.Some? {
        var name := NameOf(rows[i].path.value);
        byName := byName[name := Under(byName, name, 0) + 1];
      }
      forall name
        ensures Under(byName, name, 0) == |Named(rows[..i + 1], name)|
      {
        NamedNext(rows, i, name);
        assert Under(before, name, 0) == |Named(rows[..i], name)|;
      }
    }
    assert rows[..|rows|] == rows;
  }

  /** The key of one row, and whether it took the file-name fallback. */
  method PairRow(row: Row, paths: set<Key>, byName: map<string, seq<Key>>, engineByName: map<string, nat>,
                 ghost rekordbox: seq<Row>, ghost engine: seq<Row>) returns (key: Key, fellBack: bool)
    requires paths == PathKeys(rekordbox)
    requires forall name :: Under(byName, name, []) == Named(rekordbox, name)
    requires forall name :: Under(engineByName, name, 0) == |Named(engine, name)|
    ensures key == KeyOf(rekordbox, engine, row)
    ensures fellBack <==> row.path.Some? && FallsBack(rekordbox, engine, row.path.value)
  {
    if row.path.None? {
      return ENGINE_ID + row.sourceId, false;
    }
    var path := row.path.value;
    var name := NameOf(path);
    assert Under(byName, name, []) == Named(rekordbox, name);
    assert Under(engineByName, name, 0) == |Named(engine, name)|;
    if path !in paths && name in byName && |byName[name]| == 1 && Under(engineByName, name, 0) == 1 {
      return byName[name][0], true;
    }
    return path, false;
  }

  /** The keys by row id, a later row of an id replacing an earlier one's. */
  ghost function KeysOf(rekordbox: seq<Row>, engine: seq<Row>, rows: seq<Row>): map<string, Key> {
    if rows == [] then map[]
    else
      var last := rows[|rows| - 1];
      KeysOf(rekordbox, engine, rows[..|rows| - 1])[last.sourceId := KeyOf(rekordbox, engine, last)]
  }

  method PairRows(rekordbox: seq<Row>, engine: seq<Row>) returns (keyById: map<string, Key>, paired: nat)
    ensures keyById == KeysOf(rekordbox, engine, engine)
    ensures paired == CountFallbacks(rekordbox, engine, engine)
  {
    var paths, byName := IndexByName(rekordbox);
    var engineByName := CountByName(engine);
    keyById, paired := map[], 0;
    for i := 0 to |engine|
      invariant keyById == KeysOf(rekordbox, engine, engine[..i])
      invariant paired == CountFallbacks(rekordbox, engine, engine[..i])
    {
      assert engine[..i + 1][..i] == engine[..i];
      var key, fellBack := PairRow(engine[i], paths, byName, engineByName, rekordbox, engine);
      if fellBack {
        paired := paired + 1;
      }
      keyById := keyById[engine[i].sourceId := key];
    }
    assert engine[..|engine|] == engine;
  }

  /** Where no later row shares its id, a row's entry is its own key. */
  lemma {:induction false} KeysAt(rekordbox: seq<Row>, engine: seq<Row>, rows: seq<Row>, i: nat)
    requires i < |rows| && forall j :: i < j < |rows| ==> rows[j].sourceId != rows[i].sourceId
    ensures rows[i].sourceId in KeysOf(rekordbox, engine, rows)
    ensures KeysOf(rekordbox, engine, rows)[rows[i].sourceId] == KeyOf(rekordbox, engine, rows[i])
  {
    if i < |rows| - 1 {
      KeysAt(rekordbox, engine, rows[..|rows| - 1], i);
    }
  }

  // ----- no two rows are merged

  lemma {:induction false} NamedAreFiles(rows: seq<Row>, name: string, k: nat)
    requires k < |Named(rows, name)|
    ensures NameOf(Named(rows, name)[k]) == name
  {
    if k < |Named(rows[..|rows| - 1], name)| {
      NamedAreFiles(rows[..|rows| - 1], name, k);
    }
  }

  lemma {:induction false} TwoOfAName(rows: seq<Row>, i: nat, j: nat, name: string)
    requires i < j < |rows|
    requires rows[i].path.Some? && NameOf(rows[i].path.value) == name
    requires rows[j].path.Some? && NameOf(rows[j].path.value) == name
    ensures |Named(rows, name)| >= 2
  {
    var front := rows[..|rows| - 1];
    if j < |rows| - 1 {
      TwoOfAName(front, i, j, name);
    } else {
      OneOfAName(front, i, name);
    }
  }

  lemma {:induction false} OneOfAName(rows: seq<Row>, i: nat, name: string)
    requires i < |rows| && rows[i].path.Some? && NameOf(rows[i].path.value) == name
    ensures |Named(rows, name)| >= 1
  {
    if i < |rows| - 1 {
      OneOfAName(rows[..|rows| - 1], i, name);
    }
  }

  /** Two rows for one thing: the same file, or, without a file, the same id. */
  predicate SameThing(a: Row, b: Row) {
    a.path == b.path && (a.path.None? ==> a.sourceId == b.sourceId)
  }

  /** A row's key has the row's own file name, also where it is another row's path. */
  lemma KeyKeepsName(rekordbox: seq<Row>, engine: seq<Row>, row: Row)
    requires row.path.Some?
    ensures NameOf(KeyOf(rekordbox, engine, row)) == NameOf(row.path.value)
  {
    if FallsBack(rekordbox, engine, row.path.value) {
      NamedAreFiles(rekordbox, NameOf(row.path.value), 0);
    }
  }

  lemma {:induction false} NamedArePaths(rows: seq<Row>, name: string, k: nat)
    requires k < |Named(rows, name)|
    ensures exists row :: row in rows && row.path == Some(Named(rows, name)[k])
  {
    var front, last := rows[..|rows| - 1], rows[|rows| - 1];
    if k < |Named(front, name)| {
      NamedArePaths(front, name, k);
      var row :| row in front && row.path == Some(Named(front, name)[k]);
      assert row in rows;
    } else {
      assert last in rows;
    }
  }

  lemma {:induction false} PathIsNamed(rows: seq<Row>, row: Row)
    requires row in rows && row.path.Some?
    ensures row.path.value in Named(rows, NameOf(row.path.value))
  {
    var front, last := rows[..|rows| - 1], rows[|rows| - 1];
    if row in front {
      PathIsNamed(front, row);
    } else {
      assert rows == front + [last];
    }
  }

  /**
   A path that reads like what stands for an id; or, where the path falls back, a rekordbox track's
   path that does, under the same file name.
   */
  ghost predicate Poses(rekordbox: seq<Row>, engine: seq<Row>, path: string, id: string) {
    var key := ENGINE_ID + id;
    if FallsBack(rekordbox, engine, path) then
      NameOf(key) == NameOf(path) && exists row :: row in rekordbox && row.path == Some(key)
    else path == key
  }

  lemma PosesByKey(rekordbox: seq<Row>, engine: seq<Row>, b: Row, id: string)
    requires b.path.Some?
    ensures KeyOf(rekordbox, engine, b) == ENGINE_ID + id <==> Poses(rekordbox, engine, b.path.value, id)
  {
    var path, key := b.path.value, ENGINE_ID + id;
    if FallsBack(rekordbox, engine, path) {
      NamedAreFiles(rekordbox, NameOf(path), 0);
      NamedArePaths(rekordbox, NameOf(path), 0);
      if row :| row in rekordbox && row.path == Some(key) && NameOf(key) == NameOf(path) {
        PathIsNamed(rekordbox, row);
      }
    }
  }

  /** Two rows for one thing, or one without a file, and another whose path poses as the first one's id. */
  ghost predicate Confused(rekordbox: seq<Row>, engine: seq<Row>, a: Row, b: Row) {
    || SameThing(a, b)
    || (a.path.None? && b.path.Some? && Poses(rekordbox, engine, b.path.value, a.sourceId))
    || (b.path.None? && a.path.Some? && Poses(rekordbox, engine, a.path.value, b.sourceId))
  }

  /** Two rows get one key exactly when they are rows for one thing, or a path poses as an id. */
  lemma RowsAreNeverMerged(rekordbox: seq<Row>, engine: seq<Row>, i: nat, j: nat)
    requires i < j < |engine|
    ensures KeyOf(rekordbox, engine, engine[i]) == KeyOf(rekordbox, engine, engine[j]) <==>
            Confused(rekordbox, engine, engine[i], engine[j])
  {
    var a, b := engine[i], engine[j];
    if a.path.Some? && b.path.Some? {
      KeyKeepsName(rekordbox, engine, a);
      KeyKeepsName(rekordbox, engine, b);
      if NameOf(a.path.value) == NameOf(b.path.value) {
        TwoOfAName(engine, i, j, NameOf(a.path.value));
      }
    } else if a.path.Some? {
      PosesByKey(rekordbox, engine, a, b.sourceId);
    } else if b.path.Some? {
      PosesByKey(rekordbox, engine, b, a.sourceId);
    } else {
      assert (ENGINE_ID + a.sourceId)[|ENGINE_ID|..] == a.sourceId;
      assert (ENGINE_ID + b.sourceId)[|ENGINE_ID|..] == b.sourceId;
    }
  }

  /** No file of either catalog has a path that begins like an id. */
  ghost predicate PathsAreNoIds(rekordbox: seq<Row>, engine: seq<Row>) {
    forall row :: (row in rekordbox || row in engine) && row.path.Some? ==> !(ENGINE_ID <= row.path.value)
  }

  /** And then no path poses as an id, so nothing is merged. */
  lemma PathsDoNotPose(rekordbox: seq<Row>, engine: seq<Row>, i: nat, j: nat)
    requires i < j < |engine| && PathsAreNoIds(rekordbox, engine)
    ensures KeyOf(rekordbox, engine, engine[i]) == KeyOf(rekordbox, engine, engine[j]) <==>
            SameThing(engine[i], engine[j])
  {
    RowsAreNeverMerged(rekordbox, engine, i, j);
    forall row, id | row in engine && row.path.Some?
      ensures !Poses(rekordbox, engine, row.path.value, id)
    {
      assert ENGINE_ID <= ENGINE_ID + id;
    }
  }

  /** A file at the root named "engine id:5" gets the key of the row of id 5 that has no file. */
  lemma FilePosesAsId()
    ensures var engine := [Row("5", None), Row("6", Some("engine id:5"))];
            && KeyOf([], engine, engine[0]) == KeyOf([], engine, engine[1])
            && !SameThing(engine[0], engine[1])
  {
    assert Named([], NameOf("engine id:5")) == [];
    assert ENGINE_ID + "5" == "engine id:5";
  }

  /** And so does any file of that name that falls back to a rekordbox track at the root. */
  lemma FallbackPosesAsId(path: string)
    requires path != "engine id:5" && NameOf(path) == NameOf("engine id:5")
    ensures var rekordbox, engine := [Row("1", Some("engine id:5"))], [Row("5", None), Row("6", Some(path))];
            && KeyOf(rekordbox, engine, engine[0]) == KeyOf(rekordbox, engine, engine[1])
            && !SameThing(engine[0], engine[1])
  {
    var rekordbox, engine := [Row("1", Some("engine id:5"))], [Row("5", None), Row("6", Some(path))];
    assert rekordbox[..0] == [] && engine[..1] == [Row("5", None)] && [Row("5", None)][..0] == [];
    assert Named(rekordbox, NameOf(path)) == ["engine id:5"];
    assert Named(engine[..1], NameOf(path)) == [];
    assert Named(engine, NameOf(path)) == [path];
    assert PathKeys(rekordbox) == {"engine id:5"};
    assert ENGINE_ID + "5" == "engine id:5";
  }

  /** "a/engine id:5" is such a path. */
  lemma SomeNameFallsBack()
    ensures NameOf("a/engine id:5") == NameOf("engine id:5")
  {
    FileNameAfterSlash("a", "engine id:5");
    assert "a" + "/" + "engine id:5" == "a/engine id:5";
    NoSlashIsFileName("engine id:5");
  }

  lemma {:induction false} FileNameAfterSlash(dir: string, name: string)
    requires forall k :: 0 <= k < |name| ==> name[k] != '/'
    ensures FileName(dir + "/" + name) == name
  {
    var path := dir + "/" + name;
    if name != "" {
      var front := name[..|name| - 1];
      assert path[..|path| - 1] == dir + "/" + front;
      FileNameAfterSlash(dir, front);
    }
  }

  lemma {:induction false} NoSlashIsFileName(name: string)
    requires forall k :: 0 <= k < |name| ==> name[k] != '/'
    ensures FileName(name) == name
  {
    if name != "" { NoSlashIsFileName(name[..|name| - 1]); }
  }

  /** A row whose path is a rekordbox track's is recorded under that path. */
  lemma PathsPairFirst(rekordbox: seq<Row>, engine: seq<Row>, row: Row, k: nat)
    requires row.path.Some? && k < |rekordbox| && rekordbox[k].path == row.path
    ensures KeyOf(rekordbox, engine, row) == RekordboxKey(rekordbox[k])
  {
    assert RekordboxKey(rekordbox[k]) in PathKeys(rekordbox);
  }

  /** Where ids are distinct, the table keeps apart what the keys do. */
  lemma TableKeepsRowsApart(rekordbox: seq<Row>, engine: seq<Row>, i: nat, j: nat)
    requires i < j < |engine|
    requires forall a, b :: 0 <= a < b < |engine| ==> engine[a].sourceId != engine[b].sourceId
    ensures var keys, a, b := KeysOf(rekordbox, engine, engine), engine[i], engine[j];
            && a.sourceId in keys && b.sourceId in keys
            && (keys[a.sourceId] == keys[b.sourceId] <==> Confused(rekordbox, engine, a, b))
  {
    KeysAt(rekordbox, engine, engine, i);
    KeysAt(rekordbox, engine, engine, j);
    RowsAreNeverMerged(rekordbox, engine, i, j);
  }
}
