/**
 How the route graph of a process version is stored and read back: four tables shared by all
 versions, each row with its position as `ordinal`.
 */
module ProcessVersions {
  import opened Prelude

  /** A row of any of the tables; sources and templates carry the key of their step. */
  datatype Row = Row(version: nat, key: string, ordinal: nat, data: string)

  /** A step as it is supplied; `data` is everything but the key and the two lists. */
  datatype StepInput = StepInput(key: string, data: string, sources: seq<string>, templates: seq<string>)

  datatype PathInput = PathInput(key: string, data: string)

  datatype StoredPath = StoredPath(path: PathInput, ordinal: nat)

  datatype Graph = Graph(steps: seq<StepInput>, paths: seq<StoredPath>)

  datatype Tables = Tables(steps: seq<Row>, sources: seq<Row>, templates: seq<Row>, paths: seq<Row>)

  // ---------------------------------------------------------------------------
  // Queries
  // ---------------------------------------------------------------------------

  function OfVersion(rows: seq<Row>, version: nat, same: bool): seq<Row> {
    if rows == [] then []
    else (if (rows[0].version == version) == same then [rows[0]] else []) + OfVersion(rows[1..], version, same)
  }

  function OfKey(rows: seq<Row>, key: string): seq<Row> {
    if rows == [] then []
    else (if rows[0].key == key then [rows[0]] else []) + OfKey(rows[1..], key)
  }

  function Insert(row: Row, sorted: seq<Row>): seq<Row> {
    if sorted == [] || row.ordinal <= sorted[0].ordinal then [row] + sorted
    else [sorted[0]] + Insert(row, sorted[1..])
  }

  /** `ORDER BY ordinal`. */
  function Sort(rows: seq<Row>): seq<Row> {
    if rows == [] then [] else Insert(rows[0], Sort(rows[1..]))
  }

  function DataOf(rows: seq<Row>): seq<string> {
    seq(|rows|, i requires 0 <= i < |rows| => rows[i].data)
  }

  function PartsOf(rows: seq<Row>, version: nat, key: string): seq<string> {
    DataOf(Sort(OfKey(OfVersion(rows, version, true), key)))
  }

  function ReadStep(t: Tables, version: nat, row: Row): StepInput {
    StepInput(row.key, row.data, PartsOf(t.sources, version, row.key), PartsOf(t.templates, version, row.key))
  }

  /** `graph`. */
  function ReadGraph(t: Tables, version: nat): Graph {
    var steps, paths := Sort(OfVersion(t.steps, version, true)), Sort(OfVersion(t.paths, version, true));
    Graph(seq(|steps|, i requires 0 <= i < |steps| => ReadStep(t, version, steps[i])),
          seq(|paths|, i requires 0 <= i < |paths| =>
            StoredPath(PathInput(paths[i].key, paths[i].data), paths[i].ordinal)))
  }

  // ---------------------------------------------------------------------------
  // Saving
  // ---------------------------------------------------------------------------

  /** The rows of the first `n` items of a list. */
  function ItemRows(version: nat, key: string, items: seq<string>, n: nat): seq<Row>
    requires n <= |items|
  {
    if n == 0 then [] else ItemRows(version, key, items, n - 1) + [Row(version, key, n - 1, items[n - 1])]
  }

  function StepRows(version: nat, steps: seq<StepInput>, n: nat): seq<Row>
    requires n <= |steps|
  {
    if n == 0 then []
    else StepRows(version, steps, n - 1) + [Row(version, steps[n - 1].key, n - 1, steps[n - 1].data)]
  }

  function PathRows(version: nat, paths: seq<PathInput>, n: nat): seq<Row>
    requires n <= |paths|
  {
    if n == 0 then []
    else PathRows(version, paths, n - 1) + [Row(version, paths[n - 1].key, n - 1, paths[n - 1].data)]
  }

  /** The list of a step that goes to the template table, or to the source table. */
  function Items(s: StepInput, templates: bool): seq<string> {
    if templates then s.templates else s.sources
  }

  function PartRows(version: nat, steps: seq<StepInput>, n: nat, templates: bool): seq<Row>
    requires n <= |steps|
  {
    if n == 0 then []
    else
      var s := steps[n - 1];
      PartRows(version, steps, n - 1, templates) + ItemRows(version, s.key, Items(s, templates), |Items(s, templates)|)
  }

  /** The keys of a version are unique in the step table and in the transition table. */
  predicate KeysUnique(steps: seq<StepInput>, paths: seq<PathInput>) {
    && (forall i, j :: 0 <= i < j < |steps| ==> steps[i].key != steps[j].key)
    && (forall i, j :: 0 <= i < j < |paths| ==> paths[i].key != paths[j].key)
  }

  /** `save_graph` where no unique constraint fails. */
  function Saved(t: Tables, version: nat, steps: seq<StepInput>, paths: seq<PathInput>): Tables {
    Tables(OfVersion(t.steps, version, false) + StepRows(version, steps, |steps|),
           OfVersion(t.sources, version, false) + PartRows(version, steps, |steps|, false),
           OfVersion(t.templates, version, false) + PartRows(version, steps, |steps|, true),
           OfVersion(t.paths, version, false) + PathRows(version, paths, |paths|))
  }

  class GraphStore {
    var tables: Tables

    constructor ()
      ensures tables == Tables([], [], [], [])
    {
      tables := Tables([], [], [], []);
    }

    /** The rows of one list of a step. */
    method AddItems(version: nat, key: string, items: seq<string>) returns (rows: seq<Row>)
      ensures rows == ItemRows(version, key, items, |items|)
    {
      rows := [];
      var i := 0;
      while i < |items|
        invariant 0 <= i <= |items|
        invariant rows == ItemRows(version, key, items, i)
      {
        rows := rows + [Row(version, key, i, items[i])];
        i := i + 1;
      }
    }

    /** The loop over the steps. */
    method AddSteps(version: nat, steps: seq<StepInput>)
        returns (rows: seq<Row>, sources: seq<Row>, templates: seq<Row>)
      ensures rows == StepRows(version, steps, |steps|)
      ensures sources == PartRows(version, steps, |steps|, false)
      ensures templates == PartRows(version, steps, |steps|, true)
    {
      rows, sources, templates := [], [], [];
      var n := 0;
      while n < |steps|
        invariant 0 <= n <= |steps|
        invariant rows == StepRows(version, steps, n)
        invariant sources == PartRows(version, steps, n, false)
        invariant templates == PartRows(version, steps, n, true)
      {
        var s := steps[n];
        rows := rows + [Row(version, s.key, n, s.data)];
        var items := AddItems(version, s.key, s.sources);
        sources := sources + items;
        items := AddItems(version, s.key, s.templates);
        templates := templates + items;
        n := n + 1;
      }
    }

    /** The loop over the transitions. */
    method AddPaths(version: nat, paths: seq<PathInput>) returns (rows: seq<Row>)
      ensures rows == PathRows(version, paths, |paths|)
    {
      rows := [];
      var n := 0;
      while n < |paths|
        invariant 0 <= n <= |paths|
        invariant rows == PathRows(version, paths, n)
      {
        rows := rows + [Row(version, paths[n].key, n, paths[n].data)];
        n := n + 1;
      }
    }

    /** `save_graph`; a repeated key makes the flush fail, and everything is rolled back. */
    method SaveGraph(version: nat, steps: seq<StepInput>, paths: seq<PathInput>) returns (ok: bool)
      modifies this
      ensures ok == KeysUnique(steps, paths)
      ensures tables == if ok then Saved(old(tables), version, steps, paths) else old(tables)
    {
      hide OfVersion, StepRows, PartRows, PathRows;
      var before := tables;
      tables := Tables(OfVersion(before.steps, version, false), OfVersion(before.sources, version, false),
                       OfVersion(before.templates, version, false), OfVersion(before.paths, version, false));
      var rows, sources, templates := AddSteps(version, steps);
      tables := tables.(steps := tables.steps + rows, sources := tables.sources + sources,
                        templates := tables.templates + templates);
      var paths' := AddPaths(version, paths);
      tables := tables.(paths := tables.paths + paths');
      ok := KeysUnique(steps, paths);
      if !ok {
        tables := before;
      }
    }
  }

  // ---------------------------------------------------------------------------
  // Reading back
  // ---------------------------------------------------------------------------

  ghost predicate AllOf(rows: seq<Row>, version: nat) {
    forall i :: 0 <= i < |rows| ==> rows[i].version == version
  }

  lemma {:induction false} Regroup(a: seq<Row>, b: seq<Row>, c: seq<Row>)
    ensures a + (b + c) == (a + b) + c
  {
  }

  lemma {:induction false} OfVersionFirst(row: Row, rows: seq<Row>, version: nat, same: bool)
    ensures OfVersion([row] + rows, version, same)
         == (if (row.version == version) == same then [row] else []) + OfVersion(rows, version, same)
  {
    assert ([row] + rows)[1..] == rows;
  }

  lemma {:induction false} OfKeyFirst(row: Row, rows: seq<Row>, key: string)
    ensures OfKey([row] + rows, key) == (if row.key == key then [row] else []) + OfKey(rows, key)
  {
    assert ([row] + rows)[1..] == rows;
  }

  lemma {:induction false} OfVersionConcat(a: seq<Row>, b: seq<Row>, version: nat, same: bool)
    ensures OfVersion(a + b, version, same) == OfVersion(a, version, same) + OfVersion(b, version, same)
  {
    if a == [] {
      assert a + b == b;
    } else {
      hide OfVersion;
      var head := if (a[0].version == version) == same then [a[0]] else [];
      assert a == [a[0]] + a[1..] && a + b == [a[0]] + (a[1..] + b);
      OfVersionFirst(a[0], a[1..], version, same);
      OfVersionFirst(a[0], a[1..] + b, version, same);
      OfVersionConcat(a[1..], b, version, same);
      Regroup(head, OfVersion(a[1..], version, same), OfVersion(b, version, same));
    }
  }

  lemma {:induction false} OfVersionAll(rows: seq<Row>, version: nat, other: nat)
    requires AllOf(rows, version)
    ensures OfVersion(rows, other, true) == if other == version then rows else []
  {
    if rows != [] {
      OfVersionAll(rows[1..], version, other);
    }
  }

  /** Deleting a version and reading it gives nothing; reading another gives what it had. */
  lemma {:induction false} OfVersionDeleted(rows: seq<Row>, version: nat, other: nat)
    ensures OfVersion(OfVersion(rows, version, false), other, true)
         == if other == version then [] else OfVersion(rows, other, true)
  {
    if rows != [] {
      var head := if rows[0].version == version then [] else [rows[0]];
      OfVersionConcat(head, OfVersion(rows[1..], version, false), other, true);
      OfVersionDeleted(rows[1..], version, other);
    }
  }

  lemma {:induction false} OfKeyConcat(a: seq<Row>, b: seq<Row>, key: string)
    ensures OfKey(a + b, key) == OfKey(a, key) + OfKey(b, key)
  {
    if a == [] {
      assert a + b == b;
    } else {
      hide OfKey;
      var head := if a[0].key == key then [a[0]] else [];
      assert a == [a[0]] + a[1..] && a + b == [a[0]] + (a[1..] + b);
      OfKeyFirst(a[0], a[1..], key);
      OfKeyFirst(a[0], a[1..] + b, key);
      OfKeyConcat(a[1..], b, key);
      Regroup(head, OfKey(a[1..], key), OfKey(b, key));
    }
  }

  lemma {:induction false} OfKeyAll(rows: seq<Row>, key: string, other: string)
    requires forall i :: 0 <= i < |rows| ==> rows[i].key == key
    ensures OfKey(rows, other) == if other == key then rows else []
  {
    if rows != [] {
      OfKeyAll(rows[1..], key, other);
    }
  }

  /** Rows whose ordinals are their positions, counted from `from`. */
  ghost predicate InOrder(rows: seq<Row>, from: nat) {
    forall i :: 0 <= i < |rows| ==> rows[i].ordinal == from + i
  }

  lemma {:induction false} SortInOrder(rows: seq<Row>, from: nat)
    requires InOrder(rows, from)
    ensures Sort(rows) == rows
  {
    if rows != [] {
      assert forall i :: 0 <= i < |rows[1..]| ==> rows[1..][i] == rows[i + 1];
      SortInOrder(rows[1..], from + 1);
    }
  }

  lemma {:induction false} ItemRowsShape(version: nat, key: string, items: seq<string>, n: nat)
    requires n <= |items|
    ensures var rows := ItemRows(version, key, items, n);
            && |rows| == n && AllOf(rows, version) && InOrder(rows, 0)
            && forall i :: 0 <= i < n ==> rows[i].key == key && rows[i].data == items[i]
  {
    if n > 0 {
      ItemRowsShape(version, key, items, n - 1);
    }
  }

  lemma {:induction false} StepRowsShape(version: nat, steps: seq<StepInput>, n: nat)
    requires n <= |steps|
    ensures var rows := StepRows(version, steps, n);
            && |rows| == n && AllOf(rows, version) && InOrder(rows, 0)
            && forall i :: 0 <= i < n ==> rows[i].key == steps[i].key && rows[i].data == steps[i].data
  {
    if n > 0 {
      StepRowsShape(version, steps, n - 1);
    }
  }

  lemma {:induction false} PathRowsShape(version: nat, paths: seq<PathInput>, n: nat)
    requires n <= |paths|
    ensures var rows := PathRows(version, paths, n);
            && |rows| == n && AllOf(rows, version) && InOrder(rows, 0)
            && forall i :: 0 <= i < n ==> rows[i].key == paths[i].key && rows[i].data == paths[i].data
  {
    if n > 0 {
      PathRowsShape(version, paths, n - 1);
    }
  }

  lemma {:induction false} PartsOfVersion(version: nat, steps: seq<StepInput>, n: nat, templates: bool)
    requires n <= |steps|
    ensures AllOf(PartRows(version, steps, n, templates), version)
  {
    if n > 0 {
      hide ItemRows, Items;
      var s := steps[n - 1];
      PartsOfVersion(version, steps, n - 1, templates);
      ItemRowsShape(version, s.key, Items(s, templates), |Items(s, templates)|);
    }
  }

  /** The rows of one more step under a key: those of the step if it is its key, and none otherwise. */
  lemma {:induction false} PartsUnderKey(version: nat, steps: seq<StepInput>, n: nat, templates: bool, key: string)
    requires 0 < n <= |steps|
    ensures var s := steps[n - 1];
            OfKey(PartRows(version, steps, n, templates), key)
            == OfKey(PartRows(version, steps, n - 1, templates), key)
               + if s.key == key then ItemRows(version, key, Items(s, templates), |Items(s, templates)|) else []
  {
    hide OfKey, ItemRows, Items;
    var s := steps[n - 1];
    var rows := ItemRows(version, s.key, Items(s, templates), |Items(s, templates)|);
    ItemRowsShape(version, s.key, Items(s, templates), |Items(s, templates)|);
    OfKeyConcat(PartRows(version, steps, n - 1, templates), rows, key);
    OfKeyAll(rows, s.key, key);
  }

  lemma {:induction false} NoParts(version: nat, steps: seq<StepInput>, n: nat, templates: bool, key: string)
    requires n <= |steps| && forall i :: 0 <= i < n ==> steps[i].key != key
    ensures OfKey(PartRows(version, steps, n, templates), key) == []
  {
    if n > 0 {
      NoParts(version, steps, n - 1, templates, key);
      PartsUnderKey(version, steps, n, templates, key);
    }
  }

  /** The items of a step are found under its key, and only those. */
  lemma {:induction false} PartsOfStep(version: nat, steps: seq<StepInput>, n: nat, templates: bool, i: nat)
    requires i < n <= |steps| && forall j, k :: 0 <= j < k < |steps| ==> steps[j].key != steps[k].key
    ensures OfKey(PartRows(version, steps, n, templates), steps[i].key)
         == ItemRows(version, steps[i].key, Items(steps[i], templates), |Items(steps[i], templates)|)
    decreases n
  {
    hide OfKey, ItemRows, Items, PartRows;
    var key := steps[i].key;
    PartsUnderKey(version, steps, n, templates, key);
    if i == n - 1 {
      NoParts(version, steps, n - 1, templates, key);
    } else {
      PartsOfStep(version, steps, n - 1, templates, i);
    }
  }

  /** What the query for a version sees after another list of its rows replaced the old ones. */
  lemma {:induction false} Replaced(rows: seq<Row>, version: nat, added: seq<Row>, other: nat)
    requires AllOf(added, version)
    ensures OfVersion(OfVersion(rows, version, false) + added, other, true)
         == if other == version then added else OfVersion(rows, other, true)
  {
    OfVersionConcat(OfVersion(rows, version, false), added, other, true);
    OfVersionDeleted(rows, version, other);
    OfVersionAll(added, version, other);
  }

  lemma {:induction false} ItemsReadBack(version: nat, key: string, items: seq<string>)
    ensures DataOf(Sort(ItemRows(version, key, items, |items|))) == items
  {
    ItemRowsShape(version, key, items, |items|);
    SortInOrder(ItemRows(version, key, items, |items|), 0);
  }

  function Numbered(paths: seq<PathInput>): seq<StoredPath> {
    seq(|paths|, i requires 0 <= i < |paths| => StoredPath(paths[i], i))
  }

  lemma {:induction false} ItemsOfStep(rows: seq<Row>, version: nat, steps: seq<StepInput>, templates: bool, i: nat)
    requires i < |steps| && forall i, j :: 0 <= i < j < |steps| ==> steps[i].key != steps[j].key
    ensures PartsOf(OfVersion(rows, version, false) + PartRows(version, steps, |steps|, templates),
                    version, steps[i].key)
         == Items(steps[i], templates)
  {
    hide OfVersion, OfKey, PartRows, ItemRows, Sort, Items;
    PartsOfVersion(version, steps, |steps|, templates);
    PartsOfStep(version, steps, |steps|, templates, i);
    Replaced(rows, version, PartRows(version, steps, |steps|, templates), version);
    ItemsReadBack(version, steps[i].key, Items(steps[i], templates));
  }

  /** Reading a saved version gives back its steps, sources, templates and transitions in their order. */
  lemma {:induction false} SavedGraphReadsBack(t: Tables, version: nat, steps: seq<StepInput>, paths: seq<PathInput>)
    requires KeysUnique(steps, paths)
    ensures ReadGraph(Saved(t, version, steps, paths), version) == Graph(steps, Numbered(paths))
  {
    hide OfVersion, PartRows, StepRows, PathRows, Sort, PartsOf;
    var u := Saved(t, version, steps, paths);
    var rows, pathRows := StepRows(version, steps, |steps|), PathRows(version, paths, |paths|);
    StepRowsShape(version, steps, |steps|);
    PathRowsShape(version, paths, |paths|);
    Replaced(t.steps, version, rows, version);
    Replaced(t.paths, version, pathRows, version);
    SortInOrder(rows, 0);
    SortInOrder(pathRows, 0);
    forall i | 0 <= i < |steps| ensures ReadStep(u, version, rows[i]) == steps[i] {
      ItemsOfStep(t.sources, version, steps, false, i);
      ItemsOfStep(t.templates, version, steps, true, i);
    }
    assert ReadGraph(u, version).steps == steps;
    assert ReadGraph(u, version).paths == Numbered(paths);
  }

  /** Saving one version leaves the graphs of all others as they were. */
  lemma {:induction false} OtherVersionsKeepTheirGraph(t: Tables, version: nat, steps: seq<StepInput>,
                                                       paths: seq<PathInput>, other: nat)
    requires KeysUnique(steps, paths) && other != version
    ensures ReadGraph(Saved(t, version, steps, paths), other) == ReadGraph(t, other)
  {
    hide OfVersion, OfKey, PartRows, StepRows, PathRows, Sort;
    var u := Saved(t, version, steps, paths);
    StepRowsShape(version, steps, |steps|);
    PathRowsShape(version, paths, |paths|);
    PartsOfVersion(version, steps, |steps|, false);
    PartsOfVersion(version, steps, |steps|, true);
    Replaced(t.steps, version, StepRows(version, steps, |steps|), other);
    Replaced(t.paths, version, PathRows(version, paths, |paths|), other);
    Replaced(t.sources, version, PartRows(version, steps, |steps|, false), other);
    Replaced(t.templates, version, PartRows(version, steps, |steps|, true), other);
    assert ReadGraph(u, other).steps == ReadGraph(t, other).steps;
    assert ReadGraph(u, other).paths == ReadGraph(t, other).paths;
  }

  function Supplied(paths: seq<StoredPath>): seq<PathInput> {
    seq(|paths|, i requires 0 <= i < |paths| => paths[i].path)
  }

  // ---------------------------------------------------------------------------
  // Saving and copying, one after the other
  // ---------------------------------------------------------------------------

  datatype Change =
    | Save(version: nat, steps: seq<StepInput>, paths: seq<PathInput>)
    | Copy(original: nat, version: nat)

  /** A repeated key is refused, and the transaction is rolled back. */
  function Changed(t: Tables, change: Change): Tables {
    match change
    case Save(version, steps, paths) => if KeysUnique(steps, paths) then Saved(t, version, steps, paths) else t
    case Copy(original, version) =>
      var g := ReadGraph(t, original);
      if KeysUnique(g.steps, Supplied(g.paths)) then Saved(t, version, g.steps, Supplied(g.paths)) else t
  }

  function Run(t: Tables, changes: seq<Change>): Tables
    decreases |changes|
  {
    if changes == [] then t else Run(Changed(t, changes[0]), changes[1..])
  }

  const NOTHING: Tables := Tables([], [], [], [])

  /** Whatever version is read, its keys are unique. */
  ghost predicate KeysStored(t: Tables) {
    forall version: nat :: VersionKeys(t, version)
  }

  ghost predicate VersionKeys(t: Tables, version: nat) {
    KeysUnique(ReadGraph(t, version).steps, Supplied(ReadGraph(t, version).paths))
  }

  lemma {:induction false} SavedKeepsKeys(t: Tables, version: nat, steps: seq<StepInput>, paths: seq<PathInput>)
    requires KeysStored(t) && KeysUnique(steps, paths)
    ensures KeysStored(Saved(t, version, steps, paths))
  {
    hide ReadGraph, Saved;
    forall other: nat
      ensures VersionKeys(Saved(t, version, steps, paths), other)
    {
      if other == version {
        SavedGraphReadsBack(t, version, steps, paths);
        assert Supplied(Numbered(paths)) == paths;
      } else {
        OtherVersionsKeepTheirGraph(t, version, steps, paths, other);
        assert VersionKeys(t, other);
      }
    }
  }

  lemma {:induction false} RunKeepsKeys(t: Tables, changes: seq<Change>)
    requires KeysStored(t)
    ensures KeysStored(Run(t, changes))
    decreases |changes|
  {
    hide KeysStored, ReadGraph, Saved, KeysUnique;
    if changes != [] {
      if Changed(t, changes[0]) != t {
        match changes[0]
        case Save(version, steps, paths) => SavedKeepsKeys(t, version, steps, paths);
        case Copy(original, version) =>
          var g := ReadGraph(t, original);
          SavedKeepsKeys(t, version, g.steps, Supplied(g.paths));
      }
      RunKeepsKeys(Changed(t, changes[0]), changes[1..]);
    }
  }

  lemma {:induction false} NothingStored()
    ensures KeysStored(NOTHING)
  {
  }

  /**
   After any sequence of saves and copies, copying a version is accepted and gives the new version the
   same graph, with the transitions renumbered from zero.
   */
  lemma {:induction false} CopiedVersionHasTheSameGraph(changes: seq<Change>, original: nat, version: nat)
    ensures var t := Run(NOTHING, changes);
            var g := ReadGraph(t, original);
            && Changed(t, Copy(original, version)) == Saved(t, version, g.steps, Supplied(g.paths))
            && ReadGraph(Changed(t, Copy(original, version)), version) == Graph(g.steps, Numbered(Supplied(g.paths)))
  {
    hide ReadGraph, Saved, Run;
    NothingStored();
    RunKeepsKeys(NOTHING, changes);
    var t := Run(NOTHING, changes);
    assert VersionKeys(t, original);
    SavedGraphReadsBack(t, version, ReadGraph(t, original).steps, Supplied(ReadGraph(t, original).paths));
  }
}
