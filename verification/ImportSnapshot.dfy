/** `plan_snapshot`: both sources, their ten lists each, and what a plan without errors guarantees. */
module ImportSnapshot {
  import opened Prelude
  import opened ImportPlan

  datatype RawTable = NullTable | NotAList | Rows(rows: seq<RawRow>)

  datatype RawAdoptions = NotADict | Dict(ids: map<string, RawAdoption>)

  /** `tables` and `adopt` are `None` where the snapshot holds something that is no dictionary. */
  datatype RawSource =
    | NotASource
    | RawSource(database: string, registry: Option<Id>, tables: Option<map<string, RawTable>>,
                adopt: Option<map<string, RawAdoptions>>)

  datatype PlanSet = PlanSet(database: string, table: string, registry: Id, code: string, name: string, count: nat)

  datatype Plan = Plan(sets: seq<PlanSet>, items: seq<Spec>)

  const DATABASES: set<string> := {"okrug", "raion"}

  function TableNames(n: nat): (r: set<string>)
    requires n <= |LISTS|
    ensures forall x :: x in r <==> exists i :: 0 <= i < n && LISTS[i].table == x
  {
    if n == 0 then {} else TableNames(n - 1) + {LISTS[n - 1].table}
  }

  function Merge(p: Plan, q: Plan): Plan {
    Plan(p.sets + q.sets, p.items + q.items)
  }

  // ---------------------------------------------------------------------------
  // What a plan guarantees
  // ---------------------------------------------------------------------------

  predicate Belongs(item: Spec, s: PlanSet) {
    item.database == s.database && item.table == s.table && item.registry == s.registry && item.code == s.code
  }

  predicate SetsApart(s: PlanSet, t: PlanSet) {
    (s.database != t.database || s.table != t.table) && (s.registry != t.registry || s.code != t.code)
  }

  /** Two items never share their source identity, nor their label within one target set. */
  predicate ItemsApart(a: Spec, b: Spec) {
    && (a.database != b.database || a.table != b.table || a.sourceId != b.sourceId)
    && (a.registry != b.registry || a.code != b.code || a.name != b.name)
  }

  ghost predicate HasSet(p: Plan, i: nat)
    requires i < |p.items|
  {
    exists k :: 0 <= k < |p.sets| && Belongs(p.items[i], p.sets[k])
  }

  ghost predicate PlanOk(p: Plan) {
    && (forall i :: 0 <= i < |p.items| ==> HasSet(p, i))
    && (forall i, j :: 0 <= i < j < |p.sets| ==> SetsApart(p.sets[i], p.sets[j]))
    && (forall i, j :: 0 <= i < j < |p.items| ==> ItemsApart(p.items[i], p.items[j]))
  }

  ghost predicate PlansApart(p: Plan, q: Plan) {
    forall i, j :: 0 <= i < |p.sets| && 0 <= j < |q.sets| ==> SetsApart(p.sets[i], q.sets[j])
  }

  lemma {:induction false} MergeKeepsPlanOk(p: Plan, q: Plan)
    requires PlanOk(p) && PlanOk(q) && PlansApart(p, q)
    ensures PlanOk(Merge(p, q))
  {
    var r := Merge(p, q);
    forall i | 0 <= i < |r.items| ensures HasSet(r, i) {
      if i < |p.items| {
        assert HasSet(p, i);
        var k :| 0 <= k < |p.sets| && Belongs(p.items[i], p.sets[k]);
        assert Belongs(r.items[i], r.sets[k]);
      } else {
        assert HasSet(q, i - |p.items|);
        var k :| 0 <= k < |q.sets| && Belongs(q.items[i - |p.items|], q.sets[k]);
        assert Belongs(r.items[i], r.sets[|p.sets| + k]);
      }
    }
    forall i, j | 0 <= i < j < |r.items| ensures ItemsApart(r.items[i], r.items[j]) {
      if j < |p.items| {
        assert ItemsApart(p.items[i], p.items[j]);
      } else if i >= |p.items| {
        assert ItemsApart(q.items[i - |p.items|], q.items[j - |p.items|]);
      } else {
        assert HasSet(p, i) && HasSet(q, j - |p.items|);
        var k :| 0 <= k < |p.sets| && Belongs(p.items[i], p.sets[k]);
        var l :| 0 <= l < |q.sets| && Belongs(q.items[j - |p.items|], q.sets[l]);
        assert SetsApart(p.sets[k], q.sets[l]);
      }
    }
    forall i, j | 0 <= i < j < |r.sets| ensures SetsApart(r.sets[i], r.sets[j]) {
      if j < |p.sets| {
        assert SetsApart(p.sets[i], p.sets[j]);
      } else if i >= |p.sets| {
        assert SetsApart(q.sets[i - |p.sets|], q.sets[j - |p.sets|]);
      } else {
        assert SetsApart(p.sets[i], q.sets[j - |p.sets|]);
      }
    }
  }

  // ---------------------------------------------------------------------------
  // One list
  // ---------------------------------------------------------------------------

  function ContextOf(s: RawSource, i: nat): Context
    requires i < |LISTS| && s.RawSource? && s.registry.Some?
  {
    Context(s.database, LISTS[i].table, LISTS[i].code, s.registry.value)
  }

  function AdoptionsOf(s: RawSource, i: nat): RawAdoptions
    requires i < |LISTS| && s.RawSource?
  {
    if s.adopt.Some? && s.adopt.value.Keys <= TableNames(|LISTS|) && LISTS[i].table in s.adopt.value
    then s.adopt.value[LISTS[i].table]
    else Dict(map[])
  }

  function TableOf(s: RawSource, i: nat): RawTable
    requires i < |LISTS| && s.RawSource? && s.tables.Some?
  {
    if LISTS[i].table in s.tables.value then s.tables.value[LISTS[i].table] else NullTable
  }

  /** A list is absent, null, or in order. */
  ghost predicate TableOk(s: RawSource, i: nat)
    requires i < |LISTS| && s.RawSource? && s.registry.Some? && s.tables.Some?
  {
    match TableOf(s, i)
    case NullTable => true
    case NotAList => false
    case Rows(rows) => AdoptionsOf(s, i).Dict? && ListOk(ContextOf(s, i), rows, AdoptionsOf(s, i).ids)
  }

  /** The plan of one list: its set, and one item for each row. */
  ghost function TablePlan(s: RawSource, i: nat): Plan
    requires i < |LISTS| && s.RawSource? && s.registry.Some? && s.tables.Some? && TableOk(s, i)
  {
    var c := ContextOf(s, i);
    match TableOf(s, i)
    case Rows(rows) =>
      Plan([PlanSet(c.database, c.table, c.registry, c.code, LISTS[i].name, |rows|)],
           Specs(c, rows, |rows|, AdoptionsOf(s, i).ids))
    case _ => Plan([], [])
  }

  lemma {:induction false} SpecsMeaning(c: Context, rows: seq<RawRow>, n: nat, adoption: map<string, RawAdoption>)
    requires n <= |rows| && RowsOk(c, rows, n, adoption)
    ensures var items := Specs(c, rows, n, adoption);
            |items| == n && forall i :: 0 <= i < n ==> items[i] == SpecOf(c, rows[i], adoption)
  {
    hide RowShaped, SpecOf, Clash;
    if n > 0 {
      SpecsMeaning(c, rows, n - 1, adoption);
    }
  }

  lemma {:induction false} TablePlanOk(s: RawSource, i: nat)
    requires i < |LISTS| && s.RawSource? && s.registry.Some? && s.tables.Some? && TableOk(s, i)
    ensures PlanOk(TablePlan(s, i))
    ensures TableOf(s, i).Rows? ==> |TablePlan(s, i).items| == |TableOf(s, i).rows|
  {
    if TableOf(s, i).Rows? {
      var c, rows, adoption := ContextOf(s, i), TableOf(s, i).rows, AdoptionsOf(s, i).ids;
      var p := TablePlan(s, i);
      hide RowShaped, LabelOf, SourceId;
      SpecsMeaning(c, rows, |rows|, adoption);
      forall k | 0 <= k < |p.items| ensures HasSet(p, k) {
        assert RowShaped(c, rows[k], adoption);
        assert Belongs(p.items[k], p.sets[0]);
      }
      forall k, l | 0 <= k < l < |p.items| ensures ItemsApart(p.items[k], p.items[l]) {
        assert RowShaped(c, rows[k], adoption) && RowShaped(c, rows[l], adoption);
        ShapedIsNamed(c, rows[k], adoption);
        ShapedIsNamed(c, rows[l], adoption);
        assert !Clash(c, rows, k, l);
      }
    }
  }

  // ---------------------------------------------------------------------------
  // One source
  // ---------------------------------------------------------------------------

  ghost predicate TablesOk(s: RawSource, n: nat)
    requires n <= |LISTS| && s.RawSource? && s.registry.Some? && s.tables.Some?
  {
    forall i :: 0 <= i < n ==> TableOk(s, i)
  }

  ghost function TablesPlan(s: RawSource, n: nat): Plan
    requires n <= |LISTS| && s.RawSource? && s.registry.Some? && s.tables.Some? && TablesOk(s, n)
  {
    if n == 0 then Plan([], []) else Merge(TablesPlan(s, n - 1), TablePlan(s, n - 1))
  }

  /** A source is complete and every list of it is in order. */
  ghost predicate SourceOk(s: RawSource) {
    && s.RawSource? && s.database in DATABASES && s.registry.Some?
    && s.tables.Some? && s.tables.value.Keys == TableNames(|LISTS|)
    && s.adopt.Some? && s.adopt.value.Keys <= TableNames(|LISTS|)
    && TablesOk(s, |LISTS|)
  }

  /** No two lists share a table or a code. */
  lemma {:induction false} ListsDiffer(i: nat, j: nat)
    requires i < j < |LISTS|
    ensures LISTS[i].table != LISTS[j].table && LISTS[i].code != LISTS[j].code
  {
  }

  /** The sets of a plan come from the first `n` lists of the source. */
  ghost predicate SetsOfSource(p: Plan, s: RawSource, n: nat)
    requires n <= |LISTS| && s.RawSource? && s.registry.Some?
  {
    forall k :: 0 <= k < |p.sets| ==>
      p.sets[k].database == s.database && p.sets[k].registry == s.registry.value
      && exists i :: 0 <= i < n && IsList(p.sets[k], i)
  }

  predicate IsList(s: PlanSet, i: nat)
    requires i < |LISTS|
  {
    s.table == LISTS[i].table && s.code == LISTS[i].code
  }

  lemma {:induction false} TablesPlanOk(s: RawSource, n: nat)
    requires n <= |LISTS| && s.RawSource? && s.registry.Some? && s.tables.Some? && TablesOk(s, n)
    ensures PlanOk(TablesPlan(s, n)) && SetsOfSource(TablesPlan(s, n), s, n)
  {
    if n > 0 {
      TablesPlanOk(s, n - 1);
      assert TableOk(s, n - 1);
      TablePlanOk(s, n - 1);
      hide TableOk, TablesOk, TablePlan, PlanOk, SetsApart;
      var p, q := TablesPlan(s, n - 1), TablePlan(s, n - 1);
      ListSets(p, q, s, n);
      MergeKeepsPlanOk(p, q);
      SetsOfMerge(p, q, s, n);
    }
  }

  lemma {:induction false} ListSets(p: Plan, q: Plan, s: RawSource, n: nat)
    requires 0 < n <= |LISTS| && s.RawSource? && s.registry.Some? && s.tables.Some?
    requires SetsOfSource(p, s, n - 1) && TableOk(s, n - 1) && q == TablePlan(s, n - 1)
    ensures PlansApart(p, q)
  {
    forall i, j | 0 <= i < |p.sets| && 0 <= j < |q.sets| ensures SetsApart(p.sets[i], q.sets[j]) {
      var k :| 0 <= k < n - 1 && IsList(p.sets[i], k);
      ListsDiffer(k, n - 1);
    }
  }

  lemma {:induction false} SetsOfMerge(p: Plan, q: Plan, s: RawSource, n: nat)
    requires 0 < n <= |LISTS| && s.RawSource? && s.registry.Some? && s.tables.Some?
    requires SetsOfSource(p, s, n - 1) && TableOk(s, n - 1) && q == TablePlan(s, n - 1)
    ensures SetsOfSource(Merge(p, q), s, n)
  {
    var r := Merge(p, q);
    forall k | 0 <= k < |r.sets|
      ensures r.sets[k].database == s.database && r.sets[k].registry == s.registry.value
      ensures exists i :: 0 <= i < n && IsList(r.sets[k], i)
    {
      if k < |p.sets| {
        var i :| 0 <= i < n - 1 && IsList(p.sets[k], i);
        assert IsList(r.sets[k], i);
      } else {
        assert IsList(r.sets[k], n - 1);
      }
    }
  }

  /** One turn of the list loop. */
  method PlanTable(s: RawSource, i: nat) returns (p: Plan, errors: nat)
    requires i < |LISTS| && s.RawSource? && s.registry.Some? && s.tables.Some?
    ensures errors == 0 ==> TableOk(s, i) && p == TablePlan(s, i)
    ensures TableOk(s, i) ==> errors == 0
  {
    hide ListOk, Specs;
    p, errors := Plan([], []), 0;
    var table := TableOf(s, i);
    match table
    case NullTable =>
    case NotAList => errors := 1;
    case Rows(rows) =>
      var c := ContextOf(s, i);
      var adoptions := AdoptionsOf(s, i);
      if adoptions.NotADict? {
        errors := 1;
      }
      var items, failed := PlanRows(c, rows, if adoptions.Dict? then adoptions.ids else map[]);
      errors := errors + failed;
      p := Plan([PlanSet(c.database, c.table, c.registry, c.code, LISTS[i].name, |rows|)], items);
  }

  /** The list loop of one source. */
  method PlanTables(s: RawSource) returns (p: Plan, errors: nat)
    requires s.RawSource? && s.registry.Some? && s.tables.Some?
    ensures errors == 0 ==> TablesOk(s, |LISTS|) && p == TablesPlan(s, |LISTS|)
    ensures TablesOk(s, |LISTS|) ==> errors == 0
  {
    hide TableOk, TablePlan;
    p, errors := Plan([], []), 0;
    var i := 0;
    while i < |LISTS|
      invariant 0 <= i <= |LISTS|
      invariant errors == 0 ==> TablesOk(s, i) && p == TablesPlan(s, i)
      invariant TablesOk(s, |LISTS|) ==> errors == 0
    {
      var q, failed := PlanTable(s, i);
      p := Merge(p, q);
      errors := errors + failed;
      i := i + 1;
    }
  }

  lemma {:induction false} NoneMissing(names: set<string>)
    ensures |TableNames(|LISTS|) - names| + |names - TableNames(|LISTS|)| == 0 <==> names == TableNames(|LISTS|)
  {
  }

  /** One turn of the source loop, for a source whose database and registry are usable. */
  method PlanSource(s: RawSource) returns (p: Plan, errors: nat)
    requires s.RawSource? && s.database in DATABASES && s.registry.Some?
    ensures errors == 0 <==> SourceOk(s)
    ensures errors == 0 ==> p == TablesPlan(s, |LISTS|)
  {
    hide TablesOk, TableNames, TablesPlan;
    p, errors := Plan([], []), 0;
    if s.tables.None? {
      return p, 1;
    }
    var names := s.tables.value.Keys;
    NoneMissing(names);
    errors := |TableNames(|LISTS|) - names| + |names - TableNames(|LISTS|)|;
    if s.adopt.None? || !(s.adopt.value.Keys <= TableNames(|LISTS|)) {
      errors := errors + 1;
    }
    var failed;
    p, failed := PlanTables(s);
    errors := errors + failed;
  }

  // ---------------------------------------------------------------------------
  // The whole snapshot
  // ---------------------------------------------------------------------------

  ghost predicate SourcesApart(s: RawSource, t: RawSource) {
    s.RawSource? && t.RawSource? ==> s.database != t.database && s.registry != t.registry
  }

  /** The first `n` sources are complete and share neither database nor registry. */
  ghost predicate SourcesOk(sources: seq<RawSource>, n: nat)
    requires n <= |sources|
  {
    && (forall i :: 0 <= i < n ==> SourceOk(sources[i]))
    && (forall i, j :: 0 <= i < j < n ==> SourcesApart(sources[i], sources[j]))
  }

  ghost predicate Has(sources: seq<RawSource>, database: string) {
    exists i :: 0 <= i < |sources| && sources[i].RawSource? && sources[i].database == database
  }

  /** Both databases, each once, into two registries, with all their lists in order. */
  ghost predicate SnapshotOk(sources: seq<RawSource>) {
    SourcesOk(sources, |sources|) && Has(sources, "okrug") && Has(sources, "raion")
  }

  ghost function SourcesPlan(sources: seq<RawSource>, n: nat): Plan
    requires n <= |sources| && SourcesOk(sources, n)
  {
    if n == 0 then Plan([], []) else Merge(SourcesPlan(sources, n - 1), TablesPlan(sources[n - 1], |LISTS|))
  }

  ghost predicate SetFrom(t: PlanSet, s: RawSource) {
    s.RawSource? && s.registry.Some? && t.database == s.database && t.registry == s.registry.value
  }

  lemma {:induction false} SourcesPlanOk(sources: seq<RawSource>, n: nat)
    requires n <= |sources| && SourcesOk(sources, n)
    ensures var p := SourcesPlan(sources, n);
            PlanOk(p) && forall k :: 0 <= k < |p.sets| ==> exists i :: 0 <= i < n && SetFrom(p.sets[k], sources[i])
  {
    hide TablesPlan, PlanOk, TablesOk, TableNames;
    if n == 0 {
      NothingOk();
    } else {
      SourcesPlanOk(sources, n - 1);
      var p, s := SourcesPlan(sources, n - 1), sources[n - 1];
      assert SourceOk(s);
      TablesPlanOk(s, |LISTS|);
      var q := TablesPlan(s, |LISTS|);
      forall i, j | 0 <= i < |p.sets| && 0 <= j < |q.sets| ensures SetsApart(p.sets[i], q.sets[j]) {
        var k :| 0 <= k < n - 1 && SetFrom(p.sets[i], sources[k]);
        assert SourcesApart(sources[k], s);
      }
      MergeKeepsPlanOk(p, q);
      forall k | 0 <= k < |Merge(p, q).sets|
        ensures exists i :: 0 <= i < n && SetFrom(Merge(p, q).sets[k], sources[i])
      {
        if k >= |p.sets| {
          assert SetFrom(Merge(p, q).sets[k], sources[n - 1]);
        } else {
          var i :| 0 <= i < n - 1 && SetFrom(p.sets[k], sources[i]);
          assert SetFrom(Merge(p, q).sets[k], sources[i]);
        }
      }
    }
  }

  lemma {:induction false} NothingOk()
    ensures PlanOk(Plan([], []))
  {
  }

  ghost predicate UsesDatabase(sources: seq<RawSource>, n: nat, d: string)
    requires n <= |sources|
  {
    exists i :: 0 <= i < n && sources[i].RawSource? && sources[i].database == d
  }

  ghost predicate UsesRegistry(sources: seq<RawSource>, n: nat, r: Id)
    requires n <= |sources|
  {
    exists i :: 0 <= i < n && sources[i].RawSource? && sources[i].registry == Some(r)
  }

  /** What the source loop has seen while nothing was wrong. */
  ghost predicate Seen(sources: seq<RawSource>, n: nat, databases: set<string>, registries: set<Id>)
    requires n <= |sources|
  {
    && SourcesOk(sources, n)
    && (forall d :: d in databases <==> UsesDatabase(sources, n, d))
    && (forall r :: r in registries <==> UsesRegistry(sources, n, r))
  }

  lemma {:induction false} OkParts(s: RawSource)
    ensures SourceOk(s) ==> s.RawSource? && s.registry.Some? && s.database in DATABASES
  {
  }

  lemma {:induction false} OkStep(sources: seq<RawSource>, n: nat, databases: set<string>, registries: set<Id>)
    requires n < |sources| && Seen(sources, n, databases, registries)
    ensures SourceOk(sources[n]) ==>
              (SourcesOk(sources, n + 1) <==>
                sources[n].database !in databases && sources[n].registry.value !in registries)
    ensures SourcesOk(sources, n + 1) ==> SourceOk(sources[n])
  {
    hide SourceOk;
    var s := sources[n];
    OkParts(s);
    if SourceOk(s) {
      if UsesDatabase(sources, n, s.database) {
        var i :| 0 <= i < n && sources[i].RawSource? && sources[i].database == s.database;
        assert !SourcesApart(sources[i], s);
      }
      if UsesRegistry(sources, n, s.registry.value) {
        var i :| 0 <= i < n && sources[i].RawSource? && sources[i].registry == s.registry;
        assert !SourcesApart(sources[i], s);
      }
      if s.database !in databases && s.registry.value !in registries {
        forall i | 0 <= i < n ensures SourcesApart(sources[i], s) {
          OkParts(sources[i]);
        }
      }
    }
  }

  lemma {:induction false} SeenStep(sources: seq<RawSource>, n: nat, databases: set<string>, registries: set<Id>)
    requires n < |sources| && Seen(sources, n, databases, registries) && SourcesOk(sources, n + 1)
    requires sources[n].RawSource? && sources[n].registry.Some?
    ensures Seen(sources, n + 1, databases + {sources[n].database}, registries + {sources[n].registry.value})
  {
  }

  lemma {:induction false} StaysWrong(sources: seq<RawSource>, n: nat)
    requires n < |sources|
    ensures SourcesOk(sources, n + 1) ==> SourcesOk(sources, n) && SourceOk(sources[n])
  {
  }

  /** `plan_snapshot`: a plan exactly for the snapshots that are in order, and every plan keeps its promises. */
  method PlanSnapshot(versionOk: bool, sources: Option<seq<RawSource>>) returns (r: Result<Plan, nat>)
    ensures r.Ok? <==> versionOk && sources.Some? && SnapshotOk(sources.value)
    ensures r.Ok? ==> r.value == SourcesPlan(sources.value, |sources.value|) && PlanOk(r.value)
  {
    if !versionOk || sources.None? {
      return Err(1);
    }
    var all := sources.value;
    var plan, errors := CollectSources(all);
    if errors > 0 {
      return Err(errors);
    }
    SourcesPlanOk(all, |all|);
    return Ok(plan);
  }

  /** The source loop and the check that no database is missing. */
  method CollectSources(sources: seq<RawSource>) returns (plan: Plan, errors: nat)
    ensures errors == 0 <==> SnapshotOk(sources)
    ensures errors == 0 ==> plan == SourcesPlan(sources, |sources|)
  {
    hide SourceOk, SourcesOk, Seen, TablesPlan, TableNames;
    plan, errors := Plan([], []), 0;
    var databases: set<string>, registries: set<Id> := {}, {};
    SeenNothing(sources);
    var n := 0;
    while n < |sources|
      invariant 0 <= n <= |sources|
      invariant errors == 0 ==> Seen(sources, n, databases, registries)
      invariant errors == 0 <==> SourcesOk(sources, n)
      invariant errors == 0 ==> plan == SourcesPlan(sources, n)
    {
      var s := sources[n];
      OkParts(s);
      StaysWrong(sources, n);
      if errors == 0 {
        OkStep(sources, n, databases, registries);
      }
      ghost var seenDatabases, seenRegistries := databases, registries;
      n := n + 1;
      if s.NotASource? || s.database !in DATABASES || s.database in databases {
        errors := errors + 1;
        continue;
      }
      databases := databases + {s.database};
      if s.registry.None? {
        errors := errors + 1;
        continue;
      }
      if s.registry.value in registries {
        errors := errors + 1;
      }
      registries := registries + {s.registry.value};
      var p, failed := PlanSource(s);
      errors := errors + failed;
      if errors == 0 {
        SeenStep(sources, n - 1, seenDatabases, seenRegistries);
      }
      plan := Merge(plan, p);
    }
    if errors == 0 {
      MissingDatabases(sources, databases, registries);
    }
    errors := errors + |DATABASES - databases|;
  }

  lemma {:induction false} SeenNothing(sources: seq<RawSource>)
    ensures Seen(sources, 0, {}, {}) && SourcesOk(sources, 0)
  {
  }

  lemma {:induction false} MissingDatabases(sources: seq<RawSource>, databases: set<string>, registries: set<Id>)
    requires Seen(sources, |sources|, databases, registries)
    ensures |DATABASES - databases| == 0 <==> Has(sources, "okrug") && Has(sources, "raion")
  {
  }

  // ---------------------------------------------------------------------------
  // Every row is planned
  // ---------------------------------------------------------------------------

  function RowCount(s: RawSource, n: nat): nat
    requires n <= |LISTS| && s.RawSource? && s.tables.Some?
  {
    if n == 0 then 0
    else RowCount(s, n - 1) + match TableOf(s, n - 1) case Rows(rows) => |rows| case _ => 0
  }

  /** A plan holds one item for every row of every list of the source, so no row is dropped. */
  lemma {:induction false} EveryRowIsPlanned(s: RawSource, n: nat)
    requires n <= |LISTS| && s.RawSource? && s.registry.Some? && s.tables.Some? && TablesOk(s, n)
    ensures |TablesPlan(s, n).items| == RowCount(s, n)
  {
    hide TableOk, TablePlan, TableOf;
    if n > 0 {
      EveryRowIsPlanned(s, n - 1);
      assert TableOk(s, n - 1);
      PlannedRows(s, n - 1);
    }
  }

  lemma {:induction false} PlannedRows(s: RawSource, i: nat)
    requires i < |LISTS| && s.RawSource? && s.registry.Some? && s.tables.Some? && TableOk(s, i)
    ensures |TablePlan(s, i).items| == match TableOf(s, i) case Rows(rows) => |rows| case _ => 0
  {
    TablePlanOk(s, i);
  }

  /** How many lists of a source are given as null. */
  predicate NullList(s: RawSource, i: nat)
    requires i < |LISTS| && s.RawSource? && s.tables.Some?
  {
    TableOf(s, i).NullTable?
  }

  /**
   The header asks for all ten lists, but a list given as null passes: a plan has all ten sets of a
   source exactly when none of its lists is null.
   */
  lemma {:induction false} AllListsExactlyWithoutNulls(s: RawSource, n: nat)
    requires n <= |LISTS| && s.RawSource? && s.registry.Some? && s.tables.Some? && TablesOk(s, n)
    ensures |TablesPlan(s, n).sets| <= n
    ensures |TablesPlan(s, n).sets| == n <==> forall i :: 0 <= i < n ==> !NullList(s, i)
  {
    if n > 0 {
      assert TableOk(s, n - 1) && TablesOk(s, n - 1);
      SetsOfPlan(s, n);
      hide TableOk, TableOf, NullList, TablesPlan, TablesOk;
      AllListsExactlyWithoutNulls(s, n - 1);
    }
  }

  lemma {:induction false} SetsOfPlan(s: RawSource, n: nat)
    requires 0 < n <= |LISTS| && s.RawSource? && s.registry.Some? && s.tables.Some? && TablesOk(s, n)
    ensures |TablesPlan(s, n).sets| == |TablesPlan(s, n - 1).sets| + if NullList(s, n - 1) then 0 else 1
  {
    hide TableOk, TablePlan;
    assert TableOk(s, n - 1);
    SetOfList(s, n - 1);
  }

  lemma {:induction false} SetOfList(s: RawSource, i: nat)
    requires i < |LISTS| && s.RawSource? && s.registry.Some? && s.tables.Some? && TableOk(s, i)
    ensures |TablePlan(s, i).sets| == if NullList(s, i) then 0 else 1
  {
  }

  // ---------------------------------------------------------------------------
  // The concrete case
  // ---------------------------------------------------------------------------

  /** A source whose lists are all empty, but for the first, which is null. */
  function WithNull(database: string, registry: Id): RawSource {
    RawSource(database, Some(registry),
              Some(map x | x in TableNames(|LISTS|) :: if x == LISTS[0].table then NullTable else Rows([])),
              Some(map[]))
  }

  lemma {:induction false} WithNullPasses(database: string, registry: Id)
    requires database in DATABASES
    ensures SourceOk(WithNull(database, registry))
    ensures |TablesPlan(WithNull(database, registry), |LISTS|).sets| < |LISTS|
  {
    hide TableNames;
    var s := WithNull(database, registry);
    assert s.tables.value.Keys == TableNames(|LISTS|);
    forall i | 0 <= i < |LISTS|
      ensures TableOk(s, i)
    {
      assert AdoptionsOf(s, i) == Dict(map[]);
      if TableOf(s, i).Rows? {
        assert TableOf(s, i).rows == [];
        EmptyListOk(ContextOf(s, i));
      }
    }
    AllListsExactlyWithoutNulls(s, |LISTS|);
    FirstTable();
    assert NullList(s, 0);
  }

  lemma {:induction false} FirstTable()
    ensures LISTS[0].table in TableNames(|LISTS|)
  {
  }

  lemma {:induction false} EmptyListOk(c: Context)
    ensures ListOk(c, [], map[])
  {
  }

  /** A snapshot in order, so accepted, whose plan lacks a set of either source. */
  lemma {:induction false} NullListPasses()
    ensures var sources := [WithNull("okrug", Other(1)), WithNull("raion", Other(2))];
            && SnapshotOk(sources) && SourcesOk(sources, |sources|)
            && |SourcesPlan(sources, |sources|).sets| < |LISTS| + |LISTS|
  {
    hide SourceOk, TablesPlan, TableNames;
    var sources := [WithNull("okrug", Other(1)), WithNull("raion", Other(2))];
    WithNullPasses("okrug", Other(1));
    WithNullPasses("raion", Other(2));
    assert sources[0].database == "okrug" && sources[1].database == "raion";
    assert SourcesOk(sources, 2);
    assert Has(sources, "okrug") && Has(sources, "raion");
    assert SourcesOk(sources, 0) && SourcesOk(sources, 1);
    assert SourcesPlan(sources, 2) == Merge(SourcesPlan(sources, 1), TablesPlan(sources[1], |LISTS|));
    assert SourcesPlan(sources, 1) == Merge(SourcesPlan(sources, 0), TablesPlan(sources[0], |LISTS|));
  }
}
