/** What an import stores, counts and refuses, in terms of the target before it and of the planned items. */
module ImportOutcomes {
  import opened Prelude
  import opened ImportPlan
  import opened ImportSnapshot
  import opened ImportTarget
  import opened ImportTheorems
  import opened NumberFormat
  import NumberOutcomes

  // ---------------------------------------------------------------------------
  // One item
  // ---------------------------------------------------------------------------

  ghost predicate OfPeople(spec: Spec) {
    spec.code == "executors" || spec.code == "responsible_executors" || spec.code == "signers"
    || spec.code == "approvers"
  }

  /** A key the import clears where the planned item has no value for it. */
  ghost predicate Cleared(spec: Spec, key: string) {
    key == "missing_source_label" || (OfPeople(spec) && (key == "position" || key == "department"))
  }

  ghost predicate KeyMerged(before: map<string, string>, spec: Spec, z: map<string, string>, key: string) {
    if key in spec.metadata then key in z && z[key] == spec.metadata[key]
    else if Cleared(spec, key) then key !in z
    else (key in z <==> key in before) && (key in before ==> z[key] == before[key])
  }

  /** The planned values, and of the stored ones those that are neither planned nor cleared. */
  ghost predicate MetadataMerged(before: map<string, string>, spec: Spec, z: map<string, string>) {
    forall key :: KeyMerged(before, spec, z, key)
  }

  lemma {:induction false} MergedMeaning(before: map<string, string>, spec: Spec, z: map<string, string>)
    ensures MetadataMerged(before, spec, z) <==> z == Merged(before, spec)
  {
    var m := Merged(before, spec);
    assert OfPeople(spec) <==> spec.code in PEOPLE;
    forall key
      ensures KeyMerged(before, spec, m, key)
    {
    }
    if MetadataMerged(before, spec, z) {
      forall key
        ensures (key in z <==> key in m) && (key in z ==> z[key] == m[key])
      {
        assert KeyMerged(before, spec, z, key) && KeyMerged(before, spec, m, key);
      }
    }
  }

  /** The item has the planned label, state, fingerprint and source identity. */
  ghost predicate AsPlanned(item: Item, spec: Spec) {
    && item.name == spec.name && item.active == spec.active && item.fingerprint == Some(spec.fingerprint)
    && item.sourceDatabase == Some(spec.database) && item.sourceEntity == Some(spec.table)
    && item.sourceId == Some(spec.sourceId)
  }

  ghost predicate CameFrom(item: Item, spec: Spec) {
    && item.sourceDatabase == Some(spec.database) && item.sourceEntity == Some(spec.table)
    && item.sourceId == Some(spec.sourceId)
  }

  /** The stored item that a planned one is about: the one from the same row, or else the one it adopts. */
  ghost predicate About(items: seq<Item>, spec: Spec, index: Option<nat>) {
    match index
    case Some(i) =>
      && i < |items|
      && (CameFrom(items[i], spec) || (NoneCameFrom(items, spec) && spec.adopt == Some(items[i].id)))
    case None => NoneCameFrom(items, spec) && spec.adopt == None
  }

  ghost predicate NoneCameFrom(items: seq<Item>, spec: Spec) {
    forall i :: 0 <= i < |items| ==> !CameFrom(items[i], spec)
  }

  /** The set of the registry with the code, which has the derived id if it is new. */
  ghost predicate IsSetId(t: Target, registry: Id, code: string, id: Id) {
    if exists i :: 0 <= i < |t.books| && IsBook(t.books[i], registry, code)
    then exists i :: 0 <= i < |t.books| && IsBook(t.books[i], registry, code) && t.books[i].id == id
    else id == StableSet(registry, code)
  }

  /** The stored item keeps its id, its set and the metadata the plan says nothing about. */
  ghost predicate StoredFrom(before: Item, z: Item, spec: Spec) {
    && z.id == before.id && z.setId == before.setId && AsPlanned(z, spec)
    && MetadataMerged(before.metadata, spec, z.metadata)
  }

  /** A new item has the derived id, and only the planned metadata. */
  ghost predicate StoredNew(t: Target, z: Item, spec: Spec) {
    && z.id == StableItem(spec.database, spec.table, spec.sourceId) && IsSetId(t, spec.registry, spec.code, z.setId)
    && AsPlanned(z, spec) && MetadataMerged(map[], spec, z.metadata)
  }

  // ---------------------------------------------------------------------------
  // What the second pass leaves
  // ---------------------------------------------------------------------------

  /** The prepared item stands at `k` as it is to be written. */
  ghost predicate WrittenAt(items: seq<Item>, p: Prepared, k: nat, start: nat) {
    && k < |items| && items[k] == Written(p.before, p.spec, p.metadata)
    && match p.index case Some(i) => k == i case None => k >= start
  }

  ghost predicate IsWritten(items: seq<Item>, p: Prepared, start: nat) {
    exists k: nat :: WrittenAt(items, p, k, start)
  }

  lemma {:induction false} ApplyWrites(items: seq<Item>, p: Prepared, start: nat)
    requires Good(items, p) && start <= |items|
    ensures IsWritten(ApplyOne(items, p), p, start)
  {
    hide Merged, LabelFree, SourceFree, IdFree;
    var k := if p.creating then |items| else p.index.value;
    assert WrittenAt(ApplyOne(items, p), p, k, start);
  }

  lemma {:induction false} WrittenSurvives(items: seq<Item>, p: Prepared, q: Prepared, start: nat)
    requires IsWritten(items, p, start) && Good(items, q) && Independent(p, q)
    ensures IsWritten(ApplyOne(items, q), p, start)
  {
    hide Merged, LabelFree, SourceFree, IdFree, Differs;
    var k: nat :| WrittenAt(items, p, k, start);
    assert ApplyOne(items, q)[k] == items[k];
    assert WrittenAt(ApplyOne(items, q), p, k, start);
  }

  lemma {:induction false} ApplyGrows(items: seq<Item>, prepared: seq<Prepared>, n: nat)
    requires n <= |prepared|
    ensures |items| <= |ApplyAll(items, prepared, n)|
  {
    if n > 0 {
      ApplyGrows(items, prepared, n - 1);
    }
  }

  lemma {:induction false} AllWritten(items: seq<Item>, prepared: seq<Prepared>, n: nat, j: nat)
    requires j < n <= |prepared| && ItemsOk(items) && AllGood(items, prepared, 0) && AllIndependent(prepared)
    ensures IsWritten(ApplyAll(items, prepared, n), prepared[j], |items|)
  {
    hide ItemsOk, Good, Independent, ApplyOne, IsWritten, AllDone;
    var r, p := ApplyAll(items, prepared, n - 1), prepared[n - 1];
    ApplyAllWorks(items, prepared, n - 1);
    ApplyGrows(items, prepared, n - 1);
    if j < n - 1 {
      AllWritten(items, prepared, n - 1, j);
      WrittenSurvives(r, prepared[j], p, |items|);
    } else {
      ApplyWrites(r, p, |items|);
    }
  }

  lemma {:induction false} SetIdIsSet(t: Target, plan: Plan, spec: Spec)
    requires PlanOk(plan) && spec in plan.items
    ensures IsSetId(t, spec.registry, spec.code, SetId(t, plan, spec))
  {
    hide PlanOk, SetOf;
    SetIdMeaning(t, plan, spec);
  }

  /**
   After an import every planned item is stored with its label, state, fingerprint, source identity and
   metadata: in the place of the item it is about, or as a new item if there is none.
   */
  lemma {:induction false} PlannedIsStored(t: Target, plan: Plan, j: nat) returns (index: Option<nat>, k: nat)
    requires TargetOk(t) && PlanOk(plan) && TargetRun(t, plan, true).0.Ok? && j < |plan.items|
    ensures About(t.items, plan.items[j], index)
    ensures var u := TargetRun(t, plan, true).1;
            && k < |u.items|
            && match index
               case Some(i) => k == i && StoredFrom(t.items[i], u.items[k], plan.items[j])
               case None => k >= |t.items| && StoredNew(t, u.items[k], plan.items[j])
    ensures index.Some? ==> IsSetId(t, plan.items[j].registry, plan.items[j].code, t.items[index.value].setId)
  {
    hide ItemsOk, BooksOk, PlanOk, ScanAll, ApplyAll, SetId, AllIndependent, AllDone, Merged, MetadataMerged, IsSetId;
    assert Succeeds(t, plan);
    ImportEstablishes(t, plan);
    var s, spec := ScanAll(t, plan, |plan.items|), plan.items[j];
    var p := s.prepared[j];
    assert AllGood(t.items, s.prepared, 0);
    AllWritten(t.items, s.prepared, |s.prepared|, j);
    SetIdIsSet(t, plan, spec);
    index := p.index;
    k :| WrittenAt(Applied(t, plan).items, p, k, |t.items|);
    MergedMeaning(p.before.metadata, spec, p.metadata);
    assert Good(t.items, p);
  }

  // ---------------------------------------------------------------------------
  // When a plan is refused
  // ---------------------------------------------------------------------------

  /** The item came from nowhere: each part of its origin is missing or empty. */
  ghost predicate NoOrigin(item: Item) {
    && (item.sourceDatabase == None || item.sourceDatabase == Some(""))
    && (item.sourceEntity == None || item.sourceEntity == Some(""))
    && (item.sourceId == None || item.sourceId == Some(""))
  }

  /** Within the set only the item with this id, if any, has the label. */
  ghost predicate LabelLeft(items: seq<Item>, setId: Id, name: string, id: Id) {
    forall c :: 0 <= c < |items| && items[c].setId == setId && items[c].name == name ==> items[c].id == id
  }

  /**
   A planned item fits: what it is about is in its set, an adoption names the item already imported or one
   without an origin, its label is not another item's, and a new item's id is free.
   */
  ghost predicate FitsAt(items: seq<Item>, setId: Id, spec: Spec, index: Option<nat>) {
    && About(items, spec, index)
    && match index
       case Some(i) =>
         && items[i].setId == setId && LabelLeft(items, setId, spec.name, items[i].id)
         && if CameFrom(items[i], spec) then spec.adopt == None || spec.adopt == Some(items[i].id)
            else NoOrigin(items[i])
       case None =>
         forall c :: 0 <= c < |items| ==>
           && !(items[c].setId == setId && items[c].name == spec.name)
           && items[c].id != StableItem(spec.database, spec.table, spec.sourceId)
  }

  /** The id of the item a planned one is about, or of the one to be created for it. */
  ghost predicate IsGoal(items: seq<Item>, spec: Spec, id: Id) {
    exists index :: About(items, spec, index) && GoalAt(items, spec, index, id)
  }

  ghost predicate GoalAt(items: seq<Item>, spec: Spec, index: Option<nat>, id: Id) {
    match index
    case Some(i) => i < |items| && id == items[i].id
    case None => id == StableItem(spec.database, spec.table, spec.sourceId)
  }

  lemma {:induction false} SourceFound(items: seq<Item>, spec: Spec)
    ensures var found := FindSource(items, |items|, spec);
            if found.Some? then CameFrom(items[found.value], spec) else NoneCameFrom(items, spec)
  {
  }

  lemma {:induction false} AboutOne(items: seq<Item>, spec: Spec, x: Option<nat>, y: Option<nat>)
    requires ItemsOk(items) && About(items, spec, x) && About(items, spec, y)
    ensures x == y
  {
    assert forall i, j :: 0 <= i < j < |items| ==>
             RowsApart(items[i], items[j]) && items[i].id != items[j].id && !SameSource(items[i], items[j]);
  }

  lemma {:induction false} LabelSearch(items: seq<Item>, setId: Id, name: string, id: Id)
    requires ItemsOk(items)
    ensures var c := FindLabel(items, |items|, setId, name);
            LabelLeft(items, setId, name, id) <==> c.None? || items[c.value].id == id
  {
    var c := FindLabel(items, |items|, setId, name);
    forall i | 0 <= i < |items| && items[i].setId == setId && items[i].name == name
      ensures c == Some(i)
    {
      LabelFound(items, setId, name, i);
    }
  }

  lemma {:induction false} IdSearch(items: seq<Item>, id: Id)
    ensures var c := FindId(items, |items|, id);
            if c.Some? then items[c.value].id == id else forall i :: 0 <= i < |items| ==> items[i].id != id
  {
  }

  lemma {:induction false} NoLabelLeft(items: seq<Item>, setId: Id, name: string)
    ensures FindLabel(items, |items|, setId, name).None? <==>
            forall c :: 0 <= c < |items| ==> !(items[c].setId == setId && items[c].name == name)
  {
  }

  /** Where the checks look for the item. */
  function Place(items: seq<Item>, spec: Spec): (index: Option<nat>)
    ensures index.Some? ==> index.value < |items|
  {
    var found := FindSource(items, |items|, spec);
    if found.None? && spec.adopt.Some? then FindId(items, |items|, spec.adopt.value) else found
  }

  lemma {:induction false} FitsHere(items: seq<Item>, setId: Id, spec: Spec)
    requires ItemsOk(items)
    ensures var v := Examine(items, setId, spec);
            v.Accepted? && v.errors == 0 <==> FitsAt(items, setId, spec, Place(items, spec))
  {
    hide Prepare, LabelLeft, NoneCameFrom, ItemsOk, FindSource, FindId, FindLabel;
    var index := Place(items, spec);
    SourceFound(items, spec);
    if spec.adopt.Some? {
      IdSearch(items, spec.adopt.value);
    }
    IdSearch(items, ItemId(spec));
    NoLabelLeft(items, setId, spec.name);
    if index.Some? {
      LabelSearch(items, setId, spec.name, items[index.value].id);
    }
  }

  lemma {:induction false} PlacedRight(items: seq<Item>, setId: Id, spec: Spec, x: Option<nat>)
    requires ItemsOk(items) && FitsAt(items, setId, spec, x)
    ensures x == Place(items, spec)
  {
    hide LabelLeft, NoneCameFrom, ItemsOk, FindSource, FindId;
    SourceFound(items, spec);
    if spec.adopt.Some? {
      IdSearch(items, spec.adopt.value);
    }
    SomeCameFrom(items, spec);
    if About(items, spec, Place(items, spec)) {
      AboutOne(items, spec, x, Place(items, spec));
    }
  }

  lemma {:induction false} SomeCameFrom(items: seq<Item>, spec: Spec)
    ensures NoneCameFrom(items, spec) <==> forall i :: 0 <= i < |items| ==> !CameFrom(items[i], spec)
  {
  }

  /** The checks of one item find nothing wrong exactly when it fits. */
  lemma {:induction false} FitsExactly(items: seq<Item>, setId: Id, spec: Spec)
    requires ItemsOk(items)
    ensures var v := Examine(items, setId, spec);
            && (v.Accepted? && v.errors == 0 <==> exists index :: FitsAt(items, setId, spec, index))
            && (v.Accepted? ==> v.prepared.index == Place(items, spec)
                                && GoalAt(items, spec, v.prepared.index, v.prepared.before.id))
  {
    hide Examine, FitsAt, ItemsOk, Place;
    FitsHere(items, setId, spec);
    PreparedAs(items, setId, spec);
    if x :| FitsAt(items, setId, spec, x) {
      PlacedRight(items, setId, spec, x);
    }
  }

  lemma {:induction false} PreparedAs(items: seq<Item>, setId: Id, spec: Spec)
    ensures var v := Examine(items, setId, spec);
            v.Accepted? ==>
              && v.prepared.index == Place(items, spec)
              && (match v.prepared.index
                  case Some(i) => i < |items| && v.prepared.before == items[i]
                  case None => v.prepared.before == NewItem(spec, setId))
  {
    hide Merged, Differs;
  }

  /** The planned item fits into its set. */
  ghost predicate ItemFits(t: Target, spec: Spec) {
    exists setId, index :: IsSetId(t, spec.registry, spec.code, setId) && FitsAt(t.items, setId, spec, index)
  }

  ghost predicate SameGoal(items: seq<Item>, a: Spec, b: Spec) {
    exists id :: IsGoal(items, a, id) && IsGoal(items, b, id)
  }

  /** The first `n` planned items fit, and no two are about the same item. */
  ghost predicate AllFit(t: Target, plan: Plan, n: nat)
    requires n <= |plan.items|
  {
    && (forall j :: 0 <= j < n ==> ItemFits(t, plan.items[j]))
    && (forall i, j :: 0 <= i < j < n ==> !SameGoal(t.items, plan.items[i], plan.items[j]))
  }

  lemma {:induction false} SetIdOnce(t: Target, registry: Id, code: string, x: Id, y: Id)
    requires BooksOk(t.books) && IsSetId(t, registry, code, x) && IsSetId(t, registry, code, y)
    ensures x == y
  {
    assert forall i, j :: 0 <= i < j < |t.books| ==> BooksApart(t.books[i], t.books[j]);
  }

  lemma {:induction false} GoalOnce(items: seq<Item>, spec: Spec, x: Id, y: Id)
    requires ItemsOk(items) && IsGoal(items, spec, x) && IsGoal(items, spec, y)
    ensures x == y
  {
    hide About, ItemsOk;
    var a :| About(items, spec, a) && GoalAt(items, spec, a, x);
    var b :| About(items, spec, b) && GoalAt(items, spec, b, y);
    AboutOne(items, spec, a, b);
  }

  lemma {:induction false} GoodGoal(items: seq<Item>, p: Prepared)
    requires Good(items, p)
    ensures IsGoal(items, p.spec, p.before.id)
  {
    hide Merged, Differs, LabelFree, IdFree;
    assert About(items, p.spec, p.index) && GoalAt(items, p.spec, p.index, p.before.id);
  }

  lemma {:induction false} ExaminedExactly(t: Target, plan: Plan, spec: Spec)
    requires TargetOk(t) && PlanOk(plan) && spec in plan.items
    ensures var v := Examine(t.items, SetId(t, plan, spec), spec);
            v.Accepted? && v.errors == 0 <==> ItemFits(t, spec)
  {
    hide ItemsOk, BooksOk, PlanOk, SetId, Examine, FitsAt, IsSetId;
    var setId := SetId(t, plan, spec);
    FitsExactly(t.items, setId, spec);
    SetIdIsSet(t, plan, spec);
    if x, index :| IsSetId(t, spec.registry, spec.code, x) && FitsAt(t.items, x, spec, index) {
      SetIdOnce(t, spec.registry, spec.code, x, setId);
    }
  }

  lemma {:induction false} ScanStep(t: Target, plan: Plan, n: nat)
    requires 0 < n <= |plan.items|
    ensures var s, spec := ScanAll(t, plan, n - 1), plan.items[n - 1];
            var v := Examine(t.items, SetId(t, plan, spec), spec);
            ScanAll(t, plan, n).errors == 0 <==>
            s.errors == 0 && v.Accepted? && v.errors == 0 && v.prepared.before.id !in s.selected
  {
    hide Examine, SetId, Add;
    var spec := plan.items[n - 1];
    RefusedCounts(t.items, SetId(t, plan, spec), spec);
  }

  lemma {:induction false} SelectedExactly(t: Target, plan: Plan, n: nat, id: Id)
    requires 0 < n <= |plan.items| && TargetOk(t) && ScanAll(t, plan, n - 1).errors == 0
    requires IsGoal(t.items, plan.items[n - 1], id)
    ensures id in ScanAll(t, plan, n - 1).selected <==>
            exists j :: 0 <= j < n - 1 && SameGoal(t.items, plan.items[j], plan.items[n - 1])
  {
    hide ItemsOk, BooksOk, Good, IsGoal, ScanAll, SetId;
    var m, s := n - 1, ScanAll(t, plan, n - 1);
    ScanEstablishes(t, plan, m);
    forall j | 0 <= j < m
      ensures s.prepared[j].before.id == id <==> SameGoal(t.items, plan.items[j], plan.items[m])
    {
      assert Good(t.items, s.prepared[j]);
      GoodGoal(t.items, s.prepared[j]);
      if x :| IsGoal(t.items, plan.items[j], x) && IsGoal(t.items, plan.items[m], x) {
        GoalOnce(t.items, plan.items[j], s.prepared[j].before.id, x);
        GoalOnce(t.items, plan.items[m], id, x);
      }
    }
  }

  lemma {:induction false} ScanExactly(t: Target, plan: Plan, n: nat)
    requires n <= |plan.items| && TargetOk(t) && PlanOk(plan)
    ensures ScanAll(t, plan, n).errors == 0 <==> AllFit(t, plan, n)
  {
    hide ItemsOk, BooksOk, PlanOk, ScanAll, SetId, Examine, ItemFits, SameGoal, IsGoal;
    if n == 0 {
      assert ScanAll(t, plan, 0).errors == 0 by { ScanNothing(t, plan); }
    } else {
      var spec := plan.items[n - 1];
      var v := Examine(t.items, SetId(t, plan, spec), spec);
      ScanExactly(t, plan, n - 1);
      ScanStep(t, plan, n);
      ExaminedExactly(t, plan, spec);
      if ScanAll(t, plan, n - 1).errors == 0 && v.Accepted? && v.errors == 0 {
        AcceptedIsGood(t.items, SetId(t, plan, spec), spec);
        GoodGoal(t.items, v.prepared);
        SelectedExactly(t, plan, n, v.prepared.before.id);
      }
    }
  }

  lemma {:induction false} ScanNothing(t: Target, plan: Plan)
    ensures ScanAll(t, plan, 0) == Scan(0, Counts(0, 0, 0, 0), [], {})
  {
  }

  lemma {:induction false} NoneMissing(t: Target, sets: seq<PlanSet>, n: nat)
    requires n <= |sets|
    ensures MissingRegistries(t, sets, n) == 0 <==> forall k :: 0 <= k < n ==> sets[k].registry in t.registries
  {
    if n > 0 {
      NoneMissing(t, sets, n - 1);
    }
  }

  /**
   A plan passes the validation exactly when the target has every registry, every planned item fits and no
   two are about the same item.
   */
  lemma {:induction false} PassesExactly(t: Target, plan: Plan)
    requires TargetOk(t) && PlanOk(plan)
    ensures TargetRun(t, plan, false).0.Ok? <==>
            (forall k :: 0 <= k < |plan.sets| ==> plan.sets[k].registry in t.registries)
            && AllFit(t, plan, |plan.items|)
    ensures TargetRun(t, plan, true).0.Ok? <==> TargetRun(t, plan, false).0.Ok? && !IdTaken(t, plan)
  {
    hide ItemsOk, BooksOk, PlanOk, ScanAll, AllFit, IdTaken, Clashes, NewBooks, Applied;
    ScanExactly(t, plan, |plan.items|);
    NoneMissing(t, plan.sets, |plan.sets|);
    ClashesExactly(t, plan);
  }

  // ---------------------------------------------------------------------------
  // The report
  // ---------------------------------------------------------------------------

  /** The stored item is already as planned, so there is nothing to write. */
  ghost predicate UpToDate(item: Item, spec: Spec) {
    AsPlanned(item, spec) && MetadataMerged(item.metadata, spec, item.metadata)
  }

  /** One planned item is counted by what the target had for it. */
  ghost predicate CountedAs(items: seq<Item>, spec: Spec, before: Counts, after: Counts) {
    if exists i :: 0 <= i < |items| && CameFrom(items[i], spec) && UpToDate(items[i], spec)
    then after == before.(kept := before.kept + 1)
    else if !NoneCameFrom(items, spec) then after == before.(updated := before.updated + 1)
    else if spec.adopt != None then after == before.(adopted := before.adopted + 1)
    else after == before.(created := before.created + 1)
  }

  /** The counts are those of the planned items one after the other. */
  ghost predicate Tally(items: seq<Item>, specs: seq<Spec>, counts: Counts)
    decreases |specs|
  {
    if specs == [] then counts == Counts(0, 0, 0, 0)
    else
      var last := |specs| - 1;
      var rest := specs[..last];
      exists before :: Tally(items, rest, before) && CountedAs(items, specs[last], before, counts)
  }

  lemma {:induction false} GoodCounts(items: seq<Item>, p: Prepared, c: Counts)
    requires ItemsOk(items) && Good(items, p)
    ensures CountedAs(items, p.spec, c, Add(c, p))
  {
    hide ItemsOk, Merged, MetadataMerged, LabelFree, IdFree;
    MergedMeaning(p.before.metadata, p.spec, p.before.metadata);
    if !p.creating && !p.adopted {
      assert CameFrom(items[p.index.value], p.spec);
      forall i | 0 <= i < |items| && CameFrom(items[i], p.spec)
        ensures p.index == Some(i)
      {
        AboutOne(items, p.spec, p.index, Some(i));
      }
    } else {
      assert forall i :: 0 <= i < |items| ==> !FromSource(items[i], p.spec);
    }
  }

  lemma {:induction false} TallyMore(items: seq<Item>, specs: seq<Spec>, spec: Spec, before: Counts, after: Counts)
    requires Tally(items, specs, before) && CountedAs(items, spec, before, after)
    ensures Tally(items, specs + [spec], after)
  {
    hide CountedAs;
    var more := specs + [spec];
    var last := |more| - 1;
    assert more[..last] == specs && more[last] == spec;
    var rest := more[..last];
    assert Tally(items, rest, before) && CountedAs(items, more[last], before, after);
  }

  lemma {:induction false} ScanTallies(t: Target, plan: Plan, n: nat)
    requires n <= |plan.items| && ItemsOk(t.items) && ScanAll(t, plan, n).errors == 0
    ensures Tally(t.items, plan.items[..n], ScanAll(t, plan, n).counts)
  {
    hide ItemsOk, Examine, SetId, Good, Add, CountedAs, ScanAll;
    if n == 0 {
      ScanNothing(t, plan);
      assert plan.items[..0] == [];
    } else {
      var s, spec := ScanAll(t, plan, n - 1), plan.items[n - 1];
      SelectedOnce(t, plan, n);
      ScanTallies(t, plan, n - 1);
      AcceptedIsGood(t.items, SetId(t, plan, spec), spec);
      GoodCounts(t.items, Examine(t.items, SetId(t, plan, spec), spec).prepared, s.counts);
      TallyMore(t.items, plan.items[..n - 1], spec, s.counts, ScanAll(t, plan, n).counts);
      assert plan.items[..n] == plan.items[..n - 1] + [spec];
    }
  }

  lemma {:induction false} CreatedGrow(items: seq<Item>, prepared: seq<Prepared>, n: nat)
    requires n <= |prepared| && AllGood(items, prepared, 0)
    ensures |ApplyAll(items, prepared, n)| == |items| + |Creating(prepared, n)|
  {
    hide Merged, Differs, LabelFree, SourceFree, IdFree;
    if n > 0 {
      CreatedGrow(items, prepared, n - 1);
      assert Good(items, prepared[n - 1]);
    }
  }

  ghost function Creating(prepared: seq<Prepared>, n: nat): seq<Prepared>
    requires n <= |prepared|
  {
    if n == 0 then [] else Creating(prepared, n - 1) + if prepared[n - 1].creating then [prepared[n - 1]] else []
  }

  lemma {:induction false} CreatingCounted(t: Target, plan: Plan, n: nat)
    requires n <= |plan.items| && ItemsOk(t.items) && ScanAll(t, plan, n).errors == 0
    ensures |ScanAll(t, plan, n).prepared| == n
    ensures ScanAll(t, plan, n).counts.created == |Creating(ScanAll(t, plan, n).prepared, n)|
  {
    hide ItemsOk, Examine, SetId, ScanAll, LabelFree, SourceFree, IdFree, Merged, Differs;
    if n == 0 {
      ScanNothing(t, plan);
    } else {
      var s, spec := ScanAll(t, plan, n - 1), plan.items[n - 1];
      SelectedOnce(t, plan, n);
      CreatingCounted(t, plan, n - 1);
      AcceptedIsGood(t.items, SetId(t, plan, spec), spec);
      var p := Examine(t.items, SetId(t, plan, spec), spec).prepared;
      SamePrefix(s.prepared, s.prepared + [p], n - 1);
    }
  }

  lemma {:induction false} SamePrefix(a: seq<Prepared>, b: seq<Prepared>, n: nat)
    requires n <= |a| && n <= |b| && a[..n] == b[..n]
    ensures Creating(a, n) == Creating(b, n)
  {
    if n > 0 {
      assert a[..n][n - 1] == b[..n][n - 1] && a[..n - 1] == a[..n][..n - 1] && b[..n - 1] == b[..n][..n - 1];
      SamePrefix(a, b, n - 1);
    }
  }

  /** The report counts every planned item by what the target had for it, and the target grows by the created ones. */
  lemma {:induction false} ReportMeaning(t: Target, plan: Plan)
    requires TargetOk(t) && PlanOk(plan) && TargetRun(t, plan, true).0.Ok?
    ensures var (r, u) := TargetRun(t, plan, true);
            && Tally(t.items, plan.items, r.value.counts)
            && |u.items| == |t.items| + r.value.counts.created
            && |u.books| == |t.books| + r.value.newSets
            && u.registries == t.registries
  {
    hide ItemsOk, BooksOk, PlanOk, ScanAll, ApplyAll, AllIndependent, AllDone, Good, NewBooks, Clashes;
    assert Succeeds(t, plan);
    ImportEstablishes(t, plan);
    ScanTallies(t, plan, |plan.items|);
    assert plan.items[..|plan.items|] == plan.items;
    CreatingCounted(t, plan, |plan.items|);
    var s := ScanAll(t, plan, |plan.items|);
    assert AllGood(t.items, s.prepared, 0);
    CreatedGrow(t.items, s.prepared, |s.prepared|);
  }

  ghost predicate NoBook(books: seq<Book>, registry: Id, code: string) {
    forall i :: 0 <= i < |books| ==> !IsBook(books[i], registry, code)
  }

  /** A set of the plan is stored: the one the target had, or a new one with the derived id and the planned name. */
  ghost predicate SetStored(t: Target, u: Target, sets: seq<PlanSet>, m: nat, k: nat) {
    && m < |sets| && k < |u.books| && u.books[k].registry == sets[m].registry && u.books[k].code == sets[m].code
    && (k >= |t.books| ==>
          && u.books[k].id == StableSet(sets[m].registry, sets[m].code) && u.books[k].name == sets[m].name
          && NoBook(t.books, sets[m].registry, sets[m].code))
  }

  ghost predicate IsStored(t: Target, u: Target, sets: seq<PlanSet>, m: nat) {
    exists k: nat :: SetStored(t, u, sets, m, k)
  }

  ghost predicate IsAsked(t: Target, u: Target, sets: seq<PlanSet>, k: nat) {
    exists m: nat :: SetStored(t, u, sets, m, k)
  }

  lemma {:induction false} SetIsStored(t: Target, u: Target, sets: seq<PlanSet>, added: seq<Book>, m: nat)
    requires NewBooksOk(t, sets, |sets|, added) && u.books == t.books + added && m < |sets|
    ensures IsStored(t, u, sets, m)
  {
    hide Lacks, BooksOk;
    LacksExactly(t, sets[m]);
    if Lacks(t, sets[m]) {
      var j: nat :| j < |added| && added[j] == NewBook(sets[m]);
      assert SetStored(t, u, sets, m, |t.books| + j);
    } else {
      var i: nat :| i < |t.books| && IsBook(t.books[i], sets[m].registry, sets[m].code);
      assert SetStored(t, u, sets, m, i);
    }
  }

  lemma {:induction false} NewIsAsked(t: Target, u: Target, sets: seq<PlanSet>, added: seq<Book>, k: nat)
    requires NewBooksOk(t, sets, |sets|, added) && u.books == t.books + added && |t.books| <= k < |u.books|
    ensures IsAsked(t, u, sets, k)
  {
    hide Lacks, BooksOk;
    var j := k - |t.books|;
    assert Asked(t, sets, |sets|, added[j]);
    var m: nat :| m < |sets| && Lacks(t, sets[m]) && added[j] == NewBook(sets[m]);
    LacksExactly(t, sets[m]);
    assert SetStored(t, u, sets, m, k);
  }

  /** After an import every set of the plan is there, old sets are as they were, and new ones are planned ones. */
  lemma {:induction false} SetsAreStored(t: Target, plan: Plan)
    requires TargetOk(t) && PlanOk(plan) && TargetRun(t, plan, true).0.Ok?
    ensures var u := TargetRun(t, plan, true).1;
            && |t.books| <= |u.books| && u.books[..|t.books|] == t.books
            && (forall m: nat :: m < |plan.sets| ==> IsStored(t, u, plan.sets, m))
            && (forall k: nat :: |t.books| <= k < |u.books| ==> IsAsked(t, u, plan.sets, k))
  {
    hide ItemsOk, BooksOk, PlanOk, ScanAll, ApplyAll, NewBooks, Clashes, Errors, NewBooksOk, IsStored, IsAsked;
    var u, added := TargetRun(t, plan, true).1, NewBooks(t, plan.sets, |plan.sets|);
    NewBooksMeaning(t, plan, |plan.sets|);
    forall m: nat | m < |plan.sets|
      ensures IsStored(t, u, plan.sets, m)
    {
      SetIsStored(t, u, plan.sets, added, m);
    }
    forall k: nat | |t.books| <= k < |u.books|
      ensures IsAsked(t, u, plan.sets, k)
    {
      NewIsAsked(t, u, plan.sets, added, k);
    }
  }

  lemma {:induction false} LacksExactly(t: Target, s: PlanSet)
    ensures Lacks(t, s) <==> NoBook(t.books, s.registry, s.code)
  {
  }

  // ---------------------------------------------------------------------------
  // The plan of one row
  // ---------------------------------------------------------------------------

  /** The row's id as text: a string as it is, a number in decimal digits. */
  ghost predicate IdAsText(id: RawId, s: string) {
    match id
    case Number(n) =>
      if n >= 0 then NumberOutcomes.ZeroFilled(s, n, 0)
      else |s| > 0 && s[0] == '-' && NumberOutcomes.ZeroFilled(s[1..], -n, 0)
    case Text(text) => s == text
    case Unusable(_) => false
  }

  /** A nameless row is labelled by where it comes from: the table without its schema, and the row's id if it fits. */
  ghost predicate Placeholder(c: Context, sourceId: string, derived: string, name: string) {
    exists entity: string ::
      && (c.table == "dbo." + entity || (c.table == entity && !("dbo." <= c.table)))
      && var text := "Без наименования [" + c.database + "/" + entity + "/" + sourceId + "]";
         name == if |text| <= 255 then text
                 else "Без наименования [" + c.database + "/" + entity + "/" + derived + "]"
  }

  /** The metadata of a row: its attributes, whether its label is missing, and what is known of a person. */
  ghost predicate KeyPlanned(c: Context, row: RawRow, metadata: map<string, string>, key: string)
    requires row.RawRow?
  {
    var people := c.code in {"executors", "responsible_executors", "signers", "approvers"};
    if key == "source_attributes" then key in metadata && metadata[key] == row.attributes
    else if key == "missing_source_label" && row.name == Some("") then key in metadata && metadata[key] == "true"
    else if key == "position" && people && row.position.Words? then key in metadata && metadata[key] == row.position.s
    else if key == "department" && people && row.department.Words? then
      key in metadata && metadata[key] == row.department.s
    else key !in metadata
  }

  ghost predicate RowPlanned(c: Context, row: RawRow, adoption: map<string, RawAdoption>, spec: Spec) {
    && row.RawRow?
    && spec.registry == c.registry && spec.code == c.code && spec.database == c.database && spec.table == c.table
    && IdAsText(row.id, spec.sourceId)
    && (if row.name == Some("") then Placeholder(c, spec.sourceId, row.derived, spec.name)
        else row.name == Some(spec.name))
    && (spec.active <==> row.active == NoActive || row.active == Flag(true) || row.active == Integer(1))
    && (forall key :: KeyPlanned(c, row, spec.metadata, key))
    && spec.fingerprint == row.fingerprint
    && spec.adopt == if spec.sourceId in adoption && adoption[spec.sourceId].AdoptId?
                     then Some(adoption[spec.sourceId].id) else None
  }

  lemma {:induction false} SourceIdIsText(id: RawId)
    requires IdOk(id)
    ensures IdAsText(id, SourceId(id))
  {
    hide NumberOutcomes.ZeroFilled;
    if id.Number? {
      var n: nat := if id.n < 0 then -id.n else id.n;
      NumberOutcomes.PaddedIsZeroFilled(n, 0);
      assert Padded(n, 0) == Decimal(n);
    }
  }

  lemma {:induction false} MissingIsPlaceholder(c: Context, sourceId: string, derived: string)
    ensures Placeholder(c, sourceId, derived, MissingLabel(c, sourceId, derived))
  {
    var entity := if "dbo." <= c.table then c.table[4..] else c.table;
    if "dbo." <= c.table {
      assert c.table[..4] == "dbo." && c.table == c.table[..4] + entity;
    }
  }

  lemma {:induction false} MetadataPlanned(c: Context, row: RawRow, key: string)
    requires row.RawRow?
    ensures KeyPlanned(c, row, MetadataOf(c, row), key)
  {
  }

  /** A usable row is planned under its list, with its id, label, state, metadata, fingerprint and adoption. */
  lemma {:induction false} SpecMeaning(c: Context, row: RawRow, adoption: map<string, RawAdoption>)
    requires RowShaped(c, row, adoption)
    ensures RowPlanned(c, row, adoption, SpecOf(c, row, adoption))
  {
    hide IdAsText, SourceId, Placeholder, MissingLabel, MetadataOf, KeyPlanned, LabelOk;
    SourceIdIsText(row.id);
    LabelOkSome(LabelOf(c, row));
    MissingIsPlaceholder(c, SourceId(row.id), row.derived);
    forall key
      ensures KeyPlanned(c, row, MetadataOf(c, row), key)
    {
      MetadataPlanned(c, row, key);
    }
  }

  /** The list a row belongs to, and the adoptions given for it. */
  ghost predicate RowOfList(s: RawSource, i: nat, c: Context, row: RawRow, adoption: map<string, RawAdoption>)
    requires i < |LISTS|
  {
    && s.RawSource? && s.registry.Some? && s.tables.Some? && s.adopt.Some?
    && c == Context(s.database, LISTS[i].table, LISTS[i].code, s.registry.value)
    && c.table in s.tables.value && s.tables.value[c.table].Rows? && row in s.tables.value[c.table].rows
    && if c.table in s.adopt.value then s.adopt.value[c.table] == Dict(adoption) else adoption == map[]
  }

  lemma {:induction false} RowInTable(s: RawSource, i: nat, c: Context, row: RawRow, adoption: map<string, RawAdoption>)
      returns (m: nat)
    requires i < |LISTS| && SourceOk(s) && RowOfList(s, i, c, row, adoption)
    ensures TableOk(s, i) && m < |TablePlan(s, i).items|
    ensures RowPlanned(c, row, adoption, TablePlan(s, i).items[m])
  {
    hide RowShaped, SpecOf, RowPlanned, Clash;
    assert TableOk(s, i);
    var rows := TableOf(s, i).rows;
    m :| 0 <= m < |rows| && rows[m] == row;
    SpecsMeaning(c, rows, |rows|, adoption);
    assert RowShaped(c, rows[m], adoption);
    SpecMeaning(c, row, adoption);
  }

  lemma {:induction false} RowInTables(s: RawSource, n: nat, i: nat, c: Context, row: RawRow,
                                       adoption: map<string, RawAdoption>)
      returns (m: nat)
    requires i < n <= |LISTS| && SourceOk(s) && RowOfList(s, i, c, row, adoption)
    ensures TablesOk(s, n) && m < |TablesPlan(s, n).items|
    ensures RowPlanned(c, row, adoption, TablesPlan(s, n).items[m])
    decreases n
  {
    hide TableOk, TablePlan, RowPlanned, RowOfList, TableNames;
    if i < n - 1 {
      m := RowInTables(s, n - 1, i, c, row, adoption);
    } else {
      m := RowInTable(s, i, c, row, adoption);
      m := m + |TablesPlan(s, n - 1).items|;
    }
  }

  /** Every row of every list of a snapshot in order has its item in the plan. */
  lemma {:induction false} EveryRowHasItsItem(sources: seq<RawSource>, n: nat, x: nat, i: nat, c: Context, row: RawRow,
                                              adoption: map<string, RawAdoption>)
      returns (m: nat)
    requires x < n <= |sources| && SourcesOk(sources, n) && i < |LISTS| && RowOfList(sources[x], i, c, row, adoption)
    ensures m < |SourcesPlan(sources, n).items|
    ensures RowPlanned(c, row, adoption, SourcesPlan(sources, n).items[m])
    decreases n
  {
    hide TablesPlan, RowPlanned, RowOfList, SourceOk, SourcesApart;
    if x < n - 1 {
      m := EveryRowHasItsItem(sources, n - 1, x, i, c, row, adoption);
    } else {
      assert SourceOk(sources[x]);
      m := RowInTables(sources[x], |LISTS|, i, c, row, adoption);
      m := m + |SourcesPlan(sources, n - 1).items|;
    }
  }

  /** A text a person may carry, or none. */
  ghost predicate ShortText(text: RawText) {
    match text
    case NoText => true
    case Words(s) => |s| <= 255 && '\0' !in s
    case OtherText => false
  }

  /** A label that can be stored: not blank, not too long, without a NUL. */
  ghost predicate ShortLabel(name: string) {
    (exists i :: 0 <= i < |name| && !IsSpace(name[i])) && |name| <= 255 && '\0' !in name
  }

  /** What a row needs to be planned. */
  ghost predicate Usable(c: Context, row: RawRow, adoption: map<string, RawAdoption>) {
    && row.RawRow?
    && (exists id :: IdAsText(row.id, id) && 1 <= |id| <= 255 && (id in adoption ==> adoption[id] != BadId))
    && (exists name :: ShortLabel(name)
                       && if row.name == Some("") then name == MissingLabel(c, SourceId(row.id), row.derived)
                          else row.name == Some(name))
    && row.active in {NoActive, Flag(true), Flag(false), Integer(0), Integer(1)}
    && (c.code in {"executors", "responsible_executors", "signers", "approvers"} ==>
          ShortText(row.position) && ShortText(row.department))
    && row.encodable
  }

  lemma {:induction false} BlankLabel(name: string)
    ensures Blank(name) <==> !exists i :: 0 <= i < |name| && !IsSpace(name[i])
  {
  }

  lemma {:induction false} IdTextOnce(id: RawId, s: string)
    requires IdAsText(id, s)
    ensures s == SourceId(id) && !id.Unusable?
  {
    if id.Number? {
      var n: nat := if id.n < 0 then -id.n else id.n;
      NumberOutcomes.PaddedIsZeroFilled(n, 0);
      assert Padded(n, 0) == Decimal(n);
      NumberOutcomes.ZeroFilledOnce(if id.n < 0 then s[1..] else s, Decimal(n), n, 0);
    }
  }

  lemma {:induction false} IdExactly(c: Context, row: RawRow, adoption: map<string, RawAdoption>)
    requires row.RawRow?
    ensures IdOk(row.id) && !AdoptionOf(adoption, SourceId(row.id)).BadId? <==>
            exists id :: IdAsText(row.id, id) && 1 <= |id| <= 255 && (id in adoption ==> adoption[id] != BadId)
  {
    hide IdAsText, SourceId;
    if IdOk(row.id) {
      SourceIdIsText(row.id);
    }
    if id :| IdAsText(row.id, id) && 1 <= |id| <= 255 && (id in adoption ==> adoption[id] != BadId) {
      IdTextOnce(row.id, id);
    }
  }

  /** The checks of a row by itself find nothing wrong exactly when it is usable. */
  lemma {:induction false} RowUsableExactly(c: Context, row: RawRow, adoption: map<string, RawAdoption>)
    ensures RowShaped(c, row, adoption) <==> Usable(c, row, adoption)
  {
    hide IdAsText, SourceId, MissingLabel, IdOk, AdoptionOf, Blank;
    if row.RawRow? {
      IdExactly(c, row, adoption);
      var name := LabelOf(c, row);
      if name.Some? {
        BlankLabel(name.value);
        assert LabelOk(name) <==> ShortLabel(name.value);
      }
    }
  }

  lemma {:induction false} SameDatabase(sources: seq<RawSource>, i: nat, j: nat)
    requires SourcesOk(sources, |sources|) && i < |sources| && j < |sources|
    requires sources[i].RawSource? && sources[j].RawSource? && sources[i].database == sources[j].database
    ensures i == j
  {
    hide SourceOk;
    assert i < j ==> SourcesApart(sources[i], sources[j]);
    assert j < i ==> SourcesApart(sources[j], sources[i]);
  }

  lemma {:induction false} SourceParts(s: RawSource)
    requires SourceOk(s)
    ensures s.RawSource? && (s.database == "okrug" || s.database == "raion") && s.registry.Some?
  {
    hide TablesOk, TableNames;
  }

  /** A snapshot in order has exactly two sources, one for each database, with a registry each. */
  lemma {:induction false} SnapshotIsTwoSources(sources: seq<RawSource>) returns (x: nat)
    requires SnapshotOk(sources)
    ensures |sources| == 2 && x < 2
    ensures var s, t := sources[x], sources[1 - x];
            && s.RawSource? && s.database == "okrug" && t.RawSource? && t.database == "raion"
            && s.registry.Some? && t.registry.Some? && s.registry != t.registry
  {
    hide SourceOk;
    x :| x < |sources| && sources[x].RawSource? && sources[x].database == "okrug";
    var y: nat :| y < |sources| && sources[y].RawSource? && sources[y].database == "raion";
    forall i: nat | i < |sources|
      ensures sources[i].RawSource? && sources[i].registry.Some?
      ensures OneOf(i, x, y)
    {
      SourceParts(sources[i]);
      SameDatabase(sources, i, if sources[i].database == "okrug" then x else y);
    }
    assert x != y;
    OnlyTwo(|sources|, x, y);
    assert SourcesApart(sources[0], sources[1]);
  }

  predicate OneOf(i: nat, x: nat, y: nat) {
    i == x || i == y
  }

  lemma {:induction false} OnlyTwo(n: nat, x: nat, y: nat)
    requires x < n && y < n && x != y && forall i: nat :: i < n ==> OneOf(i, x, y)
    ensures n == 2
  {
    assert OneOf(0, x, y) && OneOf(1, x, y) && (n > 2 ==> OneOf(2, x, y));
  }
}
