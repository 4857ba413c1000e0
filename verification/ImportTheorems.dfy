/** What an import keeps and why running it again changes nothing. */
module ImportTheorems {
  import opened Prelude
  import opened ImportPlan
  import opened ImportSnapshot
  import opened ImportTarget

  // ---------------------------------------------------------------------------
  // The constraints of the target
  // ---------------------------------------------------------------------------

  predicate SameSource(a: Item, b: Item) {
    && a.sourceDatabase.Some? && a.sourceEntity.Some? && a.sourceId.Some?
    && a.sourceDatabase == b.sourceDatabase && a.sourceEntity == b.sourceEntity && a.sourceId == b.sourceId
  }

  /** Two rows of the item table differ as its keys demand. */
  predicate RowsApart(a: Item, b: Item) {
    a.id != b.id && (a.setId != b.setId || a.name != b.name) && !SameSource(a, b)
  }

  ghost predicate ItemsOk(items: seq<Item>) {
    forall i, j :: 0 <= i < j < |items| ==> RowsApart(items[i], items[j])
  }

  predicate BooksApart(a: Book, b: Book) {
    a.id != b.id && (a.registry != b.registry || a.code != b.code)
  }

  ghost predicate BooksOk(books: seq<Book>) {
    forall i, j :: 0 <= i < j < |books| ==> BooksApart(books[i], books[j])
  }

  ghost predicate TargetOk(t: Target) {
    ItemsOk(t.items) && BooksOk(t.books)
  }

  // ---------------------------------------------------------------------------
  // What the validation establishes for one item
  // ---------------------------------------------------------------------------

  ghost predicate LabelFree(items: seq<Item>, p: Prepared) {
    forall i :: 0 <= i < |items| && HasLabel(items[i], p.before.setId, p.spec.name) ==> HasId(items[i], p.before.id)
  }

  ghost predicate SourceFree(items: seq<Item>, spec: Spec) {
    forall i :: 0 <= i < |items| ==> !FromSource(items[i], spec)
  }

  ghost predicate IdFree(items: seq<Item>, id: Id) {
    forall i :: 0 <= i < |items| ==> !HasId(items[i], id)
  }

  ghost predicate Good(items: seq<Item>, p: Prepared) {
    && p == Prepare(p.index, p.before, p.spec, p.creating, p.adopted)
    && LabelFree(items, p)
    && (p.creating || p.adopted ==> SourceFree(items, p.spec))
    && (if p.creating then
          p.index.None? && !p.adopted && p.before == NewItem(p.spec, p.before.setId) && p.spec.adopt.None?
          && IdFree(items, p.before.id)
        else
          p.index.Some? && p.index.value < |items| && items[p.index.value] == p.before
          && (if p.adopted then p.spec.adopt.Some? else FromSource(p.before, p.spec))
          && (p.spec.adopt.Some? ==> p.before.id == p.spec.adopt.value))
  }

  /** The stored item is what the plan asks for. */
  ghost predicate Done(items: seq<Item>, k: nat, p: Prepared)
    requires k < |items|
  {
    var item := items[k];
    && item.id == p.before.id && item.setId == p.before.setId && FromSource(item, p.spec)
    && (p.spec.adopt.Some? ==> item.id == p.spec.adopt.value)
    && !Differs(item, p.spec, Merged(item.metadata, p.spec))
  }

  ghost predicate IsDone(items: seq<Item>, p: Prepared) {
    exists k :: 0 <= k < |items| && Done(items, k, p)
  }

  /** Two prepared items do not get in each other's way. */
  ghost predicate Independent(p: Prepared, q: Prepared) {
    && p.before.id != q.before.id
    && (p.spec.database != q.spec.database || p.spec.table != q.spec.table || p.spec.sourceId != q.spec.sourceId)
    && (p.before.setId != q.before.setId || p.spec.name != q.spec.name)
  }

  /** Merging the same metadata twice is merging it once. */
  lemma {:induction false} MergedTwice(stored: map<string, string>, spec: Spec)
    ensures Merged(Merged(stored, spec), spec) == Merged(stored, spec)
  {
  }

  /** Writing a validated item keeps ids, labels within a set, and source identities unique. */
  lemma {:induction false} ApplyKeepsOk(items: seq<Item>, p: Prepared)
    requires ItemsOk(items) && Good(items, p)
    ensures ItemsOk(ApplyOne(items, p))
  {
  }

  lemma {:induction false} AppliedIsDone(items: seq<Item>, p: Prepared)
    requires Good(items, p)
    ensures IsDone(ApplyOne(items, p), p)
  {
    var r := ApplyOne(items, p);
    MergedTwice(p.before.metadata, p.spec);
    var k := if p.creating then |items| else p.index.value;
    assert p.metadata == Merged(p.before.metadata, p.spec);
    assert Done(r, k, p);
  }

  /** What was validated for one item still holds after another is written. */
  lemma {:induction false} GoodSurvives(items: seq<Item>, p: Prepared, q: Prepared)
    requires Good(items, p) && Good(items, q) && Independent(p, q)
    ensures Good(ApplyOne(items, p), q)
  {
  }

  /** An item that is done stays done while others are written. */
  lemma {:induction false} DoneSurvives(items: seq<Item>, p: Prepared, q: Prepared)
    requires IsDone(items, p) && Good(items, q) && Independent(p, q)
    ensures IsDone(ApplyOne(items, q), p)
  {
    var k :| 0 <= k < |items| && Done(items, k, p);
    hide Prepare, Merged, Differs;
    var r := ApplyOne(items, q);
    assert r[k] == items[k];
    assert Done(r, k, p);
  }

  ghost predicate AllGood(items: seq<Item>, prepared: seq<Prepared>, n: nat) {
    forall j :: n <= j < |prepared| ==> Good(items, prepared[j])
  }

  ghost predicate AllIndependent(prepared: seq<Prepared>) {
    forall i, j :: 0 <= i < |prepared| && 0 <= j < |prepared| && i != j ==> Independent(prepared[i], prepared[j])
  }

  ghost predicate AllDone(items: seq<Item>, prepared: seq<Prepared>, n: nat)
    requires n <= |prepared|
  {
    forall j :: 0 <= j < n ==> IsDone(items, prepared[j])
  }

  lemma {:induction false} ApplyAllWorks(items: seq<Item>, prepared: seq<Prepared>, n: nat)
    requires n <= |prepared| && ItemsOk(items) && AllGood(items, prepared, 0) && AllIndependent(prepared)
    ensures var r := ApplyAll(items, prepared, n);
            ItemsOk(r) && AllGood(r, prepared, n) && AllDone(r, prepared, n)
  {
    hide ItemsOk, Good, IsDone, Independent, ApplyOne;
    if n > 0 {
      ApplyAllWorks(items, prepared, n - 1);
      var r, p := ApplyAll(items, prepared, n - 1), prepared[n - 1];
      ApplyKeepsOk(r, p);
      AppliedIsDone(r, p);
      forall j | n <= j < |prepared| ensures Good(ApplyOne(r, p), prepared[j]) {
        GoodSurvives(r, p, prepared[j]);
      }
      forall j | 0 <= j < n ensures IsDone(ApplyOne(r, p), prepared[j]) {
        if j < n - 1 {
          DoneSurvives(r, prepared[j], p);
        }
      }
    }
  }

  // ---------------------------------------------------------------------------
  // From the validation to `Good`
  // ---------------------------------------------------------------------------

  lemma {:induction false} AcceptedIsGood(items: seq<Item>, setId: Id, spec: Spec)
    requires ItemsOk(items) && Examine(items, setId, spec).Accepted? && Examine(items, setId, spec).errors == 0
    ensures var p := Examine(items, setId, spec).prepared;
            Good(items, p) && p.spec == spec && p.before.setId == setId
  {
    hide Merged, Differs;
    var p := Examine(items, setId, spec).prepared;
    var found := FindSource(items, |items|, spec);
    var adopted := found.None? && spec.adopt.Some?;
    var item := if adopted then FindId(items, |items|, spec.adopt.value) else found;
    assert !Collides(items, setId, spec, item);
    forall i | 0 <= i < |items| && HasLabel(items[i], setId, spec.name) ensures HasId(items[i], p.before.id) {
      LabelFound(items, setId, spec.name, i);
    }
  }

  lemma {:induction false} LabelFound(items: seq<Item>, setId: Id, name: string, i: nat)
    requires ItemsOk(items) && i < |items| && HasLabel(items[i], setId, name)
    ensures FindLabel(items, |items|, setId, name) == Some(i)
  {
  }

  /** What a validation without errors has prepared. */
  ghost predicate PreparedOk(t: Target, plan: Plan, n: nat, s: Scan)
    requires n <= |plan.items|
  {
    && s.errors == 0 && |s.prepared| == n
    && (forall j :: 0 <= j < n ==>
          s.prepared[j].spec == plan.items[j] && s.prepared[j].before.setId == SetId(t, plan, plan.items[j])
          && Good(t.items, s.prepared[j]))
    && (forall i, j :: 0 <= i < j < n ==> s.prepared[i].before.id != s.prepared[j].before.id)
    && (forall id :: id in s.selected <==> exists j :: 0 <= j < n && s.prepared[j].before.id == id)
    && s.counts.created + s.counts.updated + s.counts.kept + s.counts.adopted == n
  }

  lemma {:induction false} RefusedCounts(items: seq<Item>, setId: Id, spec: Spec)
    ensures Examine(items, setId, spec).Refused? ==> Examine(items, setId, spec).errors > 0
  {
  }

  /** A scan without errors has accepted its last item, and met its target item for the first time. */
  lemma {:induction false} SelectedOnce(t: Target, plan: Plan, n: nat)
    requires 0 < n <= |plan.items| && ScanAll(t, plan, n).errors == 0
    ensures var s, spec := ScanAll(t, plan, n - 1), plan.items[n - 1];
            var v := Examine(t.items, SetId(t, plan, spec), spec);
            && s.errors == 0 && v.Accepted? && v.errors == 0 && v.prepared.before.id !in s.selected
            && ScanAll(t, plan, n) ==
               Scan(0, Add(s.counts, v.prepared), s.prepared + [v.prepared], s.selected + {v.prepared.before.id})
  {
    hide Examine, SetId, Add;
    var spec := plan.items[n - 1];
    RefusedCounts(t.items, SetId(t, plan, spec), spec);
  }

  lemma {:induction false} PreparedStep(t: Target, plan: Plan, n: nat, s: Scan, p: Prepared)
    requires 0 < n <= |plan.items| && PreparedOk(t, plan, n - 1, s)
    requires p.spec == plan.items[n - 1] && p.before.setId == SetId(t, plan, p.spec) && Good(t.items, p)
    requires p.before.id !in s.selected
    ensures PreparedOk(t, plan, n, Scan(0, Add(s.counts, p), s.prepared + [p], s.selected + {p.before.id}))
  {
    hide Good, SetId;
    var prepared := s.prepared + [p];
    forall id ensures id in s.selected + {p.before.id} <==> exists j :: 0 <= j < n && prepared[j].before.id == id {
      if id == p.before.id {
        assert prepared[n - 1].before.id == id;
      } else if id in s.selected {
        var j :| 0 <= j < n - 1 && s.prepared[j].before.id == id;
        assert prepared[j].before.id == id;
      }
    }
  }

  lemma {:induction false} NothingPrepared(t: Target, plan: Plan)
    ensures PreparedOk(t, plan, 0, ScanAll(t, plan, 0))
  {
    hide Good, SetId;
  }

  lemma {:induction false} ScanEstablishes(t: Target, plan: Plan, n: nat)
    requires n <= |plan.items| && ItemsOk(t.items) && ScanAll(t, plan, n).errors == 0
    ensures PreparedOk(t, plan, n, ScanAll(t, plan, n))
  {
    hide Examine, Good, SetId, ItemsOk, PreparedOk, Add, ScanAll;
    if n == 0 {
      NothingPrepared(t, plan);
    } else {
      SelectedOnce(t, plan, n);
      ScanEstablishes(t, plan, n - 1);
      var s, spec := ScanAll(t, plan, n - 1), plan.items[n - 1];
      var v := Examine(t.items, SetId(t, plan, spec), spec);
      AcceptedIsGood(t.items, SetId(t, plan, spec), spec);
      PreparedStep(t, plan, n, s, v.prepared);
    }
  }

  // ---------------------------------------------------------------------------
  // The sets
  // ---------------------------------------------------------------------------

  lemma {:induction false} SetFound(plan: Plan, n: nat, spec: Spec, k: nat)
    requires PlanOk(plan) && k < n <= |plan.sets| && Belongs(spec, plan.sets[k])
    ensures SetOf(plan.sets, n, spec) == Some(k)
  {
  }

  lemma {:induction false} BookFound(books: seq<Book>, registry: Id, code: string, i: nat)
    requires BooksOk(books) && i < |books| && IsBook(books[i], registry, code)
    ensures FindBook(books, |books|, registry, code) == Some(i)
  {
  }

  predicate Lacks(t: Target, s: PlanSet) {
    FindBook(t.books, |t.books|, s.registry, s.code).None?
  }

  /** The new book belongs to one of the first `n` sets, which the target lacks. */
  ghost predicate Asked(t: Target, sets: seq<PlanSet>, n: nat, b: Book)
    requires n <= |sets|
  {
    exists k :: 0 <= k < n && Lacks(t, sets[k]) && b == NewBook(sets[k])
  }

  ghost predicate NewBooksOk(t: Target, sets: seq<PlanSet>, n: nat, added: seq<Book>)
    requires n <= |sets|
  {
    && BooksOk(added)
    && (forall j :: 0 <= j < |added| ==> Asked(t, sets, n, added[j]))
    && (forall k :: 0 <= k < n && Lacks(t, sets[k]) ==> NewBook(sets[k]) in added)
  }

  /** Every new book belongs to a set of the plan that the target lacks, and every such set has one. */
  lemma {:induction false} NewBooksMeaning(t: Target, plan: Plan, n: nat)
    requires n <= |plan.sets| && PlanOk(plan)
    ensures NewBooksOk(t, plan.sets, n, NewBooks(t, plan.sets, n))
  {
    if n > 0 {
      hide FindBook, PlanOk, NewBooksOk;
      NewBooksMeaning(t, plan, n - 1);
      NewBooksStep(t, plan, n, NewBooks(t, plan.sets, n - 1));
    } else {
      hide FindBook, PlanOk;
      assert NewBooksOk(t, plan.sets, 0, []);
    }
  }

  lemma {:induction false} NewBooksStep(t: Target, plan: Plan, n: nat, before: seq<Book>)
    requires 0 < n <= |plan.sets| && PlanOk(plan) && NewBooksOk(t, plan.sets, n - 1, before)
    ensures var s := plan.sets[n - 1];
            NewBooksOk(t, plan.sets, n, before + if Lacks(t, s) then [NewBook(s)] else [])
  {
  }

  /** After the import every set of the plan is found, under the id the validation used. */
  lemma {:induction false} BookAfter(t: Target, plan: Plan, s: PlanSet)
    requires BooksOk(t.books) && PlanOk(plan) && s in plan.sets
    requires !Clashes(t.books, NewBooks(t, plan.sets, |plan.sets|))
    ensures var books := t.books + NewBooks(t, plan.sets, |plan.sets|);
            BooksOk(books) && BookFor(t.(books := books), s) == BookFor(t, s) && !Lacks(t.(books := books), s)
  {
    var added := NewBooks(t, plan.sets, |plan.sets|);
    var books := t.books + added;
    NewBooksMeaning(t, plan, |plan.sets|);
    BooksTogether(t, plan.sets, added);
    if Lacks(t, s) {
      var k :| 0 <= k < |plan.sets| && plan.sets[k] == s;
      assert Lacks(t, plan.sets[k]);
      var j :| 0 <= j < |added| && added[j] == NewBook(s);
      BookFound(books, s.registry, s.code, |t.books| + j);
    } else {
      var i := FindBook(t.books, |t.books|, s.registry, s.code).value;
      BookFound(books, s.registry, s.code, i);
    }
  }

  lemma {:induction false} BooksTogether(t: Target, sets: seq<PlanSet>, added: seq<Book>)
    requires BooksOk(t.books) && NewBooksOk(t, sets, |sets|, added) && !Clashes(t.books, added)
    ensures BooksOk(t.books + added)
  {
  }

  // ---------------------------------------------------------------------------
  // The whole import
  // ---------------------------------------------------------------------------

  ghost predicate Succeeds(t: Target, plan: Plan) {
    Errors(t, plan) == 0 && !Clashes(t.books, NewBooks(t, plan.sets, |plan.sets|))
  }

  /** Sets of different lists have different ids, so items of one label in one set come from one list. */
  lemma {:induction false} SetIdsDiffer(t: Target, plan: Plan, a: Spec, b: Spec)
    requires BooksOk(t.books) && PlanOk(plan) && Succeeds(t, plan) && a in plan.items && b in plan.items
    requires a.registry != b.registry || a.code != b.code
    ensures SetId(t, plan, a) != SetId(t, plan, b)
  {
    hide FindBook, NewBooks, Errors, SetId, BookFor, PlanOk, Clashes;
    SetIdMeaning(t, plan, a);
    SetIdMeaning(t, plan, b);
    var k :| 0 <= k < |plan.sets| && Belongs(a, plan.sets[k]) && SetId(t, plan, a) == BookFor(t, plan.sets[k]).id;
    var l :| 0 <= l < |plan.sets| && Belongs(b, plan.sets[l]) && SetId(t, plan, b) == BookFor(t, plan.sets[l]).id;
    BookAfter(t, plan, plan.sets[k]);
    BookAfter(t, plan, plan.sets[l]);
    var u := t.(books := t.books + NewBooks(t, plan.sets, |plan.sets|));
    FoundBook(u, plan.sets[k]);
    FoundBook(u, plan.sets[l]);
  }

  lemma {:induction false} FoundBook(t: Target, s: PlanSet)
    requires !Lacks(t, s)
    ensures exists i :: 0 <= i < |t.books| && t.books[i] == BookFor(t, s) && IsBook(t.books[i], s.registry, s.code)
  {
  }

  lemma {:induction false} SetIdMeaning(t: Target, plan: Plan, spec: Spec)
    requires PlanOk(plan) && spec in plan.items
    ensures exists k :: 0 <= k < |plan.sets| && Belongs(spec, plan.sets[k])
                        && SetId(t, plan, spec) == BookFor(t, plan.sets[k]).id
  {
    hide BookFor;
    var i :| 0 <= i < |plan.items| && plan.items[i] == spec;
    assert HasSet(plan, i);
    var k :| 0 <= k < |plan.sets| && Belongs(spec, plan.sets[k]);
    SetFound(plan, |plan.sets|, spec, k);
  }

  lemma {:induction false} PreparedIndependent(t: Target, plan: Plan, s: Scan)
    requires BooksOk(t.books) && PlanOk(plan) && Succeeds(t, plan) && PreparedOk(t, plan, |plan.items|, s)
    ensures AllIndependent(s.prepared) && AllGood(t.items, s.prepared, 0)
  {
    hide Good, SetId, Succeeds;
    forall i, j | 0 <= i < |s.prepared| && 0 <= j < |s.prepared| && i != j
      ensures Independent(s.prepared[i], s.prepared[j])
    {
      var a, b := plan.items[i], plan.items[j];
      assert s.prepared[i].spec == a && s.prepared[j].spec == b;
      assert i < j ==> ItemsApart(a, b) && s.prepared[i].before.id != s.prepared[j].before.id;
      assert j < i ==> ItemsApart(b, a) && s.prepared[j].before.id != s.prepared[i].before.id;
      if a.registry != b.registry || a.code != b.code {
        SetIdsDiffer(t, plan, a, b);
      }
    }
  }

  /** What an import that succeeds leaves behind. */
  lemma {:induction false} ImportEstablishes(t: Target, plan: Plan)
    requires TargetOk(t) && PlanOk(plan) && Succeeds(t, plan)
    ensures var s := ScanAll(t, plan, |plan.items|);
            var u := Applied(t, plan);
            && PreparedOk(t, plan, |plan.items|, s) && AllIndependent(s.prepared)
            && ItemsOk(u.items) && AllDone(u.items, s.prepared, |s.prepared|)
  {
    hide ItemsOk, BooksOk, PreparedOk, AllIndependent, AllDone, AllGood;
    var s := ScanAll(t, plan, |plan.items|);
    ScanEstablishes(t, plan, |plan.items|);
    PreparedIndependent(t, plan, s);
    ApplyAllWorks(t.items, s.prepared, |s.prepared|);
  }

  /** Labels that were distinct within each set, ids and source identities stay distinct. */
  lemma {:induction false} ImportKeepsConstraints(t: Target, plan: Plan, apply: bool)
    requires TargetOk(t) && PlanOk(plan)
    ensures TargetOk(TargetRun(t, plan, apply).1)
  {
    hide ItemsOk, Clashes, NewBooks, ScanAll, ApplyAll;
    if TargetRun(t, plan, apply).0.Ok? && apply {
      ImportEstablishes(t, plan);
      NewBooksMeaning(t, plan, |plan.sets|);
      BooksTogether(t, plan.sets, NewBooks(t, plan.sets, |plan.sets|));
    }
  }

  /** Every planned item is in exactly one of the four groups of the report. */
  lemma {:induction false} CountsAddUp(t: Target, plan: Plan, apply: bool)
    requires TargetOk(t) && TargetRun(t, plan, apply).0.Ok?
    ensures var c := TargetRun(t, plan, apply).0.value.counts;
            c.created + c.updated + c.kept + c.adopted == |plan.items|
  {
    ScanEstablishes(t, plan, |plan.items|);
  }

  lemma {:induction false} NewBooksAreAsked(t: Target, sets: seq<PlanSet>, n: nat, b: Book)
    requires n <= |sets|
    ensures b in NewBooks(t, sets, n) <==> Asked(t, sets, n, b)
  {
    hide FindBook, NewBook;
    if n > 0 {
      NewBooksAreAsked(t, sets, n - 1, b);
    }
  }

  /** A planned set that the target lacks would take the id of an existing set. */
  ghost predicate IdTaken(t: Target, plan: Plan) {
    exists i, k :: 0 <= i < |t.books| && 0 <= k < |plan.sets| && TakesId(t.books[i], t, plan.sets[k])
  }

  ghost predicate TakesId(b: Book, t: Target, s: PlanSet) {
    Lacks(t, s) && b.id == StableSet(s.registry, s.code)
  }

  lemma {:induction false} ClashesExactly(t: Target, plan: Plan)
    ensures Clashes(t.books, NewBooks(t, plan.sets, |plan.sets|)) <==> IdTaken(t, plan)
  {
    hide FindBook, NewBooks, Lacks;
    var added := NewBooks(t, plan.sets, |plan.sets|);
    if Clashes(t.books, added) {
      var i, j :| 0 <= i < |t.books| && 0 <= j < |added| && t.books[i].id == added[j].id;
      NewBooksAreAsked(t, plan.sets, |plan.sets|, added[j]);
      var k :| 0 <= k < |plan.sets| && Lacks(t, plan.sets[k]) && added[j] == NewBook(plan.sets[k]);
      assert TakesId(t.books[i], t, plan.sets[k]);
    }
    if IdTaken(t, plan) {
      var i, k :| 0 <= i < |t.books| && 0 <= k < |plan.sets| && TakesId(t.books[i], t, plan.sets[k]);
      assert Asked(t, plan.sets, |plan.sets|, NewBook(plan.sets[k]));
      NewBooksAreAsked(t, plan.sets, |plan.sets|, NewBook(plan.sets[k]));
    }
  }

  /**
   A dry run changes nothing and reports exactly what the import will report, unless a planned set the
   target lacks finds its id taken: then the import is refused though the dry run was not. Any refusal
   leaves the target as it was.
   */
  lemma {:induction false} DryRunPredicts(t: Target, plan: Plan)
    ensures TargetRun(t, plan, false).1 == t
    ensures TargetRun(t, plan, true).0.Err? ==> TargetRun(t, plan, true).1 == t
    ensures TargetRun(t, plan, true).0.Ok? ==> TargetRun(t, plan, false).0 == TargetRun(t, plan, true).0
    ensures TargetRun(t, plan, false).0 == TargetRun(t, plan, true).0 <==>
            TargetRun(t, plan, false).0.Err? || !IdTaken(t, plan)
  {
    hide Clashes, NewBooks, Errors, IdTaken, Applied;
    ClashesExactly(t, plan);
  }

  /** Such a target: its only set was given the id that is derived for another one. */
  lemma {:induction false} TakenIdIsMissed()
    ensures var t := Target({Other(1)}, [Book(StableSet(Other(1), "status"), Other(1), "themes", "")], []);
            var plan := Plan([PlanSet("okrug", "dbo.ref_status", Other(1), "status", "", 0)], []);
            && TargetOk(t) && PlanOk(plan)
            && TargetRun(t, plan, false).0.Ok? && TargetRun(t, plan, true).0 == Err(Integrity)
  {
    var t := Target({Other(1)}, [Book(StableSet(Other(1), "status"), Other(1), "themes", "")], []);
    var plan := Plan([PlanSet("okrug", "dbo.ref_status", Other(1), "status", "", 0)], []);
    assert MissingRegistries(t, plan.sets, 0) == 0;
    assert Lacks(t, plan.sets[0]) && TakesId(t.books[0], t, plan.sets[0]);
    ClashesExactly(t, plan);
    assert IdTaken(t, plan);
  }

  /** Ids derived for a set are given to no other set. */
  ghost predicate OwnIds(books: seq<Book>) {
    forall i :: 0 <= i < |books| ==> OwnId(books[i])
  }

  predicate OwnId(b: Book) {
    b.id.StableSet? ==> b.id == StableSet(b.registry, b.code)
  }

  /** While only imports derive ids a dry run is always right, and imports keep it that way. */
  lemma {:induction false} OwnIdsMakeDryRunsExact(t: Target, plan: Plan, apply: bool)
    requires OwnIds(t.books)
    ensures TargetRun(t, plan, false).0 == TargetRun(t, plan, true).0
    ensures OwnIds(TargetRun(t, plan, apply).1.books)
  {
    hide NewBooks, Errors, ScanAll, ApplyAll, FindBook, Clashes;
    DryRunPredicts(t, plan);
    var added := NewBooks(t, plan.sets, |plan.sets|);
    forall i, k | 0 <= i < |t.books| && 0 <= k < |plan.sets|
      ensures !TakesId(t.books[i], t, plan.sets[k])
    {
      assert OwnId(t.books[i]);
      assert IsBook(t.books[i], plan.sets[k].registry, plan.sets[k].code) ==> !Lacks(t, plan.sets[k]);
    }
    forall j | 0 <= j < |added|
      ensures OwnId(added[j])
    {
      NewBooksAreAsked(t, plan.sets, |plan.sets|, added[j]);
    }
  }

  // ---------------------------------------------------------------------------
  // Idempotence
  // ---------------------------------------------------------------------------

  /** An item that is done is found again, and there is nothing to write. */
  lemma {:induction false} DoneIsUnchanged(items: seq<Item>, p: Prepared)
    requires ItemsOk(items) && IsDone(items, p)
    ensures var v := Examine(items, p.before.setId, p.spec);
            && v.Accepted? && v.errors == 0
            && !v.prepared.changed && !v.prepared.creating && !v.prepared.adopted && v.prepared.before.id == p.before.id
  {
  }

  /** The second validation finds every item unchanged. */
  ghost predicate NothingToDo(first: seq<Prepared>, n: nat, s: Scan)
    requires n <= |first|
  {
    && s.errors == 0 && s.counts == Counts(0, 0, n, 0) && |s.prepared| == n
    && (forall j :: 0 <= j < n ==> !s.prepared[j].changed)
    && (forall id :: id in s.selected ==> exists j :: 0 <= j < n && first[j].before.id == id)
  }

  lemma {:induction false} SecondScan(plan: Plan, u: Target, first: seq<Prepared>, n: nat)
    requires n <= |plan.items| == |first| && ItemsOk(u.items)
    requires AllIndependent(first) && AllDone(u.items, first, |first|)
    requires forall j :: 0 <= j < |first| ==>
                           first[j].spec == plan.items[j] && first[j].before.setId == SetId(u, plan, plan.items[j])
    ensures NothingToDo(first, n, ScanAll(u, plan, n))
  {
    hide ItemsOk, IsDone, SetId, Examine;
    if n > 0 {
      SecondScan(plan, u, first, n - 1);
      var p := first[n - 1];
      DoneIsUnchanged(u.items, p);
      forall j | 0 <= j < n - 1 ensures first[j].before.id != p.before.id {
        assert Independent(first[j], first[n - 1]);
      }
    }
  }

  lemma {:induction false} NothingWritten(items: seq<Item>, prepared: seq<Prepared>, n: nat)
    requires n <= |prepared| && forall j :: 0 <= j < |prepared| ==> !prepared[j].changed
    ensures ApplyAll(items, prepared, n) == items
  {
    if n > 0 {
      NothingWritten(items, prepared, n - 1);
    }
  }

  lemma {:induction false} NoBooksLacking(u: Target, sets: seq<PlanSet>, n: nat)
    requires n <= |sets| && forall k :: 0 <= k < |sets| ==> !Lacks(u, sets[k])
    ensures NewBooks(u, sets, n) == []
  {
    hide FindBook;
    if n > 0 {
      NoBooksLacking(u, sets, n - 1);
      assert !Lacks(u, sets[n - 1]);
    }
  }

  lemma {:induction false} SameRegistries(t: Target, u: Target, sets: seq<PlanSet>, n: nat)
    requires n <= |sets| && t.registries == u.registries
    ensures MissingRegistries(t, sets, n) == MissingRegistries(u, sets, n)
  {
    if n > 0 {
      SameRegistries(t, u, sets, n - 1);
    }
  }

  /** The sets keep the ids under which the validation has used them. */
  lemma {:induction false} SetsAfter(t: Target, plan: Plan, spec: Spec)
    requires TargetOk(t) && PlanOk(plan) && Succeeds(t, plan) && spec in plan.items
    ensures SetId(Applied(t, plan), plan, spec) == SetId(t, plan, spec)
  {
    hide ItemsOk, NewBooks, ScanAll, ApplyAll;
    var i :| 0 <= i < |plan.items| && plan.items[i] == spec;
    assert HasSet(plan, i);
    var k :| 0 <= k < |plan.sets| && Belongs(spec, plan.sets[k]);
    SetFound(plan, |plan.sets|, spec, k);
    BookAfter(t, plan, plan.sets[k]);
    SameBooks(t.(books := t.books + NewBooks(t, plan.sets, |plan.sets|)), Applied(t, plan), plan.sets[k]);
  }

  lemma {:induction false} SameBooks(t: Target, u: Target, s: PlanSet)
    requires t.books == u.books
    ensures BookFor(t, s) == BookFor(u, s) && Lacks(t, s) == Lacks(u, s)
  {
  }

  /** Applying the same plan a second time changes nothing, creates no set, and reports every item as unchanged. */
  lemma {:induction false} ImportTwice(t: Target, plan: Plan)
    requires TargetOk(t) && PlanOk(plan) && TargetRun(t, plan, true).0.Ok?
    ensures var u := TargetRun(t, plan, true).1;
            TargetRun(u, plan, true) == (Ok(Report(0, Counts(0, 0, |plan.items|, 0))), u)
  {
    var u := Applied(t, plan);
    assert Succeeds(t, plan);
    ImportEstablishes(t, plan);
    var first := ScanAll(t, plan, |plan.items|).prepared;
    forall j | 0 <= j < |first|
      ensures first[j].spec == plan.items[j] && first[j].before.setId == SetId(u, plan, plan.items[j])
    {
      SetsAfter(t, plan, plan.items[j]);
    }
    SecondScan(plan, u, first, |plan.items|);
    SecondIsIdle(t, plan, u);
  }

  lemma {:induction false} SecondIsIdle(t: Target, plan: Plan, u: Target)
    requires TargetOk(t) && PlanOk(plan) && Succeeds(t, plan) && u == Applied(t, plan)
    requires |ScanAll(t, plan, |plan.items|).prepared| == |plan.items|
    requires NothingToDo(ScanAll(t, plan, |plan.items|).prepared, |plan.items|, ScanAll(u, plan, |plan.items|))
    ensures TargetRun(u, plan, true) == (Ok(Report(0, Counts(0, 0, |plan.items|, 0))), u)
  {
    hide ItemsOk, ScanAll, ApplyAll, NewBooks, FindBook, MissingRegistries;
    SameRegistries(t, u, plan.sets, |plan.sets|);
    forall k | 0 <= k < |plan.sets| ensures !Lacks(u, plan.sets[k]) {
      BookAfter(t, plan, plan.sets[k]);
      SameBooks(t.(books := t.books + NewBooks(t, plan.sets, |plan.sets|)), u, plan.sets[k]);
    }
    NoBooksLacking(u, plan.sets, |plan.sets|);
    var second := ScanAll(u, plan, |plan.items|).prepared;
    NothingWritten(u.items, second, |second|);
    assert u.books + [] == u.books;
  }

  /** After an import every planned item is stored in its set with the planned label, state and fingerprint. */
  lemma {:induction false} EveryItemIsStored(t: Target, plan: Plan, j: nat)
    requires TargetOk(t) && PlanOk(plan) && TargetRun(t, plan, true).0.Ok? && j < |plan.items|
    ensures var u, spec := TargetRun(t, plan, true).1, plan.items[j];
            exists k :: 0 <= k < |u.items| && FromSource(u.items[k], spec) && u.items[k].setId == SetId(t, plan, spec)
                        && !Differs(u.items[k], spec, Merged(u.items[k].metadata, spec))
  {
    assert Succeeds(t, plan);
    ImportEstablishes(t, plan);
    hide ItemsOk, Merged, SetId, Succeeds, ScanAll, ApplyAll;
    var p, u := ScanAll(t, plan, |plan.items|).prepared[j], Applied(t, plan);
    assert IsDone(u.items, p);
    var k :| 0 <= k < |u.items| && Done(u.items, k, p);
  }

  /** Items that come from none of the planned rows and are adopted by none stay exactly as they were. */
  lemma {:induction false} OthersAreUntouched(t: Target, plan: Plan, i: nat)
    requires TargetOk(t) && PlanOk(plan) && TargetRun(t, plan, true).0.Ok? && i < |t.items|
    requires forall j :: 0 <= j < |plan.items| ==>
               !FromSource(t.items[i], plan.items[j]) && plan.items[j].adopt != Some(t.items[i].id)
    ensures var u := TargetRun(t, plan, true).1; i < |u.items| && u.items[i] == t.items[i]
  {
    assert Succeeds(t, plan);
    ImportEstablishes(t, plan);
    var s := ScanAll(t, plan, |plan.items|);
    hide ItemsOk, BooksOk, PlanOk, Succeeds, ScanAll, ApplyAll, SetId, AllIndependent, AllDone, Good;
    forall j | 0 <= j < |s.prepared| ensures s.prepared[j].index != Some(i) {
      assert Good(t.items, s.prepared[j]) && s.prepared[j].spec == plan.items[j];
      GoodElsewhere(t.items, s.prepared[j], i);
    }
    UntouchedRow(t.items, s.prepared, |s.prepared|, i);
  }

  lemma {:induction false} GoodElsewhere(items: seq<Item>, p: Prepared, i: nat)
    requires Good(items, p) && i < |items| && !FromSource(items[i], p.spec) && p.spec.adopt != Some(items[i].id)
    ensures p.index != Some(i)
  {
  }

  lemma {:induction false} UntouchedRow(items: seq<Item>, prepared: seq<Prepared>, n: nat, i: nat)
    requires n <= |prepared| && i < |items| && forall j :: 0 <= j < |prepared| ==> prepared[j].index != Some(i)
    ensures var r := ApplyAll(items, prepared, n); |r| >= |items| && r[i] == items[i]
  {
    if n > 0 {
      UntouchedRow(items, prepared, n - 1, i);
      assert prepared[n - 1].index != Some(i);
    }
  }
}
