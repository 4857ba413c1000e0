/**
 Applying an import plan: the whole target is validated first, then changed. `Good` says what the
 validation has established for one planned item; it survives the application of every other item,
 which is why the unique constraints hold afterwards and a second run finds nothing to do.
 */
module ImportTarget {
  import opened Prelude
  import opened ImportPlan
  import opened ImportSnapshot

  /** A reference item. Columns the import never reads or writes are left out. */
  datatype Item = Item(id: Id, setId: Id, name: string, active: bool, metadata: map<string, string>,
                       sourceDatabase: Option<string>, sourceEntity: Option<string>, sourceId: Option<string>,
                       fingerprint: Option<string>)

  datatype Book = Book(id: Id, registry: Id, code: string, name: string)

  datatype Target = Target(registries: set<Id>, books: seq<Book>, items: seq<Item>)

  // ---------------------------------------------------------------------------
  // Lookups
  // ---------------------------------------------------------------------------

  predicate IsBook(b: Book, registry: Id, code: string) {
    b.registry == registry && b.code == code
  }

  function FindBook(books: seq<Book>, n: nat, registry: Id, code: string): (r: Option<nat>)
    requires n <= |books|
    ensures r.Some? ==> r.value < n && IsBook(books[r.value], registry, code)
    ensures r.None? ==> forall i :: 0 <= i < n ==> !IsBook(books[i], registry, code)
  {
    if n == 0 then None
    else match FindBook(books, n - 1, registry, code)
      case Some(i) => Some(i)
      case None => if IsBook(books[n - 1], registry, code) then Some(n - 1) else None
  }

  predicate FromSource(item: Item, spec: Spec) {
    item.sourceDatabase == Some(spec.database) && item.sourceEntity == Some(spec.table)
    && item.sourceId == Some(spec.sourceId)
  }

  function FindSource(items: seq<Item>, n: nat, spec: Spec): (r: Option<nat>)
    requires n <= |items|
    ensures r.Some? ==> r.value < n && FromSource(items[r.value], spec)
    ensures r.None? ==> forall i :: 0 <= i < n ==> !FromSource(items[i], spec)
  {
    if n == 0 then None
    else match FindSource(items, n - 1, spec)
      case Some(i) => Some(i)
      case None => if FromSource(items[n - 1], spec) then Some(n - 1) else None
  }

  predicate HasId(item: Item, id: Id) {
    item.id == id
  }

  function FindId(items: seq<Item>, n: nat, id: Id): (r: Option<nat>)
    requires n <= |items|
    ensures r.Some? ==> r.value < n && HasId(items[r.value], id)
    ensures r.None? ==> forall i :: 0 <= i < n ==> !HasId(items[i], id)
  {
    if n == 0 then None
    else match FindId(items, n - 1, id)
      case Some(i) => Some(i)
      case None => if HasId(items[n - 1], id) then Some(n - 1) else None
  }

  predicate HasLabel(item: Item, setId: Id, name: string) {
    item.setId == setId && item.name == name
  }

  function FindLabel(items: seq<Item>, n: nat, setId: Id, name: string): (r: Option<nat>)
    requires n <= |items|
    ensures r.Some? ==> r.value < n && HasLabel(items[r.value], setId, name)
    ensures r.None? ==> forall i :: 0 <= i < n ==> !HasLabel(items[i], setId, name)
  {
    if n == 0 then None
    else match FindLabel(items, n - 1, setId, name)
      case Some(i) => Some(i)
      case None => if HasLabel(items[n - 1], setId, name) then Some(n - 1) else None
  }

  // ---------------------------------------------------------------------------
  // The set a list goes to
  // ---------------------------------------------------------------------------

  function NewBook(s: PlanSet): Book {
    Book(StableSet(s.registry, s.code), s.registry, s.code, s.name)
  }

  function BookFor(t: Target, s: PlanSet): Book {
    match FindBook(t.books, |t.books|, s.registry, s.code)
    case Some(i) => t.books[i]
    case None => NewBook(s)
  }

  /** The sets among the first `n` that the target does not have yet. */
  function NewBooks(t: Target, sets: seq<PlanSet>, n: nat): seq<Book>
    requires n <= |sets|
  {
    if n == 0 then []
    else NewBooks(t, sets, n - 1)
         + if FindBook(t.books, |t.books|, sets[n - 1].registry, sets[n - 1].code).None? then [NewBook(sets[n - 1])]
           else []
  }

  function MissingRegistries(t: Target, sets: seq<PlanSet>, n: nat): nat
    requires n <= |sets|
  {
    if n == 0 then 0
    else MissingRegistries(t, sets, n - 1) + if sets[n - 1].registry in t.registries then 0 else 1
  }

  /** `references[(database, table)]`, as the loop over the sets has filled it. */
  function SetOf(sets: seq<PlanSet>, n: nat, spec: Spec): (r: Option<nat>)
    requires n <= |sets|
    ensures r.Some? ==> r.value < n && sets[r.value].database == spec.database && sets[r.value].table == spec.table
    ensures r.None? ==> forall k :: 0 <= k < n ==> !Belongs(spec, sets[k])
  {
    if n == 0 then None
    else if sets[n - 1].database == spec.database && sets[n - 1].table == spec.table then Some(n - 1)
    else SetOf(sets, n - 1, spec)
  }

  /** A plan names the set of every item. */
  function SetId(t: Target, plan: Plan, spec: Spec): Id {
    match SetOf(plan.sets, |plan.sets|, spec)
    case Some(k) => BookFor(t, plan.sets[k]).id
    case None => StableSet(spec.registry, spec.code)
  }

  // ---------------------------------------------------------------------------
  // One item
  // ---------------------------------------------------------------------------

  const FLAG: string := "missing_source_label"

  function Merged(stored: map<string, string>, spec: Spec): map<string, string> {
    var previous := if spec.code in PEOPLE then stored - {"position", "department"} else stored;
    var merged := previous + spec.metadata;
    if FLAG in spec.metadata then merged else merged - {FLAG}
  }

  predicate Differs(item: Item, spec: Spec, metadata: map<string, string>) {
    item.fingerprint != Some(spec.fingerprint) || item.name != spec.name || item.active != spec.active
    || item.metadata != metadata
  }

  function Written(item: Item, spec: Spec, metadata: map<string, string>): Item {
    item.(name := spec.name, active := spec.active, metadata := metadata, sourceDatabase := Some(spec.database),
          sourceEntity := Some(spec.table), sourceId := Some(spec.sourceId), fingerprint := Some(spec.fingerprint))
  }

  function ItemId(spec: Spec): Id {
    StableItem(spec.database, spec.table, spec.sourceId)
  }

  function NewItem(spec: Spec, setId: Id): Item {
    Item(ItemId(spec), setId, "", true, map[], None, None, None, None)
  }

  predicate Truthy(text: Option<string>) {
    text.Some? && text.value != ""
  }

  predicate HasOrigin(item: Item) {
    Truthy(item.sourceDatabase) || Truthy(item.sourceEntity) || Truthy(item.sourceId)
  }

  /** What the validation keeps for the second pass: the stored row or a new one, and what to write. */
  datatype Prepared = Prepared(index: Option<nat>, before: Item, spec: Spec, metadata: map<string, string>,
                               creating: bool, adopted: bool, changed: bool)

  datatype Verdict = Refused(errors: nat) | Accepted(prepared: Prepared, errors: nat)

  function Prepare(index: Option<nat>, before: Item, spec: Spec, creating: bool, adopted: bool): Prepared {
    var metadata := Merged(before.metadata, spec);
    Prepared(index, before, spec, metadata, creating, adopted, creating || adopted || Differs(before, spec, metadata))
  }

  /** The label is taken by another item of the set. */
  predicate Collides(items: seq<Item>, setId: Id, spec: Spec, item: Option<nat>)
    requires item.Some? ==> item.value < |items|
  {
    match FindLabel(items, |items|, setId, spec.name)
    case None => false
    case Some(c) => item.None? || items[c].id != items[item.value].id
  }

  /** The checks of one planned item against the target, in their order. */
  function Examine(items: seq<Item>, setId: Id, spec: Spec): Verdict {
    var found := FindSource(items, |items|, spec);
    var renamed := if found.Some? && spec.adopt.Some? && items[found.value].id != spec.adopt.value then 1 else 0;
    var adopted := found.None? && spec.adopt.Some?;
    var item := if adopted then FindId(items, |items|, spec.adopt.value) else found;
    if adopted && (item.None? || HasOrigin(items[item.value])) then Refused(renamed + 1)
    else if item.Some? && items[item.value].setId != setId then Refused(renamed + 1)
    else if Collides(items, setId, spec, item) then Refused(renamed + 1)
    else if item.None? then
      if FindId(items, |items|, ItemId(spec)).Some? then Refused(renamed + 1)
      else Accepted(Prepare(None, NewItem(spec, setId), spec, true, false), renamed)
    else Accepted(Prepare(item, items[item.value], spec, false, adopted), renamed)
  }

  // ---------------------------------------------------------------------------
  // Both passes
  // ---------------------------------------------------------------------------

  datatype Counts = Counts(created: nat, updated: nat, kept: nat, adopted: nat)

  function Add(c: Counts, p: Prepared): Counts {
    if p.adopted then c.(adopted := c.adopted + 1)
    else if p.creating then c.(created := c.created + 1)
    else if p.changed then c.(updated := c.updated + 1)
    else c.(kept := c.kept + 1)
  }

  datatype Scan = Scan(errors: nat, counts: Counts, prepared: seq<Prepared>, selected: set<Id>)

  function ScanOne(t: Target, plan: Plan, s: Scan, spec: Spec): Scan {
    match Examine(t.items, SetId(t, plan, spec), spec)
    case Refused(errors) => s.(errors := s.errors + errors)
    case Accepted(p, errors) =>
      Scan(s.errors + errors + (if p.before.id in s.selected then 1 else 0), Add(s.counts, p), s.prepared + [p],
           s.selected + {p.before.id})
  }

  /** The validation of the first `n` items. */
  function ScanAll(t: Target, plan: Plan, n: nat): Scan
    requires n <= |plan.items|
  {
    if n == 0 then Scan(0, Counts(0, 0, 0, 0), [], {}) else ScanOne(t, plan, ScanAll(t, plan, n - 1), plan.items[n - 1])
  }

  function ApplyOne(items: seq<Item>, p: Prepared): seq<Item> {
    if !p.changed then items
    else if p.index.Some? && p.index.value < |items| then
      items[p.index.value := Written(p.before, p.spec, p.metadata)]
    else items + [Written(p.before, p.spec, p.metadata)]
  }

  function ApplyAll(items: seq<Item>, prepared: seq<Prepared>, n: nat): seq<Item>
    requires n <= |prepared|
  {
    if n == 0 then items else ApplyOne(ApplyAll(items, prepared, n - 1), prepared[n - 1])
  }

  datatype Failure = Invalid(errors: nat) | Integrity

  datatype Report = Report(newSets: nat, counts: Counts)

  /** A new set would take the id of an existing one, which the primary key refuses. */
  predicate Clashes(books: seq<Book>, added: seq<Book>) {
    exists i, j :: 0 <= i < |books| && 0 <= j < |added| && books[i].id == added[j].id
  }

  function Errors(t: Target, plan: Plan): nat {
    MissingRegistries(t, plan.sets, |plan.sets|) + ScanAll(t, plan, |plan.items|).errors
  }

  function Applied(t: Target, plan: Plan): Target {
    var scan := ScanAll(t, plan, |plan.items|);
    t.(books := t.books + NewBooks(t, plan.sets, |plan.sets|),
       items := ApplyAll(t.items, scan.prepared, |scan.prepared|))
  }

  /** The result of the call and the target it leaves. */
  function TargetRun(t: Target, plan: Plan, apply: bool): (Result<Report, Failure>, Target) {
    var added := NewBooks(t, plan.sets, |plan.sets|);
    if Errors(t, plan) > 0 then (Err(Invalid(Errors(t, plan))), t)
    else if apply && Clashes(t.books, added) then (Err(Integrity), t)
    else (Ok(Report(|added|, ScanAll(t, plan, |plan.items|).counts)), if apply then Applied(t, plan) else t)
  }

  /** The tables, and `target_plan` as it runs over them. */
  class ReferenceTables {
    var registries: set<Id>
    var books: seq<Book>
    var items: seq<Item>

    constructor (registries: set<Id>, books: seq<Book>, items: seq<Item>)
      ensures Stored() == Target(registries, books, items)
    {
      this.registries, this.books, this.items := registries, books, items;
    }

    ghost function Stored(): Target
      reads this
    {
      Target(registries, books, items)
    }

    /** The loop over the sets: missing registries are counted and missing sets collected. */
    method PrepareSets(sets: seq<PlanSet>) returns (added: seq<Book>, errors: nat)
      ensures added == NewBooks(Stored(), sets, |sets|)
      ensures errors == MissingRegistries(Stored(), sets, |sets|)
    {
      added, errors := [], 0;
      var n := 0;
      while n < |sets|
        invariant 0 <= n <= |sets|
        invariant added == NewBooks(Stored(), sets, n) && errors == MissingRegistries(Stored(), sets, n)
      {
        if sets[n].registry !in registries {
          errors := errors + 1;
        }
        if FindBook(books, |books|, sets[n].registry, sets[n].code).None? {
          added := added + [NewBook(sets[n])];
        }
        n := n + 1;
      }
    }

    /** The body of the item loop up to the point where an item is refused or prepared. */
    method ExamineItem(setId: Id, spec: Spec) returns (v: Verdict)
      ensures v == Examine(items, setId, spec)
    {
      var errors: nat := 0;
      var item := FindSource(items, |items|, spec);
      if item.Some? && spec.adopt.Some? && items[item.value].id != spec.adopt.value {
        errors := errors + 1;
      }
      var adopted := false;
      if item.None? && spec.adopt.Some? {
        item := FindId(items, |items|, spec.adopt.value);
        if item.None? || HasOrigin(items[item.value]) {
          return Refused(errors + 1);
        }
        adopted := true;
      }
      if item.Some? && items[item.value].setId != setId {
        return Refused(errors + 1);
      }
      var collision := FindLabel(items, |items|, setId, spec.name);
      if collision.Some? && (item.None? || items[collision.value].id != items[item.value].id) {
        return Refused(errors + 1);
      }
      if item.None? {
        if FindId(items, |items|, ItemId(spec)).Some? {
          return Refused(errors + 1);
        }
        return Accepted(Prepare(None, NewItem(spec, setId), spec, true, false), errors);
      }
      return Accepted(Prepare(item, items[item.value], spec, false, adopted), errors);
    }

    /** The item loop. */
    method PrepareItems(plan: Plan) returns (scan: Scan)
      ensures scan == ScanAll(Stored(), plan, |plan.items|)
    {
      hide Examine, Add;
      var errors: nat := 0;
      var counts, prepared := Counts(0, 0, 0, 0), [];
      var selected: set<Id> := {};
      var n := 0;
      while n < |plan.items|
        invariant 0 <= n <= |plan.items|
        invariant Scan(errors, counts, prepared, selected) == ScanAll(Stored(), plan, n)
      {
        var spec := plan.items[n];
        var v := ExamineItem(SetId(Target(registries, books, items), plan, spec), spec);
        n := n + 1;
        errors := errors + v.errors;
        if v.Refused? {
          continue;
        }
        var item := v.prepared.before;
        if item.id in selected {
          errors := errors + 1;
        }
        selected := selected + {item.id};
        counts := Add(counts, v.prepared);
        prepared := prepared + [v.prepared];
      }
      scan := Scan(errors, counts, prepared, selected);
    }

    /** The second pass: write what changed. */
    method WriteItems(prepared: seq<Prepared>)
      modifies `items
      ensures items == ApplyAll(old(items), prepared, |prepared|)
    {
      hide Written;
      var n := 0;
      while n < |prepared|
        invariant 0 <= n <= |prepared|
        invariant items == ApplyAll(old(items), prepared, n)
      {
        var p := prepared[n];
        n := n + 1;
        if !p.changed {
          continue;
        }
        var item := Written(p.before, p.spec, p.metadata);
        if p.index.Some? && p.index.value < |items| {
          items := items[p.index.value := item];
        } else {
          items := items + [item];
        }
      }
    }

    /** `target_plan`: validate everything, then change the target, or leave it as it is. */
    method TargetPlan(plan: Plan, apply: bool) returns (r: Result<Report, Failure>)
      modifies this
      ensures (r, Stored()) == TargetRun(old(Stored()), plan, apply)
      ensures r.Err? || !apply ==> Stored() == old(Stored())
    {
      hide ScanAll, NewBooks, MissingRegistries, ApplyAll;
      var added, missing := PrepareSets(plan.sets);
      var scan := PrepareItems(plan);
      if missing + scan.errors > 0 {
        return Err(Invalid(missing + scan.errors));
      }
      if apply {
        if Clashes(books, added) {
          return Err(Integrity);
        }
        books := books + added;
        WriteItems(scan.prepared);
      }
      return Ok(Report(|added|, scan.counts));
    }
  }
}
