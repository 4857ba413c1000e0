/**
 Turning a private snapshot of two source databases into an import plan: every row is checked, all
 errors are counted, and a plan exists only if there are none.
 */
module ImportPlan {
  import opened Prelude
  import opened NumberFormat

  const MAX_LENGTH: nat := 255

  /** A UUID: one that `uuid5` derives for an item or for a set, or any other. */
  datatype Id =
    | StableItem(database: string, table: string, sourceId: string)
    | StableSet(registry: Id, code: string)
    | Other(number: nat)

  /** The ten lists in the order they are read: the source table and the code of the target set. */
  datatype List = List(table: string, code: string, name: string)

  const LISTS: seq<List> := [
    List("dbo.ref_status", "status", "Статусы"),
    List("dbo.ref_document_types", "document_types", "Типы документов"),
    List("dbo.ref_signing_types", "signing_types", "Типы подписания"),
    List("dbo.ref_document_kinds", "document_kinds", "Виды документов"),
    List("dbo.ref_published_where", "published_where", "Места публикации"),
    List("dbo.ref_executors", "executors", "Исполнители"),
    List("dbo.ref_responsible_executors", "responsible_executors", "Ответственные исполнители"),
    List("dbo.ref_themes", "themes", "Темы"),
    List("dbo.ref_signers", "signers", "Подписанты"),
    List("dbo.ref_approvers", "approvers", "Согласующие")]

  const PEOPLE: set<string> := {"executors", "responsible_executors", "signers", "approvers"}

  /** Fields of a source row may hold anything; `Unusable` shows what `str` makes of the rest. */
  datatype RawId = Number(n: int) | Text(s: string) | Unusable(shown: string)

  datatype RawActive = NoActive | Flag(b: bool) | Integer(i: int) | OtherActive

  datatype RawText = NoText | Words(s: string) | OtherText

  /** `fingerprint` is the hash of the attributes, `derived` the text of the row's own `uuid5`. */
  datatype RawRow =
    | NotARow
    | RawRow(id: RawId, name: Option<string>, active: RawActive, position: RawText, department: RawText,
             attributes: string, fingerprint: string, derived: string, encodable: bool)

  datatype RawAdoption = NoAdoption | AdoptId(id: Id) | BadId

  /** Where the rows of one list come from and go to. */
  datatype Context = Context(database: string, table: string, code: string, registry: Id)

  datatype Spec = Spec(registry: Id, code: string, database: string, table: string, sourceId: string,
                       name: string, active: bool, metadata: map<string, string>, fingerprint: string,
                       adopt: Option<Id>)

  // ---------------------------------------------------------------------------
  // One row
  // ---------------------------------------------------------------------------

  function SourceId(id: RawId): string {
    match id
    case Number(n) => if n < 0 then "-" + Decimal(-n) else Decimal(n)
    case Text(s) => s
    case Unusable(shown) => shown
  }

  predicate IdOk(id: RawId) {
    !id.Unusable? && 1 <= |SourceId(id)| <= MAX_LENGTH
  }

  function MissingLabel(c: Context, sourceId: string, derived: string): string {
    var entity := if "dbo." <= c.table then c.table[4..] else c.table;
    var text := "Без наименования [" + c.database + "/" + entity + "/" + sourceId + "]";
    if |text| > MAX_LENGTH then "Без наименования [" + c.database + "/" + entity + "/" + derived + "]" else text
  }

  function LabelOf(c: Context, row: RawRow): Option<string>
    requires row.RawRow?
  {
    if row.name == Some("") then Some(MissingLabel(c, SourceId(row.id), row.derived)) else row.name
  }

  predicate LabelOk(name: Option<string>) {
    name.Some? && !Blank(name.value) && |name.value| <= MAX_LENGTH && '\0' !in name.value
  }

  predicate ActiveOk(active: RawActive) {
    active.NoActive? || active.Flag? || (active.Integer? && (active.i == 0 || active.i == 1))
  }

  predicate TextOk(text: RawText) {
    text.NoText? || (text.Words? && |text.s| <= MAX_LENGTH && '\0' !in text.s)
  }

  function AdoptionOf(adoption: map<string, RawAdoption>, sourceId: string): RawAdoption {
    if sourceId in adoption then adoption[sourceId] else NoAdoption
  }

  /** The checks a row passes or fails by itself. */
  predicate RowShaped(c: Context, row: RawRow, adoption: map<string, RawAdoption>) {
    && row.RawRow?
    && IdOk(row.id)
    && LabelOk(LabelOf(c, row))
    && ActiveOk(row.active)
    && (c.code in PEOPLE ==> TextOk(row.position) && TextOk(row.department))
    && row.encodable
    && !AdoptionOf(adoption, SourceId(row.id)).BadId?
  }

  function WithText(metadata: map<string, string>, key: string, text: RawText): map<string, string> {
    if text.Words? then metadata[key := text.s] else metadata
  }

  function MetadataOf(c: Context, row: RawRow): map<string, string>
    requires row.RawRow?
  {
    var raw := map["source_attributes" := row.attributes];
    var flagged := if row.name == Some("") then raw["missing_source_label" := "true"] else raw;
    if c.code in PEOPLE then WithText(WithText(flagged, "position", row.position), "department", row.department)
    else flagged
  }

  function SpecOf(c: Context, row: RawRow, adoption: map<string, RawAdoption>): Spec
    requires RowShaped(c, row, adoption)
  {
    var adopt := AdoptionOf(adoption, SourceId(row.id));
    Spec(c.registry, c.code, c.database, c.table, SourceId(row.id), LabelOf(c, row).value,
         match row.active case NoActive => true case Flag(b) => b case Integer(i) => i == 1 case OtherActive => false,
         MetadataOf(c, row), row.fingerprint, if adopt.AdoptId? then Some(adopt.id) else None)
  }

  // ---------------------------------------------------------------------------
  // The rows of one list
  // ---------------------------------------------------------------------------

  ghost predicate Clash(c: Context, rows: seq<RawRow>, i: nat, j: nat)
    requires i < |rows| && j < |rows| && rows[i].RawRow? && rows[j].RawRow?
  {
    SourceId(rows[i].id) == SourceId(rows[j].id) || LabelOf(c, rows[i]) == LabelOf(c, rows[j])
  }

  /** Every one of the first `n` rows is usable, and no two share an id or a label. */
  ghost predicate RowsOk(c: Context, rows: seq<RawRow>, n: nat, adoption: map<string, RawAdoption>)
    requires n <= |rows|
  {
    && (forall i :: 0 <= i < n ==> RowShaped(c, rows[i], adoption))
    && (forall i, j :: 0 <= i < j < n && rows[i].RawRow? && rows[j].RawRow? ==> !Clash(c, rows, i, j))
  }

  ghost predicate IsSourceId(rows: seq<RawRow>, id: string) {
    exists i :: 0 <= i < |rows| && rows[i].RawRow? && SourceId(rows[i].id) == id
  }

  function Specs(c: Context, rows: seq<RawRow>, n: nat, adoption: map<string, RawAdoption>): seq<Spec>
    requires n <= |rows| && forall i :: 0 <= i < n ==> RowShaped(c, rows[i], adoption)
  {
    if n == 0 then [] else Specs(c, rows, n - 1, adoption) + [SpecOf(c, rows[n - 1], adoption)]
  }

  /** What the loop has collected: the ids of all rows and the labels of those with a usable one. */
  ghost predicate Collected(c: Context, rows: seq<RawRow>, n: nat, ids: set<string>, names: set<string>)
    requires n <= |rows|
  {
    && (forall x :: x in ids <==> exists i :: 0 <= i < n && rows[i].RawRow? && SourceId(rows[i].id) == x)
    && (forall x :: x in names <==> exists i :: 0 <= i < n && Named(c, rows[i], x))
  }

  ghost predicate Named(c: Context, row: RawRow, x: string) {
    row.RawRow? && LabelOf(c, row) == Some(x) && LabelOk(Some(x))
  }

  lemma {:induction false} CollectedStep(c: Context, rows: seq<RawRow>, n: nat, ids: set<string>, names: set<string>,
                                         adoption: map<string, RawAdoption>)
    requires n < |rows| && Collected(c, rows, n, ids, names) && rows[n].RawRow?
    ensures var name := LabelOf(c, rows[n]);
            Collected(c, rows, n + 1, ids + {SourceId(rows[n].id)},
                      if LabelOk(name) then names + {name.value} else names)
    ensures RowsOk(c, rows, n + 1, adoption)
       <==> RowsOk(c, rows, n, adoption) && RowShaped(c, rows[n], adoption)
            && SourceId(rows[n].id) !in ids && LabelOf(c, rows[n]).value !in names
  {
    hide LabelOf, LabelOk, SourceId;
    var id, name := SourceId(rows[n].id), LabelOf(c, rows[n]);
    LabelOkSome(name);
    var names' := if LabelOk(name) then names + {name.value} else names;
    forall x ensures x in ids + {id} <==> exists i :: 0 <= i < n + 1 && rows[i].RawRow? && SourceId(rows[i].id) == x {
      if x == id {
        assert rows[n].RawRow? && SourceId(rows[n].id) == x;
      }
    }
    forall x ensures x in names' <==> exists i :: 0 <= i < n + 1 && Named(c, rows[i], x) {
      assert Named(c, rows[n], x) <==> LabelOk(name) && name == Some(x);
      if x in names' && x !in names {
        assert Named(c, rows[n], x);
      }
    }
    NoClash(c, rows, n, ids, names, adoption);
  }

  lemma {:induction false} LabelOkSome(name: Option<string>)
    ensures LabelOk(name) ==> name.Some?
  {
  }

  lemma {:induction false} NoClash(c: Context, rows: seq<RawRow>, n: nat, ids: set<string>, names: set<string>,
                                   adoption: map<string, RawAdoption>)
    requires n < |rows| && Collected(c, rows, n, ids, names) && rows[n].RawRow?
    ensures RowsOk(c, rows, n + 1, adoption)
       <==> RowsOk(c, rows, n, adoption) && RowShaped(c, rows[n], adoption)
            && SourceId(rows[n].id) !in ids && LabelOf(c, rows[n]).value !in names
  {
  }

  lemma {:induction false} ShapedIsNamed(c: Context, row: RawRow, adoption: map<string, RawAdoption>)
    requires RowShaped(c, row, adoption)
    ensures row.RawRow? && LabelOf(c, row).Some? && Named(c, row, LabelOf(c, row).value)
  {
  }

  // ---------------------------------------------------------------------------
  // The row loop
  // ---------------------------------------------------------------------------

  /** The checks of one row, in the order they are made; each failure counts. */
  method CheckRow(c: Context, row: RawRow, adoption: map<string, RawAdoption>, ids: set<string>, names: set<string>)
    returns (errors: nat)
    requires row.RawRow?
    ensures errors == 0 <==> RowShaped(c, row, adoption) && SourceId(row.id) !in ids && LabelOf(c, row).value !in names
  {
    errors := 0;
    if row.id.Unusable? || SourceId(row.id) == "" || |SourceId(row.id)| > MAX_LENGTH {
      errors := errors + 1;
    }
    if SourceId(row.id) in ids {
      errors := errors + 1;
    }
    var name := LabelOf(c, row);
    if !LabelOk(name) {
      errors := errors + 1;
    } else if name.value in names {
      errors := errors + 1;
    }
    if !ActiveOk(row.active) {
      errors := errors + 1;
    }
    if c.code in PEOPLE {
      if !TextOk(row.position) {
        errors := errors + 1;
      }
      if !TextOk(row.department) {
        errors := errors + 1;
      }
    }
    if !row.encodable {
      errors := errors + 1;
    }
    if AdoptionOf(adoption, SourceId(row.id)).BadId? {
      errors := errors + 1;
    }
  }

  /** What the row loop knows after `n` rows. */
  ghost predicate Planned(c: Context, rows: seq<RawRow>, n: nat, adoption: map<string, RawAdoption>,
                          ids: set<string>, names: set<string>, items: seq<Spec>, errors: nat)
    requires n <= |rows|
  {
    && Collected(c, rows, n, ids, names)
    && (errors == 0 <==> RowsOk(c, rows, n, adoption))
    && (RowsOk(c, rows, n, adoption) ==> items == Specs(c, rows, n, adoption))
  }

  lemma {:induction false} PlannedStart(c: Context, rows: seq<RawRow>, adoption: map<string, RawAdoption>)
    ensures Planned(c, rows, 0, adoption, {}, {}, [], 0)
  {
  }

  lemma {:induction false} PlannedSkip(c: Context, rows: seq<RawRow>, n: nat, adoption: map<string, RawAdoption>,
                                       ids: set<string>, names: set<string>, items: seq<Spec>, errors: nat)
    requires n < |rows| && rows[n].NotARow? && Planned(c, rows, n, adoption, ids, names, items, errors)
    ensures Planned(c, rows, n + 1, adoption, ids, names, items, errors + 1)
  {
  }

  lemma {:induction false} PlannedTake(c: Context, rows: seq<RawRow>, n: nat, adoption: map<string, RawAdoption>,
                                       ids: set<string>, names: set<string>, items: seq<Spec>, errors: nat, failed: nat)
    requires n < |rows| && rows[n].RawRow? && Planned(c, rows, n, adoption, ids, names, items, errors)
    requires failed == 0 <==> RowShaped(c, rows[n], adoption) && SourceId(rows[n].id) !in ids
                              && LabelOf(c, rows[n]).value !in names
    ensures var name := LabelOf(c, rows[n]);
            Planned(c, rows, n + 1, adoption, ids + {SourceId(rows[n].id)},
                    if LabelOk(name) then names + {name.value} else names,
                    if failed == 0 then items + [SpecOf(c, rows[n], adoption)] else items, errors + failed)
  {
    CollectedStep(c, rows, n, ids, names, adoption);
    if RowsOk(c, rows, n + 1, adoption) {
      assert forall i :: 0 <= i < n + 1 ==> RowShaped(c, rows[i], adoption);
      hide Collected, RowsOk, RowShaped, LabelOf, LabelOk, SourceId, SpecOf;
      SpecsStep(c, rows, n, adoption);
    }
  }

  /** One list: its rows become specs one for one, or something is counted. */
  method PlanRows(c: Context, rows: seq<RawRow>, adoption: map<string, RawAdoption>)
    returns (items: seq<Spec>, errors: nat)
    ensures errors == 0 <==> ListOk(c, rows, adoption)
    ensures errors == 0 ==> items == Specs(c, rows, |rows|, adoption)
  {
    hide Planned, RowShaped, LabelOf, LabelOk, SourceId, SpecOf, Specs, RowsOk;
    items, errors := [], 0;
    var ids: set<string>, names: set<string> := {}, {};
    PlannedStart(c, rows, adoption);
    var n := 0;
    while n < |rows|
      invariant 0 <= n <= |rows|
      invariant Planned(c, rows, n, adoption, ids, names, items, errors)
    {
      var row := rows[n];
      if row.NotARow? {
        PlannedSkip(c, rows, n, adoption, ids, names, items, errors);
        errors := errors + 1;
      } else {
        var failed := CheckRow(c, row, adoption, ids, names);
        PlannedTake(c, rows, n, adoption, ids, names, items, errors, failed);
        var name := LabelOf(c, row);
        LabelOkSome(name);
        ids := ids + {SourceId(row.id)};
        if LabelOk(name) {
          names := names + {name.value};
        }
        errors := errors + failed;
        if failed == 0 {
          items := items + [SpecOf(c, row, adoption)];
        }
      }
      n := n + 1;
    }
    PlannedEnd(c, rows, adoption, ids, names, items, errors);
    var unused := adoption.Keys - ids;
    errors := errors + |unused|;
  }

  lemma {:induction false} PlannedEnd(c: Context, rows: seq<RawRow>, adoption: map<string, RawAdoption>,
                                      ids: set<string>, names: set<string>, items: seq<Spec>, errors: nat)
    requires Planned(c, rows, |rows|, adoption, ids, names, items, errors)
    ensures errors + |adoption.Keys - ids| == 0 <==> ListOk(c, rows, adoption)
    ensures ListOk(c, rows, adoption) ==>
              && (forall i :: 0 <= i < |rows| ==> RowShaped(c, rows[i], adoption))
              && items == Specs(c, rows, |rows|, adoption)
  {
    hide Collected, RowsOk, IsSourceId, Specs, RowShaped;
    CollectedIds(c, rows, ids, names, adoption);
  }

  /** The rows of a list are fine, and every adoption belongs to one of them. */
  ghost predicate ListOk(c: Context, rows: seq<RawRow>, adoption: map<string, RawAdoption>) {
    RowsOk(c, rows, |rows|, adoption) && forall id :: id in adoption ==> IsSourceId(rows, id)
  }

  lemma {:induction false} SpecsStep(c: Context, rows: seq<RawRow>, n: nat, adoption: map<string, RawAdoption>)
    requires n < |rows|
    ensures (forall i :: 0 <= i < n + 1 ==> RowShaped(c, rows[i], adoption)) ==>
              Specs(c, rows, n + 1, adoption) == Specs(c, rows, n, adoption) + [SpecOf(c, rows[n], adoption)]
  {
  }

  lemma {:induction false} CollectedIds(c: Context, rows: seq<RawRow>, ids: set<string>, names: set<string>,
                                        adoption: map<string, RawAdoption>)
    requires Collected(c, rows, |rows|, ids, names)
    ensures |adoption.Keys - ids| == 0 <==> forall id :: id in adoption ==> IsSourceId(rows, id)
    ensures RowsOk(c, rows, |rows|, adoption) ==> forall i :: 0 <= i < |rows| ==> RowShaped(c, rows[i], adoption)
  {
    hide SourceId, RowShaped;
    forall id ensures id in ids <==> IsSourceId(rows, id) {
    }
    if |adoption.Keys - ids| == 0 {
      assert adoption.Keys - ids == {};
      forall id | id in adoption ensures id in ids {
        assert id in adoption.Keys && id !in adoption.Keys - ids;
      }
    } else {
      var id :| id in adoption.Keys - ids;
      assert id in adoption && !IsSourceId(rows, id);
    }
  }
}
