/**
 The approved report between the dry run and the apply step: written as CSV, read back, and then the same plan
 (scripts/categorise-products.ts).
 */
module ApprovedReport {
  import opened Text
  import opened Catalogue
  import Categorisation
  import AppliedTables
  import Csv

  /** The rows of a dry run: one for each live product, in the order it was read, with the category proposed for it. */
  function DryRun(db: Db, order: seq<Id>, propose: Id -> (string, string)): seq<Row>
    requires forall p :: p in order ==> p in db.products && db.products[p].category in db.categories
  {
    seq(|order|, i requires 0 <= i < |order| =>
      var c := db.products[order[i]].category;
      Row(order[i], c, db.categories[c].name, propose(order[i]).0, propose(order[i]).1))
  }

  ghost predicate ListsLive(db: Db, order: seq<Id>) {
    && (forall i, j :: 0 <= i < j < |order| ==> order[i] != order[j])
    && (forall p :: p in order <==> p in db.products && db.products[p].live)
  }

  ghost predicate GoodProposals(order: seq<Id>, propose: Id -> (string, string)) {
    forall p :: p in order ==> Trim(propose(p).0) == propose(p).0 && propose(p).0 != ""
  }

  function RowOf(record: Csv.ReportRow): Row {
    Row(Csv.Get(record, "product_id"), Csv.Get(record, "old_category_id"), Csv.Get(record, "old_category"),
        Csv.Get(record, "proposed_category"), Csv.Get(record, "proposed_subcategory"))
  }

  function RowsOf(records: seq<Csv.ReportRow>): seq<Row> {
    seq(|records|, i requires 0 <= i < |records| => RowOf(records[i]))
  }

  /** A record of the report says this of a row: each column under its own name, whatever the other columns hold. */
  predicate Says(record: Csv.ReportRow, r: Row) {
    && "product_id" in record && record["product_id"] == r.product
    && "old_category_id" in record && record["old_category_id"] == r.oldCategoryId
    && "old_category" in record && record["old_category"] == r.oldCategory
    && "proposed_category" in record && record["proposed_category"] == r.proposed
    && "proposed_subcategory" in record && record["proposed_subcategory"] == r.proposedSub
  }

  predicate ReportOf(records: seq<Csv.ReportRow>, rows: seq<Row>) {
    |records| == |rows| && forall i :: 0 <= i < |rows| ==> Says(records[i], rows[i])
  }

  lemma ReadsWhatItSays(records: seq<Csv.ReportRow>, rows: seq<Row>)
    requires ReportOf(records, rows)
    ensures RowsOf(records) == rows
  {
    forall i | 0 <= i < |rows| ensures RowOf(records[i]) == rows[i] {
      assert Says(records[i], rows[i]);
    }
  }

  /* ---- the report survives the file ---- */

  lemma NamedInIt(record: Csv.ReportRow)
    requires !Blank(Csv.Get(record, "product_id"))
    ensures Csv.SomeCell(Csv.Cells(record))
  {
    hide Blank;
    assert Csv.CSV_COLUMNS[0] == "product_id";
    assert Csv.Cells(record)[0] == Csv.Get(record, "product_id");
  }

  lemma CompleteReads(record: Csv.ReportRow)
    ensures RowOf(Csv.Complete(record)) == RowOf(record)
  {
    var c := Csv.CSV_COLUMNS;
    assert c[0] == "product_id" && c[5] == "old_category_id" && c[6] == "old_category";
    assert c[8] == "proposed_category" && c[9] == "proposed_subcategory";
    assert c[0] in c && c[5] in c && c[6] in c && c[8] in c && c[9] in c;
  }

  lemma {:induction false} KeptRows(records: seq<Csv.ReportRow>)
    requires forall record :: record in records ==> !Blank(RowOf(record).product)
    ensures RowsOf(Csv.Kept(records)) == RowsOf(records)
  {
    hide RowOf, Csv.Complete, Csv.CSV_COLUMNS, Csv.SomeCell, Csv.Cells, Csv.Get, Blank;
    if records != [] {
      assert records[0] in records && forall record :: record in records[1..] ==> record in records;
      FirstIsKept(records);
      hide Csv.Kept, RowsOf;
      CompleteReads(records[0]);
      KeptRows(records[1..]);
      assert records == [records[0]] + records[1..];
      RowsPlus(records[0], records[1..]);
      RowsPlus(Csv.Complete(records[0]), Csv.Kept(records[1..]));
    }
  }

  lemma RowsPlus(record: Csv.ReportRow, rest: seq<Csv.ReportRow>)
    ensures RowsOf([record] + rest) == [RowOf(record)] + RowsOf(rest)
  {
    hide RowOf;
  }

  lemma FirstIsKept(records: seq<Csv.ReportRow>)
    requires records != [] && !Blank(RowOf(records[0]).product)
    ensures Csv.Kept(records) == [Csv.Complete(records[0])] + Csv.Kept(records[1..])
  {
    NamedInIt(records[0]);
    hide Csv.Complete, Csv.Cells, Csv.SomeCell, Csv.CSV_COLUMNS;
  }

  /** The rows the apply step reads are the rows that were written, whatever text their cells hold. */
  lemma ReportSurvives(records: seq<Csv.ReportRow>)
    requires forall record :: record in records ==> !Blank(RowOf(record).product)
    ensures Csv.Parse(Csv.ToCsv(records)).Some?
    ensures RowsOf(Csv.Parse(Csv.ToCsv(records)).value) == RowsOf(records)
  {
    Csv.RoundTrip(records);
    KeptRows(records);
  }

  /* ---- and is what the dry run said ---- */

  lemma NotBlank(s: string)
    requires Trim(s) == s && s != ""
    ensures !Blank(s)
  {
  }

  lemma DryRunIsApprovable(db: Db, order: seq<Id>, propose: Id -> (string, string))
    requires References(db) && ListsLive(db, order) && GoodProposals(order, propose)
    ensures (forall p :: p in order ==> p in db.products && db.products[p].category in db.categories)
    ensures Approvable(db, DryRun(db, order, propose)) && Categorisation.FromDryRun(db, DryRun(db, order, propose))
  {
    var rows := DryRun(db, order, propose);
    forall r | r in rows ensures !Blank(r.proposed) {
      NotBlank(r.proposed);
    }
    hide Blank, Trim;
    forall p | p in db.products && db.products[p].live ensures exists r :: r in rows && r.product == p {
      var i :| 0 <= i < |order| && order[i] == p;
      assert rows[i].product == p;
    }
  }

  /**
   From dry run to apply on unchanged tables: the report is read back as written, the apply step accepts it as long as
   there is a General category, it retires exactly the categories the dry run announced, and its moves in batches of
   500 come to one simultaneous update.
   */
  lemma ApprovedPlanIsThePlan(env: Env, db: Db, order: seq<Id>, propose: Id -> (string, string),
      report: seq<Csv.ReportRow>)
    requires GoodEnv(env) && UniqueNames(env, db.categories) && References(db)
    requires ListsLive(db, order) && GoodProposals(order, propose) && forall p :: p in order ==> !Blank(p)
    requires forall p :: p in order ==> p in db.products && db.products[p].category in db.categories
    requires ReportOf(report, DryRun(db, order, propose))
    ensures Csv.Parse(Csv.ToCsv(report)).Some?
    ensures var rows := RowsOf(Csv.Parse(Csv.ToCsv(report)).value);
            && rows == DryRun(db, order, propose)
            && (Applied(env, db, rows).Some? <==> HasGeneral(db.categories))
            && (Applied(env, db, rows).Some? ==>
               AppliedTables.RetiresAnnounced(env, db, rows, Applied(env, db, rows).value))
            && TraceOf(env, db, rows).products == Categorisation.MovedAtOnce(db.products, TraceOf(env, db, rows).moves)
  {
    var rows := DryRun(db, order, propose);
    ReadsWhatItSays(report, rows);
    forall record | record in report ensures !Blank(RowOf(record).product) {
      var i :| 0 <= i < |report| && report[i] == record;
      assert RowsOf(report)[i] == rows[i];
    }
    ReportSurvives(report);
    DryRunIsApprovable(db, order, propose);
    Categorisation.LastCheckNeverFails(env, db, rows);
    if Applied(env, db, rows).Some? {
      AppliedTables.AnnouncedIsRetired(env, db, rows);
    }
    hide Applied, TraceOf, AppliedTables.RetiresAnnounced, References;
    OneMoveEach(env, db, order, propose);
  }

  lemma OneMoveEach(env: Env, db: Db, order: seq<Id>, propose: Id -> (string, string))
    requires GoodEnv(env) && References(db) && ListsLive(db, order)
    requires forall p :: p in order ==> p in db.products && db.products[p].category in db.categories
    ensures var t := TraceOf(env, db, DryRun(db, order, propose));
              t.products == Categorisation.MovedAtOnce(db.products, t.moves)
  {
    var rows := DryRun(db, order, propose);
    var t := TraceOf(env, db, rows);
    assert t.moves == Moves(env, t.naming.byName, t.subs.ids, rows);
    assert t.products == UpdatedInBatches(env, db.products, t.moves);
    forall i, j | 0 <= i < j < |rows| ensures rows[i].product != rows[j].product {
      assert rows[i].product == order[i] && rows[j].product == order[j];
    }
    hide TraceOf, DryRun, References, Moves, UpdatedInBatches, Categorisation.MovedAtOnce;
    Categorisation.MovesApart(env, t.naming.byName, t.subs.ids, rows);
    Categorisation.BatchesAreOneUpdate(env, db.products, t.moves);
  }
}
