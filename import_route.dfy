/** The import route: an uploaded CSV file is checked (present, named `.csv`,
    free of errors), then each accepted row is created unless a product of
    that name is already stored, counting the rows added and the rows skipped.
    Import writes no inventory-history entry. */
module ImportRoute {
  import opened Common
  import opened Strings
  import opened ProductModel
  import opened Database
  import opened CsvUtils

  /** The `file` field of the form: its name and what the CSV reader made of its text. */
  datatype UploadedFile = UploadedFile(name: string, contents: ParseOutput)

  /** A skipped row and why it was skipped. */
  datatype Duplicate = Duplicate(product: CsvProduct, reason: string)

  /** 200 with the counters, or 400 with a message and the parse errors. */
  datatype ImportResponse =
    | Imported(added: nat, skipped: nat, duplicates: seq<Duplicate>)
    | Rejected(error: string, details: seq<string>)

  const NoFileMessage := "Please select a CSV file to import"
  const NotCsvMessage := "Please select a valid CSV file. Only .csv files are supported."
  const FileErrorsMessage := "CSV file contains errors. Please check the file format and try again."
  const NameExistsReason := "Product name already exists"
  const ValidationErrorReason := "Validation error"

  // ---------------------------------------------------------------- the plan of a batch

  /** Some row of the list has this name. */
  predicate NameIn(rows: seq<CsvProduct>, name: string)
  {
    exists k :: 0 <= k < |rows| && rows[k].name == name
  }

  /** Which rows a batch adds and which it skips, given the products stored
      before it: a row is skipped when its name is stored, or was added by an
      earlier row of the same batch. */
  datatype Plan = Plan(added: seq<CsvProduct>, skipped: seq<CsvProduct>)

  /** The plan of the first n rows: every one of them is either added or skipped. */
  function PlanOf(existing: seq<Product>, rows: seq<CsvProduct>, n: nat): (plan: Plan)
    requires n <= |rows|
    ensures |plan.added| + |plan.skipped| == n
    decreases n
  {
    if n == 0 then Plan([], [])
    else Advance(existing, PlanOf(existing, rows, n - 1), rows[n - 1])
  }

  /** The plan of a whole batch. */
  function ImportPlan(existing: seq<Product>, rows: seq<CsvProduct>): (plan: Plan)
    ensures |plan.added| + |plan.skipped| == |rows|
  {
    PlanOf(existing, rows, |rows|)
  }

  /** The plan after one more row. */
  function Advance(existing: seq<Product>, plan: Plan, row: CsvProduct): (next: Plan)
    ensures (next.added == plan.added + [row] && next.skipped == plan.skipped) ||
            (next.skipped == plan.skipped + [row] && next.added == plan.added)
    ensures next.added != plan.added <==> !NameTaken(existing, row.name) && !NameIn(plan.added, row.name)
  {
    if NameTaken(existing, row.name) || NameIn(plan.added, row.name) then plan.(skipped := plan.skipped + [row])
    else plan.(added := plan.added + [row])
  }

  /** The skipped rows of a plan with the reason the loop records. */
  function Duplicates(skipped: seq<CsvProduct>): (d: seq<Duplicate>)
    ensures |d| == |skipped|
    ensures forall k :: 0 <= k < |d| ==> d[k].product == skipped[k] && d[k].reason == NameExistsReason
  {
    seq(|skipped|, k requires 0 <= k < |skipped| => Duplicate(skipped[k], NameExistsReason))
  }

  /** The product saving a row creates, with identifier `id` and timestamps
      `time`; its status is derived from the stock. */
  function NewProduct(row: CsvProduct, id: nat, time: nat): (p: Product)
    ensures p.id == id && p.createdAt == time && p.updatedAt == time
    ensures p.name == row.name && p.unit == row.unit && p.category == row.category && p.brand == row.brand
    ensures p.stock == row.stock && p.image == row.image && p.status == DeriveStatus(row.stock)
  {
    Product(id, row.name, row.unit, row.category, row.brand, row.stock, DeriveStatus(row.stock), row.image, time, time)
  }

  /** The products a batch stores: one per added row, with identifiers and
      timestamps taken in turn from `id` and `time`. */
  function Stored(added: seq<CsvProduct>, id: nat, time: nat): (s: seq<Product>)
    ensures |s| == |added|
  {
    seq(|added|, k requires 0 <= k < |added| => NewProduct(added[k], id + k, time + k))
  }

  /** A name is in a list with one more row exactly when it was in the list
      or is the name of that row. */
  lemma NameInAppend(rows: seq<CsvProduct>, row: CsvProduct, name: string)
    ensures NameIn(rows + [row], name) <==> NameIn(rows, name) || row.name == name
  {
    var all := rows + [row];
    if NameIn(all, name) && row.name != name {
      var k :| 0 <= k < |all| && all[k].name == name;
      assert rows[k] == all[k];
    }
    if NameIn(rows, name) {
      var k :| 0 <= k < |rows| && rows[k].name == name;
      assert all[k] == rows[k];
    }
    assert all[|rows|] == row;
  }

  /** Rows with distinct names, none of them stored. */
  predicate FreshNames(existing: seq<Product>, added: seq<CsvProduct>)
  {
    (forall k :: 0 <= k < |added| ==> !NameTaken(existing, added[k].name)) &&
    (forall i, j :: 0 <= i < j < |added| ==> added[i].name != added[j].name)
  }

  lemma AdvanceFreshNames(existing: seq<Product>, plan: Plan, row: CsvProduct)
    requires FreshNames(existing, plan.added)
    ensures FreshNames(existing, Advance(existing, plan, row).added)
  {
    var added := Advance(existing, plan, row).added;
    if added != plan.added {
      assert !NameIn(plan.added, row.name);
      forall k | 0 <= k < |added|
        ensures !NameTaken(existing, added[k].name)
      {
        if k < |plan.added| {
          assert added[k] == plan.added[k];
        } else {
          assert added[k] == row;
        }
      }
      forall i, j | 0 <= i < j < |added|
        ensures added[i].name != added[j].name
      {
        assert added[i] == plan.added[i];
        if j == |plan.added| {
          assert added[j] == row;
        } else {
          assert added[j] == plan.added[j];
        }
      }
    }
  }

  /** The added rows have distinct names, none of them already stored. */
  lemma {:induction false} PlanAddsFreshNames(existing: seq<Product>, rows: seq<CsvProduct>, n: nat)
    requires n <= |rows|
    ensures FreshNames(existing, PlanOf(existing, rows, n).added)
    decreases n
  {
    if n > 0 {
      PlanAddsFreshNames(existing, rows, n - 1);
      AdvanceFreshNames(existing, PlanOf(existing, rows, n - 1), rows[n - 1]);
    }
  }

  /** Some of the first n rows has this name. */
  predicate NameAmong(rows: seq<CsvProduct>, n: nat, name: string)
    requires n <= |rows|
  {
    exists k :: 0 <= k < n && rows[k].name == name
  }

  /** A name ends up added exactly when one of the rows carries it and no
      stored product does: the first row of each new name is added, every
      later row of that name is skipped. */
  lemma {:induction false} PlanAddsEachNewName(existing: seq<Product>, rows: seq<CsvProduct>, n: nat, name: string)
    requires n <= |rows|
    ensures NameIn(PlanOf(existing, rows, n).added, name) <==> NameAmong(rows, n, name) && !NameTaken(existing, name)
    decreases n
  {
    if n > 0 {
      var plan := PlanOf(existing, rows, n - 1);
      PlanAddsEachNewName(existing, rows, n - 1, name);
      if PlanOf(existing, rows, n).added != plan.added {
        NameInAppend(plan.added, rows[n - 1], name);
      }
      if NameAmong(rows, n, name) {
        var k :| 0 <= k < n && rows[k].name == name;
        if k < n - 1 {
          assert NameAmong(rows, n - 1, name);
        }
      }
    }
  }

  /** Every skipped row's name is stored, or added by the plan. */
  predicate SkipsOnlyTaken(existing: seq<Product>, plan: Plan)
  {
    forall k :: 0 <= k < |plan.skipped| ==>
      NameTaken(existing, plan.skipped[k].name) || NameIn(plan.added, plan.skipped[k].name)
  }

  lemma AdvanceSkipsOnlyTaken(existing: seq<Product>, plan: Plan, row: CsvProduct)
    requires SkipsOnlyTaken(existing, plan)
    ensures SkipsOnlyTaken(existing, Advance(existing, plan, row))
  {
    var next := Advance(existing, plan, row);
    forall k | 0 <= k < |next.skipped|
      ensures NameTaken(existing, next.skipped[k].name) || NameIn(next.added, next.skipped[k].name)
    {
      if next.added != plan.added {
        NameInAppend(plan.added, row, next.skipped[k].name);
      } else if k == |plan.skipped| {
        assert next.skipped[k] == row;
      } else {
        assert next.skipped[k] == plan.skipped[k];
      }
    }
  }

  /** Every skipped row's name was stored before, or added earlier in the batch. */
  lemma {:induction false} PlanSkipsTakenNames(existing: seq<Product>, rows: seq<CsvProduct>, n: nat)
    requires n <= |rows|
    ensures SkipsOnlyTaken(existing, PlanOf(existing, rows, n))
    decreases n
  {
    if n > 0 {
      PlanSkipsTakenNames(existing, rows, n - 1);
      AdvanceSkipsOnlyTaken(existing, PlanOf(existing, rows, n - 1), rows[n - 1]);
    }
  }

  /** What importing a batch promises about its names: every row is counted
      once, the added rows carry distinct names none of which was stored, a
      name is added exactly when some row carries it and no stored product
      does, and every skipped row's name was stored or added earlier. */
  lemma ImportPlanNames(existing: seq<Product>, rows: seq<CsvProduct>)
    ensures var plan := ImportPlan(existing, rows);
      |plan.added| + |plan.skipped| == |rows| &&
      FreshNames(existing, plan.added) &&
      SkipsOnlyTaken(existing, plan) &&
      forall name :: NameIn(plan.added, name) <==> NameIn(rows, name) && !NameTaken(existing, name)
  {
    PlanAddsFreshNames(existing, rows, |rows|);
    PlanSkipsTakenNames(existing, rows, |rows|);
    forall name
      ensures NameIn(ImportPlan(existing, rows).added, name) <==> NameIn(rows, name) && !NameTaken(existing, name)
    {
      PlanAddsEachNewName(existing, rows, |rows|, name);
    }
  }

  /** A name is stored after the batch exactly when it was stored before or
      added by the batch. */
  lemma NameTakenAfterBatch(existing: seq<Product>, added: seq<CsvProduct>, id: nat, time: nat, name: string)
    ensures NameTaken(existing + Stored(added, id, time), name) <==> NameTaken(existing, name) || NameIn(added, name)
  {
    var all := existing + Stored(added, id, time);
    if NameTaken(all, name) {
      var i :| 0 <= i < |all| && all[i].name == name;
      if i >= |existing| {
        assert added[i - |existing|].name == name;
      }
    }
    if NameIn(added, name) {
      var k :| 0 <= k < |added| && added[k].name == name;
      assert all[|existing| + k].name == name;
    }
    if NameTaken(existing, name) {
      var i :| 0 <= i < |existing| && existing[i].name == name;
      assert all[i].name == name;
    }
  }

  /** One more row extends the stored products by the product it adds, if any. */
  lemma StoredStep(added: seq<CsvProduct>, row: CsvProduct, id: nat, time: nat)
    ensures Stored(added + [row], id, time) == Stored(added, id, time) + [NewProduct(row, id + |added|, time + |added|)]
  {
  }

  /** What one more row does to the plan and to the products it stores: a
      row whose name is stored by then is skipped, any other is added as the
      next product. */
  lemma RowStep(existing: seq<Product>, plan: Plan, row: CsvProduct, id: nat, time: nat)
    ensures var next := Advance(existing, plan, row);
      var products := existing + Stored(plan.added, id, time);
      (NameTaken(products, row.name) ==>
         next.added == plan.added && next.skipped == plan.skipped + [row] &&
         Duplicates(next.skipped) == Duplicates(plan.skipped) + [Duplicate(row, NameExistsReason)]) &&
      (!NameTaken(products, row.name) ==>
         next.added == plan.added + [row] && next.skipped == plan.skipped &&
         existing + Stored(next.added, id, time) == products + [NewProduct(row, id + |plan.added|, time + |plan.added|)])
  {
    NameTakenAfterBatch(existing, plan.added, id, time, row.name);
    StoredStep(plan.added, row, id, time);
  }

  // ---------------------------------------------------------------- POST

  /** One pass of the loop: a row whose name is stored is reported as a
      duplicate and changes nothing; any other clean row is saved as the next
      product. The `Validation error` branch of the source is kept; a clean
      row with a fresh name never reaches it. */
  method ImportRow(db: Store, row: CsvProduct) returns (duplicate: Option<Duplicate>)
    requires db.Valid() && Clean(row)
    modifies db
    ensures db.Valid()
    ensures NameTaken(old(db.products), row.name) ==>
      duplicate == Some(Duplicate(row, NameExistsReason)) &&
      db.products == old(db.products) && db.nextId == old(db.nextId) && db.clock == old(db.clock)
    ensures !NameTaken(old(db.products), row.name) ==>
      duplicate == None &&
      db.products == old(db.products) + [NewProduct(row, old(db.nextId), old(db.clock))] &&
      db.nextId == old(db.nextId) + 1 && db.clock == old(db.clock) + 1
    ensures db.ledger == old(db.ledger) && db.users == old(db.users)
  {
    if NameTaken(db.products, row.name) {
      return Some(Duplicate(row, NameExistsReason));
    }
    var doc := new ProductDocument(row.name, row.unit, row.category, row.brand, Some(row.stock),
                                   Some(if row.stock > 0 then InStock else OutOfStock), Some(row.image));
    TrimOfTrimmed(row.name);
    TrimOfTrimmed(row.unit);
    TrimOfTrimmed(row.category);
    TrimOfTrimmed(row.brand);
    var saved := db.SaveProduct(doc);
    if saved.Ok? {
      duplicate := None;
    } else {
      duplicate := Some(Duplicate(row, ValidationErrorReason));
    }
  }

  /** One pass of the loop, stated against the plan of the rows before it. */
  method ImportStep(db: Store, row: CsvProduct, ghost before: seq<Product>, ghost plan: Plan,
                    ghost firstId: nat, ghost firstTime: nat) returns (duplicate: Option<Duplicate>)
    requires db.Valid() && Clean(row)
    requires db.products == before + Stored(plan.added, firstId, firstTime)
    requires db.nextId == firstId + |plan.added| && db.clock == firstTime + |plan.added|
    modifies db
    ensures db.Valid()
    ensures var next := Advance(before, plan, row);
      db.products == before + Stored(next.added, firstId, firstTime) &&
      db.nextId == firstId + |next.added| && db.clock == firstTime + |next.added| &&
      (duplicate.Some? ==>
         next.added == plan.added && |next.skipped| == |plan.skipped| + 1 &&
         Duplicates(next.skipped) == Duplicates(plan.skipped) + [duplicate.value]) &&
      (duplicate.None? ==> next.skipped == plan.skipped && |next.added| == |plan.added| + 1)
    ensures db.ledger == old(db.ledger) && db.users == old(db.users)
  {
    RowStep(before, plan, row, firstId, firstTime);
    duplicate := ImportRow(db, row);
  }

  /** The file passed the route's own checks and the reader's. */
  predicate FileAccepted(file: Option<UploadedFile>)
  {
    file.Some? && EndsWith(file.value.name, ".csv") && ParseOutcome(file.value.contents).errors == []
  }

  /** `POST`: a missing file, a name not ending in `.csv` (case-sensitive) and
      a file with errors are each answered with 400 and write nothing.
      Otherwise the accepted rows are processed as `ImportPlan` says: the
      added products are appended in row order, every skipped row is
      reported as a duplicate, the counters add up to the number of rows and
      no inventory-history entry is written. */
  method Import(db: Store, file: Option<UploadedFile>) returns (resp: ImportResponse)
    requires db.Valid()
    modifies db
    ensures db.Valid()
    ensures file.None? ==> resp == Rejected(NoFileMessage, [])
    ensures file.Some? && !EndsWith(file.value.name, ".csv") ==> resp == Rejected(NotCsvMessage, [])
    ensures file.Some? && EndsWith(file.value.name, ".csv") && ParseOutcome(file.value.contents).errors != [] ==>
      resp == Rejected(FileErrorsMessage, ParseOutcome(file.value.contents).errors)
    ensures resp.Imported? <==> FileAccepted(file)
    ensures resp.Rejected? ==>
      db.products == old(db.products) && db.nextId == old(db.nextId) && db.clock == old(db.clock)
    ensures resp.Imported? ==>
      var rows := ParseOutcome(file.value.contents).success;
      var plan := ImportPlan(old(db.products), rows);
      resp.added == |plan.added| && resp.skipped == |plan.skipped| &&
      resp.added + resp.skipped == |rows| && resp.duplicates == Duplicates(plan.skipped) &&
      db.products == old(db.products) + Stored(plan.added, old(db.nextId), old(db.clock))
    ensures db.ledger == old(db.ledger) && db.users == old(db.users)
  {
    if file.None? {
      return Rejected(NoFileMessage, []);
    }
    if !EndsWith(file.value.name, ".csv") {
      return Rejected(NotCsvMessage, []);
    }
    var parsed := ParseCsv(file.value.contents);
    if |parsed.errors| > 0 {
      return Rejected(FileErrorsMessage, parsed.errors);
    }
    var rows := parsed.success;
    var added, skipped, duplicates := ImportRows(db, rows);
    resp := Imported(added, skipped, duplicates);
  }

  /** The loop over the accepted rows, proved against `ImportPlan`. */
  method ImportRows(db: Store, rows: seq<CsvProduct>) returns (added: nat, skipped: nat, duplicates: seq<Duplicate>)
    requires db.Valid()
    requires forall k :: 0 <= k < |rows| ==> Clean(rows[k])
    modifies db
    ensures db.Valid()
    ensures var plan := ImportPlan(old(db.products), rows);
      added == |plan.added| && skipped == |plan.skipped| && added + skipped == |rows| &&
      duplicates == Duplicates(plan.skipped) &&
      db.products == old(db.products) + Stored(plan.added, old(db.nextId), old(db.clock))
    ensures db.ledger == old(db.ledger) && db.users == old(db.users)
  {
    ghost var before := db.products;
    ghost var firstId := db.nextId;
    ghost var firstTime := db.clock;
    ghost var plan := Plan([], []);
    added, skipped, duplicates := 0, 0, [];
    var i := 0;
    while i < |rows|
      invariant 0 <= i <= |rows|
      invariant db.Valid()
      invariant plan == PlanOf(before, rows, i)
      invariant added == |plan.added| && skipped == |plan.skipped| && duplicates == Duplicates(plan.skipped)
      invariant db.products == before + Stored(plan.added, firstId, firstTime)
      invariant db.nextId == firstId + added && db.clock == firstTime + added
      invariant db.ledger == old(db.ledger) && db.users == old(db.users)
    {
      var duplicate := ImportStep(db, rows[i], before, plan, firstId, firstTime);
      if duplicate.Some? {
        skipped := skipped + 1;
        duplicates := duplicates + [duplicate.value];
      } else {
        added := added + 1;
      }
      plan := Advance(before, plan, rows[i]);
      i := i + 1;
    }
  }
}
