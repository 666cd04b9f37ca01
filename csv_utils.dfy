/** The CSV helpers of the import and export features. `ParseCsv` takes what
    the CSV reader produced from the text (header row on, every cell trimmed)
    and checks the columns, then validates each row; `GenerateCsv` projects
    products onto the seven exported columns. The text format itself (quoting,
    separators, empty lines) belongs to the CSV library and is not modelled. */
module CsvUtils {
  import opened Common
  import opened Strings
  import opened ProductModel

  /** One data row as the reader keyed it by the header row: column to raw cell. */
  type Row = map<string, string>

  /** The reader's outcome: it threw, or it produced rows and a count of low-level errors. */
  datatype ParseOutput = Threw | Parsed(data: seq<Row>, errorCount: nat)

  /** A row read as a product; `status` is the cell text, not yet an enum. */
  datatype CsvProduct = CsvProduct(
    name: string,
    unit: string,
    category: string,
    brand: string,
    stock: int,
    status: string,
    image: string)

  datatype ImportResult = ImportResult(success: seq<CsvProduct>, skipped: seq<CsvProduct>, errors: seq<string>)

  const RequiredColumns := ["name", "unit", "category", "brand", "stock", "status", "image"]

  const ParsingErrorsMessage := "CSV parsing errors found"
  const FailedToParseMessage := "Failed to parse CSV file"

  // ---------------------------------------------------------------- column check

  /** The column names the check sees: the keys of the first row, none when there is no row. */
  function Headers(data: seq<Row>): set<string>
  {
    if data == [] then {} else data[0].Keys
  }

  /** `columns.filter(col => !headers.includes(col))`: the columns absent from
      the headers, in column order. */
  function Absent(columns: seq<string>, headers: set<string>): (missing: seq<string>)
    ensures forall c :: c in missing <==> c in columns && c !in headers
    ensures Subsequence(missing, columns)
    decreases |columns|
  {
    if columns == [] then []
    else
      var rest := Absent(columns[1..], headers);
      assert forall c :: c in columns <==> c == columns[0] || c in columns[1..];
      if columns[0] in headers then rest else [columns[0]] + rest
  }

  /** The required columns missing from the headers, in required order. */
  function MissingColumns(data: seq<Row>): (missing: seq<string>)
    ensures forall c :: c in missing <==> c in RequiredColumns && c !in Headers(data)
    ensures Subsequence(missing, RequiredColumns)
  {
    Absent(RequiredColumns, Headers(data))
  }

  /** The check passes exactly when the first row has every required column. */
  lemma NoMissingColumns(data: seq<Row>)
    ensures MissingColumns(data) == [] <==> forall c :: c in RequiredColumns ==> c in Headers(data)
  {
    var missing := MissingColumns(data);
    if missing != [] {
      assert missing[0] in missing;
    }
  }

  /** Against no headers at all, every column is absent. */
  lemma {:induction false} NothingPresent(columns: seq<string>)
    ensures Absent(columns, {}) == columns
    decreases |columns|
  {
    if columns != [] {
      NothingPresent(columns[1..]);
    }
  }

  /** With no data row the check sees no header, so it reports every column missing. */
  lemma NoRowsMissEveryColumn()
    ensures MissingColumns([]) == RequiredColumns
  {
    NothingPresent(RequiredColumns);
  }

  function MissingColumnsMessage(data: seq<Row>): string
  {
    "Missing required columns: " + Join(MissingColumns(data), ", ")
  }

  // ---------------------------------------------------------------- row validation

  /** A cell after the reader's `trim` transform; a column the row lacks reads as ''. */
  function Cell(row: Row, column: string): (text: string)
    ensures IsTrimmed(text)
    ensures column !in row ==> text == ""
  {
    if column in row then Trim(row[column]) else ""
  }

  /** `parseInt(cell) || 0`: text that is no number, and zero, both give 0. */
  function StockValue(text: string): (stock: int)
    ensures stock != 0 ==> JsParseInt(text) == Some(stock)
    ensures (JsParseInt(text).None? || JsParseInt(text) == Some(0)) <==> stock == 0
  {
    var v := JsParseInt(text);
    if v.None? then 0 else v.value
  }

  /** Why a row is rejected. */
  datatype RowProblem = MissingRequiredFields | InvalidStock

  /** The object literal a row is read into: the trimmed cells, the stock
      read by `parseInt(cell) || 0`, and 'Out of Stock' for an empty status. */
  function RowProduct(row: Row): (p: CsvProduct)
    ensures IsTrimmed(p.name) && IsTrimmed(p.unit) && IsTrimmed(p.category) && IsTrimmed(p.brand)
    ensures IsTrimmed(p.image)
    ensures p.stock != 0 ==> JsParseInt(Cell(row, "stock")) == Some(p.stock)
    ensures p.status != "" && (Cell(row, "status") != "" ==> p.status == Cell(row, "status"))
  {
    CsvProduct(
      Cell(row, "name"), Cell(row, "unit"), Cell(row, "category"), Cell(row, "brand"),
      StockValue(Cell(row, "stock")),
      OrElse(Some(Cell(row, "status")), "Out of Stock"),
      Cell(row, "image"))
  }

  /** The two checks on the object: the required fields first, then the stock. */
  function ValidateRow(row: Row): (r: Result<CsvProduct, RowProblem>)
    ensures var p := RowProduct(row);
      (r.Ok? <==> p.name != "" && p.unit != "" && p.category != "" && p.brand != "" && p.stock >= 0) &&
      (r.Err? ==> (r.error == MissingRequiredFields <==> p.name == "" || p.unit == "" || p.category == "" || p.brand == "")) &&
      (r.Ok? ==> r.value == p)
  {
    var p := RowProduct(row);
    if p.name == "" || p.unit == "" || p.category == "" || p.brand == "" then Err(MissingRequiredFields)
    else if p.stock < 0 then Err(InvalidStock)
    else Ok(p)
  }

  /** The message of the row at (zero-based) position `index`. */
  function RowMessage(index: nat, problem: RowProblem): string
  {
    "Row " + NatToString(index + 1) + ": " +
    (match problem
     case MissingRequiredFields => "Missing required fields"
     case InvalidStock => "Invalid stock value")
  }

  /** The verdict on one row. */
  type Outcome = Result<CsvProduct, RowProblem>

  /** The verdicts on the rows, position by position. */
  function Outcomes(data: seq<Row>): (outcomes: seq<Outcome>)
    ensures |outcomes| == |data|
  {
    seq(|data|, i requires 0 <= i < |data| => ValidateRow(data[i]))
  }

  /** The products of the rows that pass, in row order. */
  function Accepted(outcomes: seq<Outcome>): (accepted: seq<CsvProduct>)
    ensures |accepted| <= |outcomes|
    decreases |outcomes|
  {
    if outcomes == [] then []
    else
      var last := outcomes[|outcomes| - 1];
      Accepted(outcomes[..|outcomes| - 1]) + (if last.Ok? then [last.value] else [])
  }

  /** The messages of the rows that fail, in row order, each naming its row;
      every row is either accepted or has a message. */
  function Rejections(outcomes: seq<Outcome>): (errors: seq<string>)
    ensures |errors| + |Accepted(outcomes)| == |outcomes|
    decreases |outcomes|
  {
    if outcomes == [] then []
    else
      var last := outcomes[|outcomes| - 1];
      Rejections(outcomes[..|outcomes| - 1]) + (if last.Err? then [RowMessage(|outcomes| - 1, last.error)] else [])
  }

  /** What an accepted row satisfies: required text present and trimmed, a
      non-negative stock and a trimmed image. */
  predicate Clean(p: CsvProduct)
  {
    RequiredText(p.name) && RequiredText(p.unit) && RequiredText(p.category) &&
    RequiredText(p.brand) && p.stock >= 0 && IsTrimmed(p.image)
  }

  /** A row that passes validation is clean. */
  lemma ValidRowIsClean(row: Row)
    ensures ValidateRow(row).Ok? ==> Clean(ValidateRow(row).value)
  {
  }

  /** One more row adds its product, when it passes, to the accepted ones. */
  lemma AcceptedStep(outcomes: seq<Outcome>, i: nat)
    requires i < |outcomes|
    ensures Accepted(outcomes[..i + 1]) ==
      Accepted(outcomes[..i]) + (if outcomes[i].Ok? then [outcomes[i].value] else [])
  {
    assert outcomes[..i + 1][..i] == outcomes[..i];
  }

  /** One more row adds its message, when it fails, to the rejections. */
  lemma RejectionsStep(outcomes: seq<Outcome>, i: nat)
    requires i < |outcomes|
    ensures Rejections(outcomes[..i + 1]) ==
      Rejections(outcomes[..i]) + (if outcomes[i].Err? then [RowMessage(i, outcomes[i].error)] else [])
  {
    assert outcomes[..i + 1][..i] == outcomes[..i];
  }

  /** The accepted products are exactly the products of the rows that pass. */
  lemma {:induction false} AcceptedAreValidRows(outcomes: seq<Outcome>)
    ensures forall p :: p in Accepted(outcomes) <==> exists i :: 0 <= i < |outcomes| && outcomes[i] == Ok(p)
    decreases |outcomes|
  {
    if outcomes != [] {
      var init := outcomes[..|outcomes| - 1];
      AcceptedAreValidRows(init);
      forall p
        ensures p in Accepted(outcomes) <==> exists i :: 0 <= i < |outcomes| && outcomes[i] == Ok(p)
      {
        if exists i :: 0 <= i < |outcomes| && outcomes[i] == Ok(p) {
          var i :| 0 <= i < |outcomes| && outcomes[i] == Ok(p);
          if i < |outcomes| - 1 {
            assert init[i] == outcomes[i];
          }
        }
        if p in Accepted(init) {
          var i :| 0 <= i < |init| && init[i] == Ok(p);
          assert outcomes[i] == init[i];
        }
      }
    }
  }

  /** The rejections are exactly the messages of the rows that fail. */
  lemma {:induction false} RejectionsAreInvalidRows(outcomes: seq<Outcome>)
    ensures forall m :: m in Rejections(outcomes) <==>
      exists i :: 0 <= i < |outcomes| && outcomes[i].Err? && m == RowMessage(i, outcomes[i].error)
    decreases |outcomes|
  {
    if outcomes != [] {
      var init := outcomes[..|outcomes| - 1];
      RejectionsAreInvalidRows(init);
      forall m
        ensures m in Rejections(outcomes) <==>
          exists i :: 0 <= i < |outcomes| && outcomes[i].Err? && m == RowMessage(i, outcomes[i].error)
      {
        if exists i :: 0 <= i < |outcomes| && outcomes[i].Err? && m == RowMessage(i, outcomes[i].error) {
          var i :| 0 <= i < |outcomes| && outcomes[i].Err? && m == RowMessage(i, outcomes[i].error);
          if i < |outcomes| - 1 {
            assert init[i] == outcomes[i];
          }
        }
        if m in Rejections(init) {
          var i :| 0 <= i < |init| && init[i].Err? && m == RowMessage(i, init[i].error);
          assert outcomes[i] == init[i];
        }
      }
    }
  }

  /** Acceptance is row by row, so the accepted products keep the row order:
      those of a prefix come before those of the rest. */
  lemma {:induction false} AcceptedKeepsOrder(front: seq<Outcome>, back: seq<Outcome>)
    ensures Accepted(front + back) == Accepted(front) + Accepted(back)
    decreases |back|
  {
    if back != [] {
      var all := front + back;
      assert all[..|all| - 1] == front + back[..|back| - 1];
      assert all[|all| - 1] == back[|back| - 1];
      AcceptedKeepsOrder(front, back[..|back| - 1]);
    } else {
      assert front + back == front;
    }
  }

  /** When every row passes, every row is accepted as it was read and nothing is rejected. */
  lemma {:induction false} AllRowsPass(outcomes: seq<Outcome>)
    requires forall i :: 0 <= i < |outcomes| ==> outcomes[i].Ok?
    ensures Accepted(outcomes) == seq(|outcomes|, i requires 0 <= i < |outcomes| => outcomes[i].value)
    ensures Rejections(outcomes) == []
    decreases |outcomes|
  {
    if outcomes != [] {
      AllRowsPass(outcomes[..|outcomes| - 1]);
    }
  }

  /** Every accepted product is clean. */
  lemma {:induction false} AcceptedAreClean(data: seq<Row>)
    ensures forall k :: 0 <= k < |Accepted(Outcomes(data))| ==> Clean(Accepted(Outcomes(data))[k])
  {
    var outcomes := Outcomes(data);
    AcceptedAreValidRows(outcomes);
    forall k | 0 <= k < |Accepted(outcomes)|
      ensures Clean(Accepted(outcomes)[k])
    {
      var p := Accepted(outcomes)[k];
      assert p in Accepted(outcomes);
      var i :| 0 <= i < |outcomes| && outcomes[i] == Ok(p);
      ValidRowIsClean(data[i]);
    }
  }

  // ---------------------------------------------------------------- parseCSV

  /** The reader succeeded without error and the first row has every required column. */
  predicate ColumnsPresent(input: ParseOutput)
  {
    input.Parsed? && input.errorCount == 0 && MissingColumns(input.data) == []
  }

  /** What `parseCSV` returns. A reader that threw, a reader error and a
      missing column each give exactly one error and nothing accepted.
      Otherwise every row is either accepted, clean, or rejected with a
      message naming it; nothing is ever skipped. */
  function ParseOutcome(input: ParseOutput): (result: ImportResult)
    ensures result.skipped == []
    ensures !ColumnsPresent(input) ==> |result.errors| == 1 && result.success == []
    ensures input.Threw? ==> result.errors == [FailedToParseMessage]
    ensures input.Parsed? && input.errorCount > 0 ==> result.errors == [ParsingErrorsMessage]
    ensures input.Parsed? && input.errorCount == 0 && MissingColumns(input.data) != [] ==>
      result.errors == [MissingColumnsMessage(input.data)]
    ensures ColumnsPresent(input) ==> |result.success| + |result.errors| == |input.data|
    ensures ColumnsPresent(input) ==>
      result.success == Accepted(Outcomes(input.data)) && result.errors == Rejections(Outcomes(input.data))
    ensures forall k :: 0 <= k < |result.success| ==> Clean(result.success[k])
  {
    if input.Threw? then ImportResult([], [], [FailedToParseMessage])
    else if input.errorCount > 0 then ImportResult([], [], [ParsingErrorsMessage])
    else if MissingColumns(input.data) != [] then ImportResult([], [], [MissingColumnsMessage(input.data)])
    else
      var outcomes := Outcomes(input.data);
      AcceptedAreClean(input.data);
      ImportResult(Accepted(outcomes), [], Rejections(outcomes))
  }

  /** `parseCSV`: the checks with their early returns, then the loop over the rows. */
  method ParseCsv(input: ParseOutput) returns (result: ImportResult)
    ensures result == ParseOutcome(input)
  {
    result := ImportResult([], [], []);
    if input.Threw? {
      result := result.(errors := result.errors + [FailedToParseMessage]);
      return;
    }
    if input.errorCount > 0 {
      result := result.(errors := result.errors + [ParsingErrorsMessage]);
      return;
    }
    var missing := MissingColumns(input.data);
    if |missing| > 0 {
      result := result.(errors := result.errors + [MissingColumnsMessage(input.data)]);
      return;
    }
    var success, errors := ValidateRows(input.data);
    result := result.(success := success, errors := errors);
  }

  /** The `forEach` over the rows: each row is validated in turn, a passing
      one appended to the accepted products, a failing one's message to the
      errors. */
  method ValidateRows(data: seq<Row>) returns (success: seq<CsvProduct>, errors: seq<string>)
    ensures success == Accepted(Outcomes(data))
    ensures errors == Rejections(Outcomes(data))
  {
    success, errors := [], [];
    var index := 0;
    while index < |data|
      invariant 0 <= index <= |data|
      invariant success == Accepted(Outcomes(data)[..index])
      invariant errors == Rejections(Outcomes(data)[..index])
    {
      success, errors := ValidateNextRow(data, index, success, errors);
      index := index + 1;
    }
    assert Outcomes(data)[..index] == Outcomes(data);
  }

  /** The body of the `forEach` callback for the row at position `index`: the
      row is validated, and its product or its message is appended. */
  method ValidateNextRow(data: seq<Row>, index: nat, success: seq<CsvProduct>, errors: seq<string>)
    returns (success': seq<CsvProduct>, errors': seq<string>)
    requires index < |data|
    requires success == Accepted(Outcomes(data)[..index])
    requires errors == Rejections(Outcomes(data)[..index])
    ensures success' == Accepted(Outcomes(data)[..index + 1])
    ensures errors' == Rejections(Outcomes(data)[..index + 1])
  {
    var verdict := ValidateRow(data[index]);
    RowStep(data, index);
    if verdict.Err? {
      success', errors' := success, errors + [RowMessage(index, verdict.error)];
    } else {
      success', errors' := success + [verdict.value], errors;
    }
  }

  /** One more row of the loop, in terms of its verdict. */
  lemma RowStep(data: seq<Row>, i: nat)
    requires i < |data|
    ensures var verdict := ValidateRow(data[i]);
      verdict.Ok? ==>
        Accepted(Outcomes(data)[..i + 1]) == Accepted(Outcomes(data)[..i]) + [verdict.value] &&
        Rejections(Outcomes(data)[..i + 1]) == Rejections(Outcomes(data)[..i])
    ensures var verdict := ValidateRow(data[i]);
      verdict.Err? ==>
        Accepted(Outcomes(data)[..i + 1]) == Accepted(Outcomes(data)[..i]) &&
        Rejections(Outcomes(data)[..i + 1]) == Rejections(Outcomes(data)[..i]) + [RowMessage(i, verdict.error)]
  {
    AcceptedStep(Outcomes(data), i);
    RejectionsStep(Outcomes(data), i);
  }

  // ---------------------------------------------------------------- generateCSV

  /** One exported record: (column, value) pairs in output order. */
  type Record = seq<(string, string)>

  /** The seven exported fields of a product; the stock is written as `String(stock)`. */
  function ExportRecord(p: Product): (rec: Record)
    ensures |rec| == |RequiredColumns|
    ensures forall k :: 0 <= k < |rec| ==> rec[k].0 == RequiredColumns[k]
  {
    [("name", p.name), ("unit", p.unit), ("category", p.category), ("brand", p.brand),
     ("stock", IntToString(p.stock)), ("status", StatusLabel(p.status)), ("image", p.image)]
  }

  /** `generateCSV` before the library writes the text: one record per product, in order. */
  function GenerateCsv(products: seq<Product>): (records: seq<Record>)
    ensures |records| == |products|
    ensures forall i :: 0 <= i < |products| ==> records[i] == ExportRecord(products[i])
  {
    if products == [] then [] else [ExportRecord(products[0])] + GenerateCsv(products[1..])
  }

  /** An exported record keyed by column, as reading it back under its header row gives it. */
  function ExportRow(p: Product): (row: Row)
    ensures row.Keys == set c | c in RequiredColumns
    ensures forall k :: 0 <= k < |ExportRecord(p)| ==> row[ExportRecord(p)[k].0] == ExportRecord(p)[k].1
  {
    map["name" := p.name, "unit" := p.unit, "category" := p.category, "brand" := p.brand,
        "stock" := IntToString(p.stock), "status" := StatusLabel(p.status), "image" := p.image]
  }

  /** The product a well-formed stored product comes back as. */
  function CsvView(p: Product): CsvProduct
  {
    CsvProduct(p.name, p.unit, p.category, p.brand, p.stock, StatusLabel(p.status), Trim(p.image))
  }

  /** What `String(x)` writes has no surrounding whitespace. */
  lemma IntToStringTrimmed(x: int)
    ensures IsTrimmed(IntToString(x))
  {
    var s := IntToString(x);
    if x < 0 {
      assert s == "-" + NatToString(-x);
      assert s[|s| - 1] == NatToString(-x)[|NatToString(-x)| - 1];
    }
  }

  /** A cell holding trimmed text reads back unchanged. */
  lemma TrimmedCell(row: Row, column: string, text: string)
    requires column in row && row[column] == text && IsTrimmed(text)
    ensures Cell(row, column) == text
  {
    TrimOfTrimmed(text);
  }

  /** The text cells of an exported record of a well-formed product hold its
      fields unchanged. */
  lemma ExportedTextCells(p: Product)
    requires WellFormed(p)
    ensures var row := ExportRow(p);
      Cell(row, "name") == p.name && Cell(row, "unit") == p.unit &&
      Cell(row, "category") == p.category && Cell(row, "brand") == p.brand
  {
    var row := ExportRow(p);
    TrimmedCell(row, "name", p.name);
    TrimmedCell(row, "unit", p.unit);
    TrimmedCell(row, "category", p.category);
    TrimmedCell(row, "brand", p.brand);
  }

  /** The stock cell of an exported record holds `String(stock)`. */
  lemma ExportedStockCell(p: Product)
    ensures Cell(ExportRow(p), "stock") == IntToString(p.stock)
  {
    IntToStringTrimmed(p.stock);
    TrimmedCell(ExportRow(p), "stock", IntToString(p.stock));
  }

  /** The status cell of an exported record holds the status label, and the
      image cell the trimmed image. */
  lemma ExportedStatusAndImageCells(p: Product)
    ensures var row := ExportRow(p);
      Cell(row, "status") == StatusLabel(p.status) && Cell(row, "image") == Trim(p.image)
  {
    TrimmedCell(ExportRow(p), "status", StatusLabel(p.status));
  }

  /** Reading back the stock of a product with non-negative stock gives it again. */
  lemma StockReadsBack(stock: int)
    requires stock >= 0
    ensures StockValue(IntToString(stock)) == stock
  {
    ParseIntOfIntToString(stock);
  }

  /** Record-level round trip: the exported record of a well-formed product
      passes row validation and reads back as the product's own fields. */
  lemma ExportedRowValidates(p: Product)
    requires WellFormed(p)
    ensures ValidateRow(ExportRow(p)) == Ok(CsvView(p))
  {
    ExportedRowProduct(p);
  }

  /** The object an exported record of a well-formed product is read into. */
  lemma ExportedRowProduct(p: Product)
    requires WellFormed(p)
    ensures RowProduct(ExportRow(p)) == CsvView(p)
  {
    var row := ExportRow(p);
    RowProductFields(row);
    ExportedTextCells(p);
    ExportedStockCell(p);
    ExportedStatusAndImageCells(p);
    StockReadsBack(p.stock);
    StatusLabelNonEmpty(p.status);
  }

  lemma StatusLabelNonEmpty(s: Status)
    ensures StatusLabel(s) != ""
  {
  }

  lemma RowProductFields(row: Row)
    ensures RowProduct(row) == CsvProduct(Cell(row, "name"), Cell(row, "unit"), Cell(row, "category"),
      Cell(row, "brand"), StockValue(Cell(row, "stock")), OrElse(Some(Cell(row, "status")), "Out of Stock"),
      Cell(row, "image"))
  {
  }

  /** The rows read back from an export of well-formed products. */
  function ExportedRows(products: seq<Product>): (data: seq<Row>)
    ensures |data| == |products|
  {
    seq(|products|, i requires 0 <= i < |products| => ExportRow(products[i]))
  }

  /** An export with at least one record carries every required column; an
      empty export has no data row, so the column check reports them all. */
  lemma ExportedColumns(products: seq<Product>)
    ensures products != [] ==> MissingColumns(ExportedRows(products)) == []
    ensures products == [] ==> MissingColumns(ExportedRows(products)) == RequiredColumns
  {
    var data := ExportedRows(products);
    if products == [] {
      NoRowsMissEveryColumn();
    } else {
      assert data[0] == ExportRow(products[0]);
      assert Headers(data) == set c | c in RequiredColumns;
      NoMissingColumns(data);
    }
  }

  /** Every row read back from an export of well-formed products is accepted,
      in order, as the product's own fields, and none is rejected. */
  lemma ExportedRowsAccepted(products: seq<Product>)
    requires forall i :: 0 <= i < |products| ==> WellFormed(products[i])
    ensures Accepted(Outcomes(ExportedRows(products))) == seq(|products|, i requires 0 <= i < |products| => CsvView(products[i]))
    ensures Rejections(Outcomes(ExportedRows(products))) == []
  {
    var outcomes := Outcomes(ExportedRows(products));
    forall i | 0 <= i < |outcomes|
      ensures outcomes[i] == Ok(CsvView(products[i]))
    {
      ExportedRowValidates(products[i]);
    }
    AllRowsPass(outcomes);
  }
}
