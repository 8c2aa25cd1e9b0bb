/** The cleaning script that turns the two phone spreadsheets (new stock and used iPhones) into the
    records the inventory import reads: one record per filled row, with the row's IMEIs as serials. */
module Cleaning {
  import opened Wrappers
  import opened Text
  import opened InventoryImport

  // ---------------------------------------------------------------------------------------------
  // IMEI lists

  /** `extract_imeis`: the whitespace-separated IMEIs of a cell; an empty cell has none. */
  function ExtractImeis(cell: string): (imeis: seq<string>)
    ensures forall k :: 0 <= k < |imeis| ==> imeis[k] != [] && NoSpace(imeis[k])
  {
    if cell == [] then []
    else
      var r := NonEmpty(SplitRuns(Strip(cell)));
      assert forall k :: 0 <= k < |r| ==> NoSpace(r[k]) by {
        forall k | 0 <= k < |r| ensures NoSpace(r[k]) {
          var ps := SplitRuns(Strip(cell));
          var j :| 0 <= j < |ps| && ps[j] == r[k];
        }
      }
      r
  }

  /** Extracting the IMEIs loses only whitespace: together they spell the cell's visible characters. */
  lemma ExtractImeisKeepsVisible(cell: string)
    ensures Concat(ExtractImeis(cell)) == Visible(cell)
  {
    if cell != [] {
      SplitRunsKeepsVisible(Strip(cell));
      StripKeepsVisible(cell);
    }
  }

  /** A cell holding IMEIs separated by single spaces reads back as exactly those IMEIs. */
  lemma ExtractImeisOfJoin(imeis: seq<string>)
    requires forall k :: 0 <= k < |imeis| ==> imeis[k] != [] && NoSpace(imeis[k])
    ensures ExtractImeis(Join(imeis, " ")) == imeis
  {
    if imeis != [] {
      var cell := Join(imeis, " ");
      JoinStartsVisible(imeis);
      StripOfTrimmed(cell);
      SplitRunsOfJoin(imeis);
      NonEmptyOfFilled(imeis);
      ExtractImeisOf(cell, imeis);
    }
  }

  /** A non-empty cell whose stripped runs are the non-empty `imeis` yields them. */
  lemma ExtractImeisOf(cell: string, imeis: seq<string>)
    requires cell != [] && Strip(cell) == cell && SplitRuns(cell) == imeis && NonEmpty(imeis) == imeis
    ensures ExtractImeis(cell) == imeis
  {
  }

  lemma {:induction false} NonEmptyOfFilled(ps: seq<string>)
    requires forall k :: 0 <= k < |ps| ==> ps[k] != []
    ensures NonEmpty(ps) == ps
  {
    if ps != [] {
      NonEmptyOfFilled(ps[1..]);
      assert ps == [ps[0]] + ps[1..];
    }
  }

  // ---------------------------------------------------------------------------------------------
  // Prices

  /** `s.replace(c, '')`. */
  function Without(s: string, c: char): (r: string)
    ensures |r| <= |s| && forall i :: 0 <= i < |r| ==> r[i] != c
  {
    if s == [] then [] else (if s[0] == c then [] else [s[0]]) + Without(s[1..], c)
  }

  lemma {:induction false} WithoutAbsent(s: string, c: char)
    requires forall i :: 0 <= i < |s| ==> s[i] != c
    ensures Without(s, c) == s
  {
    if s != [] {
      WithoutAbsent(s[1..], c);
      assert s == [s[0]] + s[1..];
    }
  }

  /** The index of the first `c` in `s`, or `|s|` when there is none. */
  function IndexOf(s: string, c: char): (i: nat)
    ensures i <= |s| && (i < |s| ==> s[i] == c) && forall j :: 0 <= j < i ==> s[j] != c
  {
    if s == [] then 0 else if s[0] == c then 0 else 1 + IndexOf(s[1..], c)
  }

  /** `float(t)` for an unsigned decimal numeral: digits, optionally a point and more digits, at least one
      digit in all; anything else is not a number. */
  function ReadNumber(t: string): (r: Option<real>)
    ensures r.Some? ==> r.value >= 0.0
  {
    var i := IndexOf(t, '.');
    Numeral(t[..i], if i < |t| then t[i + 1..] else [])
  }

  /** The value of a numeral split at its point into whole and fractional digits. */
  function Numeral(whole: string, frac: string): (r: Option<real>)
    ensures r.Some? ==> r.value >= 0.0
  {
    if AllDigits(whole) && AllDigits(frac) && |whole| + |frac| > 0
    then Some(DigitsValue(whole) as real + Shifted(DigitsValue(frac) as real, |frac|))
    else None
  }

  /** x divided by 10 k times: the value of a fraction of k digits whose digits read as x. */
  function Shifted(x: real, k: nat): (r: real)
    ensures x >= 0.0 ==> r >= 0.0
  {
    if k == 0 then x else Shifted(x, k - 1) / 10.0
  }

  /** `clean_price`: an empty cell, or one that is no number once `$` signs and surrounding whitespace
      are dropped, costs 0.0. */
  function CleanPrice(cell: string): (price: real)
    ensures price >= 0.0
  {
    if cell == [] then 0.0
    else ReadNumber(Strip(Without(cell, '$'))).GetOr(0.0)
  }

  /** A price of whole dollars, written with a dollar sign, reads back as that amount. */
  lemma CleanPriceOfDollars(n: nat)
    ensures CleanPrice("$" + Decimal(n)) == n as real
  {
    var d := Decimal(n);
    DollarText(d);
    DecimalRoundTrip(n);
    ReadDigits(d);
  }

  /** A dollar sign in front of a numeral that starts and ends with a digit is ignored. */
  lemma DollarText(t: string)
    requires t != [] && IsDigit(t[0]) && IsDigit(t[|t| - 1])
    requires forall i :: 0 <= i < |t| ==> t[i] != '$'
    ensures CleanPrice("$" + t) == ReadNumber(t).GetOr(0.0)
  {
    DropDollar(t);
    StripOfTrimmed(t);
  }

  /** Dropping the dollar signs from a dollar sign and a text without one leaves the text. */
  lemma DropDollar(t: string)
    requires forall i :: 0 <= i < |t| ==> t[i] != '$'
    ensures Without("$" + t, '$') == t
  {
    assert ("$" + t)[1..] == t;
    WithoutAbsent(t, '$');
  }

  /** A plain digit string reads as its value. */
  lemma ReadDigits(d: string)
    requires d != [] && AllDigits(d)
    ensures ReadNumber(d) == Some(DigitsValue(d) as real)
  {
    assert IndexOf(d, '.') == |d|;
    assert d[..|d|] == d;
  }

  /** A price in dollars and cents, written `$<n>.<cc>`, reads back as that amount. */
  lemma CleanPriceOfCents(n: nat, c: nat)
    requires c < 100
    ensures CleanPrice("$" + Decimal(n) + "." + PadStart(Decimal(c), 2, '0')) == n as real + c as real / 100.0
  {
    CentsDigits(c);
    DecimalRoundTrip(n);
    CleanPriceOfPoint(Decimal(n), PadStart(Decimal(c), 2, '0'));
  }

  /** `$`, digits, a point and two digits read as dollars and cents. */
  lemma CleanPriceOfPoint(d: string, cc: string)
    requires d != [] && AllDigits(d) && |cc| == 2 && AllDigits(cc)
    ensures CleanPrice("$" + d + "." + cc) == DigitsValue(d) as real + DigitsValue(cc) as real / 100.0
  {
    var t := d + "." + cc;
    assert "$" + d + "." + cc == "$" + t;
    PointText(d, cc);
    DollarText(t);
    ReadPoint(d, cc);
    NumeralOf(d, cc);
    Hundredths(DigitsValue(cc) as real, |cc|);
  }

  lemma Hundredths(x: real, k: nat)
    requires k == 2
    ensures Shifted(x, k) == x / 100.0
  {
    assert Shifted(x, 1) == x / 10.0;
  }

  lemma PointText(d: string, f: string)
    requires d != [] && AllDigits(d) && f != [] && AllDigits(f)
    ensures var t := d + "." + f; t != [] && IsDigit(t[0]) && IsDigit(t[|t| - 1])
    ensures forall i :: 0 <= i < |d + "." + f| ==> (d + "." + f)[i] != '$'
  {
  }

  /** Two digits of cents, zero-padded, read as the cents. */
  lemma CentsDigits(c: nat)
    requires c < 100
    ensures AllDigits(PadStart(Decimal(c), 2, '0')) && |PadStart(Decimal(c), 2, '0')| == 2
    ensures DigitsValue(PadStart(Decimal(c), 2, '0')) == c
  {
    DecimalWidth(c, 2);
    DecimalRoundTrip(c);
    if |Decimal(c)| < 2 {
      LeadingZerosValue(2 - |Decimal(c)|, Decimal(c));
    }
  }

  /** Digits, a point and digits read as the whole part plus the fraction. */
  lemma ReadPoint(d: string, f: string)
    requires d != [] && AllDigits(d) && AllDigits(f)
    ensures ReadNumber(d + "." + f) == Numeral(d, f)
  {
    var t := d + "." + f;
    assert IndexOf(t, '.') == |d| by {
      assert t[|d|] == '.';
      assert forall j :: 0 <= j < |d| ==> t[j] == d[j];
    }
    assert t[..|d|] == d && t[|d| + 1..] == f;
  }

  /** Digit strings, the whole part not empty, make a numeral worth the whole part plus the fraction. */
  lemma NumeralOf(d: string, f: string)
    requires d != [] && AllDigits(d) && AllDigits(f)
    ensures Numeral(d, f) == Some(DigitsValue(d) as real + Shifted(DigitsValue(f) as real, |f|))
  {
  }

  // ---------------------------------------------------------------------------------------------
  // Rows

  /** The two spreadsheets, which differ in their column order and description labels. */
  datatype Sheet = StockPrices | UsedIphones

  type Row = seq<string>

  /** A row the script skips outright: no cells, or only blank ones. */
  predicate Blank(row: Row) {
    row == [] || (Strip(row[0]) == [] && Blank(row[1..]))
  }

  /** A row the script turns into a record: not blank and with the six columns it reads (a shorter row
      raises `IndexError`, which skips it). */
  predicate Filled(row: Row) {
    !Blank(row) && |row| >= 6
  }

  /** `", ".join` of `"<label>: <value>"` for each non-empty value, in order. */
  function Describe(parts: seq<(string, string)>): string {
    Join(Labelled(parts), ", ")
  }

  function Labelled(parts: seq<(string, string)>): (r: seq<string>)
    ensures |r| <= |parts| && (r == [] <==> forall k :: 0 <= k < |parts| ==> parts[k].1 == [])
  {
    if parts == [] then []
    else if parts[0].1 == [] then Labelled(parts[1..])
    else [parts[0].0 + ": " + parts[0].1] + Labelled(parts[1..])
  }

  /** The description is empty exactly when every part is. */
  lemma DescribeEmpty(parts: seq<(string, string)>)
    ensures Describe(parts) == [] <==> forall k :: 0 <= k < |parts| ==> parts[k].1 == []
  {
    var ls := Labelled(parts);
    if ls != [] {
      assert ls[0] != [] by { LabelledFilled(parts); }
      JoinOfFilled(ls);
    }
  }

  lemma {:induction false} LabelledFilled(parts: seq<(string, string)>)
    ensures forall k :: 0 <= k < |Labelled(parts)| ==> Labelled(parts)[k] != []
  {
    if parts != [] {
      LabelledFilled(parts[1..]);
    }
  }

  lemma JoinOfFilled(ps: seq<string>)
    requires ps != [] && ps[0] != []
    ensures Join(ps, ", ") != []
  {
    if |ps| > 1 {
      assert |Join(ps, ", ")| >= |ps[0]|;
    }
  }

  const Supplier := SupplierInfo("MobileZone", "70300065")

  /** What every record of either sheet has in common: one phone, bought from the same supplier, sold at
      one and a half times its cost, labelled with its first IMEI. */
  predicate Shaped(sheet: Sheet, rec: ImportRecord) {
    && rec.category == "Phone"
    && rec.condition == (if sheet == StockPrices then "New" else "Used")
    && rec.quality == "Original" && rec.itemType == "phone"
    && rec.stockQuantity == 1 && rec.quantity == 1
    && rec.supplier == Some(Supplier)
    && rec.unitCost >= 0.0 && rec.sellingPrice == rec.unitCost * 1.5
    && rec.name == rec.brand + " " + rec.model
    && (forall k :: 0 <= k < |rec.serials| ==> rec.serials[k] != [] && NoSpace(rec.serials[k]))
    && rec.barcode == (if rec.serials == [] then "" else rec.serials[0])
  }

  /** The column holding a sheet's IMEIs. */
  function ImeiColumn(sheet: Sheet): nat {
    if sheet == StockPrices then 2 else 1
  }

  /** The cells a row's record is made from, stripped and parsed. */
  datatype Cells = Cells(brand: string, model: string, imeis: seq<string>, description: string, price: real)

  /** Reading a filled row. New stock has brand, model, IMEIs, specs, colour and price; used phones have
      brand, IMEIs, model, battery, storage and price. */
  function Parse(sheet: Sheet, row: Row): (c: Cells)
    requires |row| >= 6
    ensures c.brand == Strip(row[0]) && c.imeis == ExtractImeis(row[ImeiColumn(sheet)])
    ensures c.price == CleanPrice(row[5]) && Clean(c)
  {
    if sheet == StockPrices then
      Cells(Strip(row[0]), Strip(row[1]), ExtractImeis(row[2]),
            Describe([("Specs", Strip(row[3])), ("Color", Strip(row[4]))]), CleanPrice(row[5]))
    else
      Cells(Strip(row[0]), Strip(row[2]), ExtractImeis(row[1]),
            Describe([("Storage", Strip(row[4])), ("Battery", Strip(row[3]))]), CleanPrice(row[5]))
  }

  /** What reading a row guarantees: IMEIs without whitespace and a price that is not negative. */
  predicate Clean(c: Cells) {
    c.price >= 0.0 && forall k :: 0 <= k < |c.imeis| ==> c.imeis[k] != [] && NoSpace(c.imeis[k])
  }

  /** The record made from a row's cells. */
  function Build(sheet: Sheet, c: Cells): (rec: ImportRecord)
    requires Clean(c)
    ensures Shaped(sheet, rec)
    ensures rec.brand == c.brand && rec.serials == c.imeis && rec.unitCost == c.price
  {
    ImportRecord(
      name := c.brand + " " + c.model, brand := c.brand, model := c.model, category := "Phone",
      description := c.description, condition := if sheet == StockPrices then "New" else "Used",
      quality := "Original", itemType := "phone", sellingPrice := c.price * 1.5, stockQuantity := 1,
      barcode := if c.imeis == [] then "" else c.imeis[0], supplier := Some(Supplier),
      quantity := 1, unitCost := c.price, serials := c.imeis)
  }

  /** The rows that become records, in order. */
  function FilledRows(rows: seq<Row>): (fs: seq<Row>)
    ensures |fs| <= |rows| && forall k :: 0 <= k < |fs| ==> Filled(fs[k])
  {
    if rows == [] then []
    else FilledRows(rows[..|rows| - 1]) + (if Filled(rows[|rows| - 1]) then [rows[|rows| - 1]] else [])
  }

  /** The records of the rows below the header: one per filled row, in row order. */
  function Records(sheet: Sheet, rows: seq<Row>): (recs: seq<ImportRecord>)
    ensures |recs| == |FilledRows(rows)|
  {
    if rows == [] then []
    else Records(sheet, rows[..|rows| - 1]) + RecordOf(sheet, rows[|rows| - 1])
  }

  /** The record of one row, if it is filled. */
  function RecordOf(sheet: Sheet, row: Row): (recs: seq<ImportRecord>)
    ensures |recs| == if Filled(row) then 1 else 0
  {
    if Filled(row) then [Build(sheet, Parse(sheet, row))] else []
  }

  /** Every record has the common shape. */
  lemma {:induction false} RecordsShaped(sheet: Sheet, rows: seq<Row>)
    ensures forall k :: 0 <= k < |Records(sheet, rows)| ==> Shaped(sheet, Records(sheet, rows)[k])
  {
    if rows != [] {
      var init, last := rows[..|rows| - 1], rows[|rows| - 1];
      RecordsShaped(sheet, init);
      RecordOfShaped(sheet, last);
      AllShapedAppend(sheet, Records(sheet, init), RecordOf(sheet, last));
    }
  }

  /** The record of a filled row has the common shape. */
  lemma RecordOfShaped(sheet: Sheet, row: Row)
    ensures forall k :: 0 <= k < |RecordOf(sheet, row)| ==> Shaped(sheet, RecordOf(sheet, row)[k])
  {
  }

  /** Two runs of records of the common shape make one. */
  lemma AllShapedAppend(sheet: Sheet, l: seq<ImportRecord>, r: seq<ImportRecord>)
    requires forall k :: 0 <= k < |l| ==> Shaped(sheet, l[k])
    requires forall k :: 0 <= k < |r| ==> Shaped(sheet, r[k])
    ensures forall k :: 0 <= k < |l + r| ==> Shaped(sheet, (l + r)[k])
  {
    forall k | 0 <= k < |l + r| ensures Shaped(sheet, (l + r)[k]) {
      if k < |l| {
        assert (l + r)[k] == l[k];
      } else {
        assert (l + r)[k] == r[k - |l|];
      }
    }
  }

  /** A single row gives its record when it is filled, and nothing otherwise. */
  lemma RecordsOfOne(sheet: Sheet, row: Row)
    ensures Records(sheet, [row]) == if Filled(row) then [Build(sheet, Parse(sheet, row))] else []
  {
    assert [row][..0] == [];
  }

  /** At most one record per row, and one for every row exactly when every row is filled. */
  lemma {:induction false} FilledRowsCount(rows: seq<Row>)
    ensures |FilledRows(rows)| == |rows| <==> forall i :: 0 <= i < |rows| ==> Filled(rows[i])
  {
    if rows != [] {
      var init := rows[..|rows| - 1];
      FilledRowsCount(init);
      if |FilledRows(rows)| == |rows| {
        forall i | 0 <= i < |rows| ensures Filled(rows[i]) {
          if i < |rows| - 1 {
            assert rows[i] == init[i];
          }
        }
      }
      if forall i :: 0 <= i < |rows| ==> Filled(rows[i]) {
        assert forall i :: 0 <= i < |init| ==> Filled(init[i]) by {
          forall i | 0 <= i < |init| ensures Filled(init[i]) {
            assert init[i] == rows[i];
          }
        }
      }
    }
  }

  /** A row that is not filled is passed over, and a filled one is kept, wherever it stands. */
  lemma {:induction false} FilledRowsAppend(a: seq<Row>, b: seq<Row>)
    ensures FilledRows(a + b) == FilledRows(a) + FilledRows(b)
    decreases |b|
  {
    if b == [] {
      assert a + b == a;
    } else {
      var init := b[..|b| - 1];
      assert (a + b)[..|a + b| - 1] == a + init;
      assert (a + b)[|a + b| - 1] == b[|b| - 1];
      FilledRowsAppend(a, init);
    }
  }

  /** Rows of one sheet contribute their records independently of each other. */
  lemma {:induction false} RecordsAppend(sheet: Sheet, a: seq<Row>, b: seq<Row>)
    ensures Records(sheet, a + b) == Records(sheet, a) + Records(sheet, b)
    decreases |b|
  {
    if b == [] {
      assert a + b == a;
    } else {
      var init, last := b[..|b| - 1], b[|b| - 1];
      assert b == init + [last];
      assert a + b == (a + init) + [last];
      RecordsSnoc(sheet, a + init, last);
      RecordsSnoc(sheet, init, last);
      RecordsAppend(sheet, a, init);
      ConcatAssoc(Records(sheet, a), Records(sheet, init), RecordOf(sheet, last));
    }
  }

  lemma ConcatAssoc<T>(x: seq<T>, y: seq<T>, z: seq<T>)
    ensures (x + y) + z == x + (y + z)
  {
  }

  /** The records of rows and one more row: those of the rows, then the last row's. */
  lemma RecordsSnoc(sheet: Sheet, rows: seq<Row>, row: Row)
    ensures Records(sheet, rows + [row]) == Records(sheet, rows) + RecordOf(sheet, row)
  {
    assert (rows + [row])[..|rows|] == rows;
  }

  /** The records of the first i + 1 rows: those of the first i, then row i's. */
  lemma RecordsStep(sheet: Sheet, rows: seq<Row>, i: nat)
    requires i < |rows|
    ensures Records(sheet, rows[..i + 1]) == Records(sheet, rows[..i]) + RecordOf(sheet, rows[i])
  {
    assert rows[..i + 1] == rows[..i] + [rows[i]];
    RecordsSnoc(sheet, rows[..i], rows[i]);
  }

  /** The header row, which `next(reader, None)` skips, and the rows below it. */
  function Body(rows: seq<Row>): (body: seq<Row>)
    ensures |body| == if rows == [] then 0 else |rows| - 1
  {
    if rows == [] then [] else rows[1..]
  }

  /** One sheet: a `for` loop over the rows below the header appending a record per filled row. */
  method ProcessSheet(sheet: Sheet, rows: seq<Row>) returns (recs: seq<ImportRecord>)
    ensures recs == Records(sheet, Body(rows))
  {
    var body := Body(rows);
    recs := [];
    for i := 0 to |body|
      invariant recs == Records(sheet, body[..i])
    {
      RecordsStep(sheet, body, i);
      if Filled(body[i]) {
        recs := recs + [Build(sheet, Parse(sheet, body[i]))];
      }
    }
    assert body[..|body|] == body;
  }

  /** `process_files`: the new-stock sheet's records followed by the used-phone sheet's; a sheet whose
      file does not exist contributes none. Writing the JSON file is left to the caller. */
  method ProcessFiles(stock: Option<seq<Row>>, used: Option<seq<Row>>) returns (all: seq<ImportRecord>)
    ensures all == (if stock.Some? then Records(StockPrices, Body(stock.value)) else [])
                   + (if used.Some? then Records(UsedIphones, Body(used.value)) else [])
    ensures forall k :: 0 <= k < |all| ==> all[k].supplier.Some? && all[k].quantity == 1
  {
    var first: seq<ImportRecord> := [];
    if stock.Some? {
      first := ProcessSheet(StockPrices, stock.value);
    }
    var second: seq<ImportRecord> := [];
    if used.Some? {
      second := ProcessSheet(UsedIphones, used.value);
    }
    all := first + second;
    if stock.Some? {
      RecordsShaped(StockPrices, Body(stock.value));
    }
    if used.Some? {
      RecordsShaped(UsedIphones, Body(used.value));
    }
    SingleLots(first, second);
  }

  /** Records of the common shape, of either sheet, are single units from a supplier. */
  lemma SingleLots(a: seq<ImportRecord>, b: seq<ImportRecord>)
    requires forall k :: 0 <= k < |a| ==> Shaped(StockPrices, a[k])
    requires forall k :: 0 <= k < |b| ==> Shaped(UsedIphones, b[k])
    ensures forall k :: 0 <= k < |a + b| ==> (a + b)[k].supplier.Some? && (a + b)[k].quantity == 1
  {
    forall k | 0 <= k < |a + b| ensures (a + b)[k].supplier.Some? && (a + b)[k].quantity == 1 {
      if k < |a| {
        assert (a + b)[k] == a[k];
      } else {
        assert (a + b)[k] == b[k - |a|];
      }
    }
  }

  /** A filled row whose IMEI cell lists IMEIs separated by single spaces yields a record with exactly
      those serials, labelled with the first of them. */
  lemma RowSerialsRoundTrip(sheet: Sheet, row: Row, imeis: seq<string>)
    requires |row| >= 6 && row[ImeiColumn(sheet)] == Join(imeis, " ")
    requires forall k :: 0 <= k < |imeis| ==> imeis[k] != [] && NoSpace(imeis[k])
    ensures Build(sheet, Parse(sheet, row)).serials == imeis
    ensures Build(sheet, Parse(sheet, row)).barcode == if imeis == [] then "" else imeis[0]
  {
    ExtractImeisOfJoin(imeis);
  }
}
