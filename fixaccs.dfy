/** The accessory-sheet repair script: each row (a dictionary from column name to text) has its values
    stripped, and then its brand, model and category filled in from the description by a few rules for
    the MOXOM and Green Lion product lines. */
module FixAccs {
  import opened Wrappers
  import opened Text

  type Cells = map<string, string>

  /** `row.get(key, '')`. */
  function Get(cells: Cells, key: string): string {
    if key in cells then cells[key] else ""
  }

  /** The row after the stripping loop: every non-empty value stripped. */
  function StripValues(cells: Cells): (r: Cells)
    ensures r.Keys == cells.Keys
  {
    map k | k in cells :: if cells[k] != "" then Strip(cells[k]) else cells[k]
  }

  /** `s.split()`: the whitespace-separated words of s. */
  function Words(s: string): (ws: seq<string>)
    ensures forall k :: 0 <= k < |ws| ==> ws[k] != [] && NoSpace(ws[k])
  {
    var r := NonEmpty(SplitRuns(s));
    assert forall k :: 0 <= k < |r| ==> NoSpace(r[k]) by {
      forall k | 0 <= k < |r| ensures NoSpace(r[k]) {
        var ps := SplitRuns(s);
        var j :| 0 <= j < |ps| && ps[j] == r[k];
      }
    }
    r
  }

  /** The index of the first of `parts` containing `sub`, or `|parts|` when none does. */
  function FirstWith(parts: seq<string>, sub: string): (i: nat)
    ensures i <= |parts|
    ensures i < |parts| ==> Contains(parts[i], sub)
    ensures forall j :: 0 <= j < i ==> !Contains(parts[j], sub)
  {
    if parts == [] then 0
    else if Contains(parts[0], sub) then 0
    else 1 + FirstWith(parts[1..], sub)
  }

  /** The `for part in parts` loop that stops at the first part containing `sub`. */
  method FindFirst(parts: seq<string>, sub: string) returns (i: nat)
    ensures i == FirstWith(parts, sub)
  {
    i := 0;
    while i < |parts|
      invariant i <= |parts|
      invariant forall j :: 0 <= j < i ==> !Contains(parts[j], sub)
    {
      if Contains(parts[i], sub) {
        break;
      }
      i := i + 1;
    }
  }

  /** The three columns the rules write. */
  datatype Fields = Fields(brand: string, model: string, category: string)

  /** "MOXOM" occurs in the description, ignoring case. */
  predicate Moxom(desc: string) {
    Contains(Upper(desc), "MOXOM")
  }

  /** The first word of the description containing "MX-", or "" when there is none. */
  function MxWord(desc: string): string {
    var ws := Words(desc);
    var i := FirstWith(ws, "MX-");
    if i < |ws| then ws[i] else ""
  }

  /** The MOXOM rules: an empty or "china" brand becomes MOXOM, an empty model the first "MX-" word,
      and an empty category "holder" when the description mentions "MX-VS". */
  function MoxomRules(desc: string, f: Fields): Fields {
    if !Moxom(desc) then f
    else Fields(
      if f.brand == "" || Lower(f.brand) == "china" then "MOXOM" else f.brand,
      if f.model == "" then MxWord(desc) else f.model,
      if Contains(desc, "MX-VS") && f.category == "" then "holder" else f.category)
  }

  /** The model a Green Lion item without one takes: the description, less a leading "GL ". */
  function GreenLionModel(desc: string): string {
    if StartsWith(desc, "GL ") then Strip(desc[3..]) else desc
  }

  /** The rules of `fix_row` in order: MOXOM, then Green Lion, then an empty model falls back to the
      description. */
  function Rules(desc: string, f: Fields): (r: Fields)
    ensures desc != "" ==> r.model != ""
  {
    var m := MoxomRules(desc, f);
    var brand := if Contains(Lower(m.brand), "green lion") then "Green Lion" else m.brand;
    var model := if brand == "Green Lion" && m.model == "" then GreenLionModel(desc) else m.model;
    Fields(brand, if model == "" && desc != "" then desc else model, m.category)
  }

  /** The brand, model and category a row holds, "" where a column is missing. */
  function FieldsOf(cells: Cells): Fields {
    Fields(Get(cells, "Brand"), Get(cells, "Model"), Get(cells, "Category"))
  }

  /** The row with brand, model and category set to `f`'s. */
  function Write(cells: Cells, f: Fields): Cells {
    cells["Brand" := f.brand]["Model" := f.model]["Category" := f.category]
  }

  /** The row `fix_row` returns. */
  function FixedCells(cells: Cells): Cells {
    var s := StripValues(cells);
    Write(s, Rules(Get(s, "Description"), FieldsOf(s)))
  }

  /** Partway through the stripping loop: the values under `keys` are as they were, the others stripped. */
  predicate StrippedBut(before: Cells, cur: Cells, keys: set<string>) {
    && keys <= before.Keys && cur.Keys == before.Keys
    && (forall k :: k in keys ==> cur[k] == before[k])
    && (forall k :: k in before && k !in keys ==> cur[k] == StripValues(before)[k])
  }

  /** Stripping the value under one more key keeps the loop's invariant. */
  lemma StripStep(before: Cells, cur: Cells, next: Cells, keys: set<string>, k: string)
    requires StrippedBut(before, cur, keys) && k in keys
    requires next == if cur[k] != "" then cur[k := Strip(cur[k])] else cur
    ensures StrippedBut(before, next, keys - {k})
  {
    assert cur[k] == before[k];
  }

  /** With no key left, every value is stripped. */
  lemma StrippedAll(before: Cells, cur: Cells)
    requires StrippedBut(before, cur, {})
    ensures cur == StripValues(before)
  {
  }

  /** A row from the sheet, changed in place by `fix_row`. */
  class AccessoryRow {
    var cells: Cells

    constructor (cells: Cells)
      ensures this.cells == cells
    {
      this.cells := cells;
    }

    /** The stripping loop: each non-empty value is replaced by its stripped text. */
    method StripAll()
      modifies this
      ensures cells == StripValues(old(cells))
    {
      var keys := cells.Keys;
      ghost var before := cells;
      while keys != {}
        invariant StrippedBut(before, cells, keys)
        decreases |keys|
      {
        var k :| k in keys;
        ghost var cur := cells;
        if cells[k] != "" {
          cells := cells[k := Strip(cells[k])];
        }
        StripStep(before, cur, cells, keys, k);
        keys := keys - {k};
      }
      StrippedAll(before, cells);
    }

    /** `fix_row`: strip, apply the rules, and write Brand, Model and Category back. */
    method Fix()
      modifies this
      ensures cells == FixedCells(old(cells))
    {
      StripAll();
      var desc := Get(cells, "Description");
      var f := ApplyRules(desc, FieldsOf(cells));
      cells := cells["Brand" := f.brand]["Model" := f.model]["Category" := f.category];
    }
  }

  /** The MOXOM block of `fix_row`. */
  method ApplyMoxom(desc: string, f: Fields) returns (r: Fields)
    ensures r == MoxomRules(desc, f)
  {
    var brand, model, category := f.brand, f.model, f.category;
    if Contains(Upper(desc), "MOXOM") {
      if brand == "" || Lower(brand) == "china" {
        brand := "MOXOM";
      }
      if model == "" {
        var parts := Words(desc);
        var i := FindFirst(parts, "MX-");
        if i < |parts| {
          model := parts[i];
        }
      }
      if Contains(desc, "MX-VS") && category == "" {
        category := "holder";
      }
    }
    r := Fields(brand, model, category);
  }

  /** The rule blocks of `fix_row` in order, on the stripped description, brand, model and category. */
  method ApplyRules(desc: string, f: Fields) returns (r: Fields)
    ensures r == Rules(desc, f)
  {
    var m := ApplyMoxom(desc, f);
    var brand, model := m.brand, m.model;
    if Contains(Lower(brand), "green lion") {
      brand := "Green Lion";
    }
    ghost var named := brand;
    if brand == "Green Lion" && model == "" {
      if StartsWith(desc, "GL ") {
        model := Strip(desc[3..]);
      } else {
        model := desc;
      }
    }
    ghost var filled := model;
    assert filled == if named == "Green Lion" && m.model == "" then GreenLionModel(desc) else m.model;
    if model == "" && desc != "" {
      model := desc;
    }
    r := Fields(brand, model, m.category);
    RulesOf(desc, f, m, named, filled);
  }

  /** `Rules` read through the values the rule blocks compute one after the other. */
  lemma RulesOf(desc: string, f: Fields, m: Fields, named: string, filled: string)
    requires m == MoxomRules(desc, f)
    requires named == if Contains(Lower(m.brand), "green lion") then "Green Lion" else m.brand
    requires filled == if named == "Green Lion" && m.model == "" then GreenLionModel(desc) else m.model
    ensures Rules(desc, f) == Fields(named, if filled == "" && desc != "" then desc else filled, m.category)
  {
  }

  /** The rows of the sheet, each fixed, in order. */
  function FixedRows(rows: seq<Cells>): (out: seq<Cells>)
    ensures |out| == |rows|
  {
    seq(|rows|, i requires 0 <= i < |rows| => FixedCells(rows[i]))
  }

  /** Fixing one more row of the sheet appends its fixed form. */
  lemma FixedRowsStep(rows: seq<Cells>, i: nat)
    requires i < |rows|
    ensures FixedRows(rows[..i + 1]) == FixedRows(rows[..i]) + [FixedCells(rows[i])]
  {
    assert rows[..i + 1] == rows[..i] + [rows[i]];
    FixedRowsAppend(rows[..i], rows[i]);
  }

  /** The same, for a sheet given as its rows so far and the next one. */
  lemma FixedRowsAppend(rows: seq<Cells>, row: Cells)
    ensures FixedRows(rows + [row]) == FixedRows(rows) + [FixedCells(row)]
  {
  }

  /** `main`: every row of the sheet fixed in turn, in order; nothing is written when the file is missing
      or has no rows. */
  method FixSheet(sheet: Option<seq<Cells>>) returns (written: Option<seq<Cells>>)
    ensures sheet.None? || sheet.value == [] ==> written.None?
    ensures sheet.Some? && sheet.value != [] ==> written == Some(FixedRows(sheet.value))
  {
    if sheet.None? {
      return None;
    }
    var rows := sheet.value;
    var fixed: seq<Cells> := [];
    for i := 0 to |rows|
      invariant fixed == FixedRows(rows[..i])
    {
      var cells := FixRow(rows[i]);
      FixedRowsStep(rows, i);
      fixed := fixed + [cells];
    }
    assert rows[..|rows|] == rows;
    if fixed == [] {
      return None;
    }
    written := Some(fixed);
  }

  /** One pass of the loop in `main`: the reader's fresh row, fixed in place by `fix_row`. */
  method FixRow(cells: Cells) returns (fixed: Cells)
    ensures fixed == FixedCells(cells)
  {
    var row := new AccessoryRow(cells);
    row.Fix();
    fixed := row.cells;
  }

  // ---------------------------------------------------------------------------------------------
  // What the rules promise

  /** Only Brand, Model and Category are written: every other value is just stripped, and no column
      disappears. */
  lemma FixedTouchesThree(cells: Cells)
    ensures FixedCells(cells).Keys == cells.Keys + {"Brand", "Model", "Category"}
    ensures forall k :: k in cells && k !in {"Brand", "Model", "Category"} ==> FixedCells(cells)[k] == Strip(cells[k])
  {
    forall k | k in cells && k !in {"Brand", "Model", "Category"} ensures FixedCells(cells)[k] == Strip(cells[k]) {
      if cells[k] == "" {
        assert Strip(cells[k]) == "";
      }
    }
  }

  /** A MOXOM description turns an empty or "china" brand into MOXOM. */
  lemma MoxomBrand(desc: string, f: Fields)
    requires Moxom(desc) && (f.brand == "" || Lower(f.brand) == "china")
    ensures Rules(desc, f).brand == "MOXOM"
  {
    assert Lower("MOXOM") == "moxom";
    NotContainsLonger("moxom", "green lion");
  }

  /** A MOXOM description gives an item without a model the first word containing "MX-", when there is
      one. */
  lemma MoxomModel(desc: string, f: Fields)
    requires Moxom(desc) && f.model == "" && FirstWith(Words(desc), "MX-") < |Words(desc)|
    ensures Rules(desc, f).model == Words(desc)[FirstWith(Words(desc), "MX-")]
  {
  }

  /** The category changes exactly when it was empty and the description is a MOXOM one mentioning
      "MX-VS"; it then becomes "holder". */
  lemma HolderCategory(desc: string, f: Fields)
    ensures Rules(desc, f).category != f.category <==> Moxom(desc) && Contains(desc, "MX-VS") && f.category == ""
    ensures Rules(desc, f).category != f.category ==> Rules(desc, f).category == "holder"
  {
  }

  /** A brand containing "green lion" in any case becomes "Green Lion"; without a MOXOM description and
      with no model, the model becomes the description less a leading "GL " (or the whole description if
      that leaves nothing). */
  lemma GreenLion(desc: string, f: Fields)
    requires Contains(Lower(f.brand), "green lion")
    ensures Rules(desc, f).brand == "Green Lion"
    ensures !Moxom(desc) && f.model == "" ==>
              Rules(desc, f).model == (if GreenLionModel(desc) == "" then desc else GreenLionModel(desc))
  {
  }

  /** Neither the brand nor the category changes, and the model only when it was empty, unless a MOXOM
      description or a Green Lion brand applies. */
  lemma RulesOtherwise(desc: string, f: Fields)
    requires !Moxom(desc) && !Contains(Lower(f.brand), "green lion")
    ensures Rules(desc, f).brand == f.brand && Rules(desc, f).category == f.category
    ensures Rules(desc, f).model == if f.model == "" then desc else f.model
  {
    NotGreenLion(f.brand);
  }

  /** Only a brand mentioning "green lion" in some case can be "Green Lion". */
  lemma NotGreenLion(brand: string)
    requires !Contains(Lower(brand), "green lion")
    ensures brand != "Green Lion"
  {
    GreenLionNamed();
  }

  /** "Green Lion" mentions "green lion" once lower-cased. */
  lemma GreenLionNamed()
    ensures Contains(Lower("Green Lion"), "green lion")
  {
    assert Lower("Green Lion") == "green lion";
    assert OccursAt("green lion", "green lion", 0);
  }

  /** No text contains a longer one. */
  lemma NotContainsLonger(s: string, sub: string)
    requires |s| < |sub|
    ensures !Contains(s, sub)
  {
  }

  /** Running the script on its own output changes nothing. */
  lemma FixIdempotent(cells: Cells)
    ensures FixedCells(FixedCells(cells)) == FixedCells(cells)
  {
    var s := StripValues(cells);
    var desc, f := Get(s, "Description"), FieldsOf(s);
    var r := Rules(desc, f);
    var once := Write(s, r);
    StrippedValues(cells);
    GetTrimmed(s, "Description");
    GetTrimmed(s, "Brand");
    GetTrimmed(s, "Model");
    GetTrimmed(s, "Category");
    RulesTrimmed(desc, f);
    WriteTrimmed(s, r);
    TrimmedRow(once);
    WriteRead(s, r);
    RulesIdempotent(desc, f);
    Settled(once, desc, r);
  }

  /** A row that needs no stripping and whose fields the rules leave alone is a fixed point. */
  lemma Settled(once: Cells, desc: string, r: Fields)
    requires StripValues(once) == once && Get(once, "Description") == desc && FieldsOf(once) == r
    requires Rules(desc, r) == r && Write(once, r) == once
    ensures FixedCells(once) == once
  {
  }

  /** Writing fields back leaves the description alone, reads back as written, and a second write of
      the same fields changes nothing. */
  lemma WriteRead(cells: Cells, f: Fields)
    ensures Get(Write(cells, f), "Description") == Get(cells, "Description")
    ensures FieldsOf(Write(cells, f)) == f
    ensures Write(Write(cells, f), f) == Write(cells, f)
  {
  }

  /** Trimmed fields written back into a trimmed row leave every value trimmed. */
  lemma WriteTrimmed(s: Cells, r: Fields)
    requires forall k :: k in s ==> Trimmed(s[k])
    requires Trimmed(r.brand) && Trimmed(r.model) && Trimmed(r.category)
    ensures forall k :: k in Write(s, r) ==> Trimmed(Write(s, r)[k])
  {
  }

  /** The values a row's Get returns are trimmed when the row's are. */
  lemma GetTrimmed(s: Cells, key: string)
    requires forall k :: k in s ==> Trimmed(s[k])
    ensures Trimmed(Get(s, key))
  {
  }

  /** Text with no whitespace at either end. */
  predicate Trimmed(s: string) {
    s == [] || (!IsSpace(s[0]) && !IsSpace(s[|s| - 1]))
  }

  /** Every value of the stripped row is trimmed. */
  lemma StrippedValues(cells: Cells)
    ensures forall k :: k in StripValues(cells) ==> Trimmed(StripValues(cells)[k])
  {
  }

  /** Stripping a row whose values are all trimmed changes nothing. */
  lemma TrimmedRow(cells: Cells)
    requires forall k :: k in cells ==> Trimmed(cells[k])
    ensures StripValues(cells) == cells
  {
    forall k | k in cells ensures StripValues(cells)[k] == cells[k] {
      StripOfTrimmed(cells[k]);
    }
  }

  /** Applied to trimmed values, the rules produce trimmed values. */
  lemma RulesTrimmed(desc: string, f: Fields)
    requires Trimmed(desc) && Trimmed(f.brand) && Trimmed(f.model) && Trimmed(f.category)
    ensures Trimmed(Rules(desc, f).brand) && Trimmed(Rules(desc, f).model) && Trimmed(Rules(desc, f).category)
  {
    MoxomTrimmed(desc, f);
    assert Trimmed("Green Lion");
    assert Trimmed(GreenLionModel(desc));
  }

  lemma MoxomTrimmed(desc: string, f: Fields)
    requires Trimmed(f.brand) && Trimmed(f.model) && Trimmed(f.category)
    ensures var m := MoxomRules(desc, f); Trimmed(m.brand) && Trimmed(m.model) && Trimmed(m.category)
  {
    assert Trimmed("MOXOM") && Trimmed("holder");
    MxWordTrimmed(desc);
  }

  lemma MxWordTrimmed(desc: string)
    ensures Trimmed(MxWord(desc))
  {
    var ws := Words(desc);
    var i := FirstWith(ws, "MX-");
    if i < |ws| {
      assert NoSpace(ws[i]) && ws[i] != [];
    }
  }

  /** The rules applied to their own result change nothing. */
  lemma RulesIdempotent(desc: string, f: Fields)
    ensures Rules(desc, Rules(desc, f)) == Rules(desc, f)
  {
    var r := Rules(desc, f);
    var m := MoxomRules(desc, f);
    // The brand is settled: MOXOM and Green Lion are fixed points, and any other brand was kept.
    assert Lower("MOXOM") == "moxom";
    NotContainsLonger("moxom", "green lion");
    assert Lower("Green Lion") == "green lion";
    assert OccursAt("green lion", "green lion", 0);
    // The category is settled: a non-empty one is kept.
    assert MoxomRules(desc, r).category == r.category;
    // The model is settled unless it is still empty, which only an empty description allows.
    if r.model == "" {
      assert desc == "";
      assert !Moxom(desc) by {
        assert Upper(desc) == "";
        NotContainsLonger("", "MOXOM");
      }
    }
    assert MoxomRules(desc, r).brand == r.brand;
    assert MoxomRules(desc, r).model == r.model;
  }
}
