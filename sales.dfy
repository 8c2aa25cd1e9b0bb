/** The sale handlers: creating a sale with its totals, the status change that confirms a draft (consuming
    stock FIFO) or refunds/cancels a confirmed sale (returning it), deleting a sale, recording a payment and
    the daily report. */
module Sales {
  import opened Wrappers
  import opened Entities
  import opened Text
  import opened Fifo
  import opened Ordering
  import opened Store
  import opened Consume
  import opened Billing

  // ---------------------------------------------------------------------------------------------------
  // Totals

  /** One requested line of a new sale. */
  datatype LineRequest = LineRequest(itemId: int, quantity: int, unitPrice: real, discount: Option<real>)

  function LineTotal(r: LineRequest): real {
    r.unitPrice * r.quantity as real - r.discount.GetOr(0.0)
  }

  /** The sum of the stored line totals. */
  function LinesTotal(lines: seq<SaleItem>): real {
    if lines == [] then 0.0 else LinesTotal(lines[..|lines| - 1]) + lines[|lines| - 1].total
  }

  /** `subtotal·v/100` for a percentage discount, `v` for a fixed one, and nothing when the type is
      neither or the value is missing or zero. */
  function DiscountAmount(subtotal: real, discountType: Option<string>, value: Option<real>): (d: real)
    ensures !Given(value) ==> d == 0.0
    ensures discountType != Some("percentage") && discountType != Some("fixed") ==> d == 0.0
    ensures discountType == Some("fixed") && Given(value) ==> d == value.value
    ensures discountType == Some("percentage") && Given(value) ==> d * 100.0 == subtotal * value.value
  {
    if discountType == Some("percentage") && Given(value) then subtotal * (value.value / 100.0)
    else if discountType == Some("fixed") && Given(value) then value.value
    else 0.0
  }

  /** A percentage between 0 and 100 of a non-negative subtotal never exceeds the subtotal. */
  lemma PercentWithinSubtotal(subtotal: real, v: real)
    requires subtotal >= 0.0 && 0.0 <= v <= 100.0
    ensures 0.0 <= DiscountAmount(subtotal, Some("percentage"), Some(v)) <= subtotal
  {
    if v != 0.0 {
      var f := v / 100.0;
      var d := DiscountAmount(subtotal, Some("percentage"), Some(v));
      ScaleDown(subtotal, f, d);
    }
  }

  /** A fraction of a non-negative amount lies between zero and the amount. */
  lemma ScaleDown(a: real, f: real, d: real)
    requires a >= 0.0 && 0.0 <= f <= 1.0 && d == a * f
    ensures 0.0 <= d <= a
  {
    assert a * f + a * (1.0 - f) == a;
    assert a * (1.0 - f) >= 0.0;
  }

  function TaxAmount(subtotal: real, discount: real, taxRate: Option<real>): real {
    (subtotal - discount) * taxRate.GetOr(0.0)
  }

  /** With a percentage discount between 0 and 100 and a non-negative tax rate, the amount due of a
      non-negative subtotal is never negative and never more than the subtotal with tax added. */
  lemma PercentageTotalBounds(subtotal: real, v: real, rate: real)
    requires subtotal >= 0.0 && 0.0 <= v <= 100.0 && rate >= 0.0
    ensures var d := DiscountAmount(subtotal, Some("percentage"), Some(v));
            0.0 <= subtotal - d + TaxAmount(subtotal, d, Some(rate)) <= subtotal * (1.0 + rate)
  {
    var d := DiscountAmount(subtotal, Some("percentage"), Some(v));
    PercentWithinSubtotal(subtotal, v);
    var net := subtotal - d;
    assert subtotal - d + TaxAmount(subtotal, d, Some(rate)) == net * (1.0 + rate);
    assert net * (1.0 + rate) >= 0.0;
    assert subtotal * (1.0 + rate) - net * (1.0 + rate) == d * (1.0 + rate);
    assert d * (1.0 + rate) >= 0.0;
  }

  /** `SALE-<year>-<count + 1>`, the counter padded to four digits. */
  function SaleNumber(year: nat, count: nat): string {
    "SALE-" + Decimal(year) + "-" + Counter(count + 1)
  }

  /** Different sale counts in the same year give different sale numbers, and the counter reads back. */
  lemma SaleNumberDistinct(year: nat, a: nat, b: nat)
    ensures SaleNumber(year, a) == SaleNumber(year, b) ==> a == b
    ensures var c := SaleNumber(year, a)[|"SALE-" + Decimal(year) + "-"|..];
            AllDigits(c) && DigitsValue(c) == a + 1
  {
    var prefix := "SALE-" + Decimal(year) + "-";
    NumberedReadsBack(prefix, a + 1);
    if SaleNumber(year, a) == SaleNumber(year, b) {
      NumberedInjective(prefix, a + 1, b + 1);
    }
  }

  // ---------------------------------------------------------------------------------------------------
  // Create

  predicate LineAccepted(items: map<int, Item>, r: LineRequest) {
    r.itemId in items && items[r.itemId].stockQuantity >= r.quantity
  }

  /** The error of the first line that is refused: 404 for an unknown item, 400 for too little stock. */
  function Rejection(items: map<int, Item>, reqs: seq<LineRequest>): Option<int> {
    if reqs == [] then None
    else if reqs[0].itemId !in items then Some(404)
    else if items[reqs[0].itemId].stockQuantity < reqs[0].quantity then Some(400)
    else Rejection(items, reqs[1..])
  }

  /** No line is refused exactly when every line names an existing item with enough stock. */
  lemma {:induction false} RejectionNone(items: map<int, Item>, reqs: seq<LineRequest>)
    ensures Rejection(items, reqs) == None <==> forall i :: 0 <= i < |reqs| ==> LineAccepted(items, reqs[i])
    decreases |reqs|
  {
    if reqs != [] {
      RejectionNone(items, reqs[1..]);
      assert forall i :: 1 <= i < |reqs| ==> reqs[i] == reqs[1..][i - 1];
    }
  }

  /** Lines already accepted do not decide the outcome. */
  lemma {:induction false} RejectionFrom(items: map<int, Item>, reqs: seq<LineRequest>, i: int)
    requires 0 <= i <= |reqs| && forall j :: 0 <= j < i ==> LineAccepted(items, reqs[j])
    ensures Rejection(items, reqs) == Rejection(items, reqs[i..])
    decreases i
  {
    if i > 0 {
      assert reqs[1..][i - 1..] == reqs[i..];
      RejectionFrom(items, reqs[1..], i - 1);
    }
  }

  /** The stored line for request `r`, with id `id`. */
  function LineRow(r: LineRequest, id: int): SaleItem {
    SaleItem(id, r.itemId, r.quantity, r.unitPrice, r.discount.GetOr(0.0), LineTotal(r))
  }

  /** Check the requested lines in order and build their rows, ids from `base` on, with their subtotal;
      the first refused line's error (see `Rejection`) stops it. */
  method BuildLines(items: map<int, Item>, reqs: seq<LineRequest>, base: int)
    returns (r: Result<seq<SaleItem>>, subtotal: real)
    ensures r.Err? <==> Rejection(items, reqs).Some?
    ensures r.Err? ==> r.code == Rejection(items, reqs).value
    ensures r.Ok? ==> && |r.value| == |reqs| && subtotal == LinesTotal(r.value)
                      && forall i :: 0 <= i < |reqs| ==> r.value[i] == LineRow(reqs[i], base + i)
    ensures r.Ok? ==> forall i :: 0 <= i < |reqs| ==> LineAccepted(items, reqs[i])
  {
    subtotal := 0.0;
    var lines: seq<SaleItem> := [];
    var i := 0;
    while i < |reqs|
      invariant 0 <= i <= |reqs| && |lines| == i
      invariant forall j :: 0 <= j < i ==> LineAccepted(items, reqs[j])
      invariant forall j :: 0 <= j < i ==> lines[j] == LineRow(reqs[j], base + j)
      invariant subtotal == LinesTotal(lines)
    {
      var req := reqs[i];
      if req.itemId !in items || items[req.itemId].stockQuantity < req.quantity {
        RejectionFrom(items, reqs, i);
        return Err(if req.itemId !in items then 404 else 400), subtotal;
      }
      var line := LineRow(req, base + i);
      assert (lines + [line])[..i] == lines;
      subtotal := subtotal + line.total;
      lines := lines + [line];
      i := i + 1;
    }
    RejectionNone(items, reqs);
    r := Ok(lines);
  }

  /** Create a draft sale. The request is refused with 400 when it has no lines, with the first refused
      line's error (see `Rejection`) and with 400 when the customer does not exist (the foreign key). */
  method Create(db: Db, customerId: Option<int>, reqs: seq<LineRequest>, discountType: Option<string>,
                discountValue: Option<real>, taxRate: Option<real>, year: nat, now: int)
    returns (r: Result<int>)
    requires db.Valid()
    modifies db`sales, db`nextId
    ensures db.Valid()
    ensures reqs == [] ==> r == Err(400)
    ensures reqs != [] && Rejection(db.items, reqs).Some? ==> r == Err(Rejection(db.items, reqs).value)
    ensures r.Ok? <==> reqs != [] && Rejection(db.items, reqs) == None
                       && (customerId.Some? ==> customerId.value in db.customers)
    ensures r.Err? ==> db.sales == old(db.sales) && db.nextId == old(db.nextId)
    ensures r.Ok? ==>
              && r.value == old(db.nextId) && r.value !in old(db.sales)
              && db.nextId == old(db.nextId) + 1 + |reqs|
              && r.value in db.sales && db.sales == old(db.sales)[r.value := db.sales[r.value]]
              && var s := db.sales[r.value];
                 && s.saleNumber == SaleNumber(year, |old(db.sales)|)
                 && s.customerId == customerId && s.status == "draft" && s.paymentStatus == Pending
                 && |s.items| == |reqs|
                 && (forall i :: 0 <= i < |reqs| ==> s.items[i] == LineRow(reqs[i], old(db.nextId) + 1 + i))
                 && s.subtotal == LinesTotal(s.items)
                 && s.discountType == discountType && s.discountValue == discountValue.GetOr(0.0)
                 && s.discountAmount == DiscountAmount(s.subtotal, discountType, discountValue)
                 && s.taxRate == taxRate.GetOr(0.0)
                 && s.taxAmount == TaxAmount(s.subtotal, s.discountAmount, taxRate)
                 && s.totalAmount == s.subtotal - s.discountAmount + s.taxAmount
                 && s.cogs == 0.0 && s.profit == 0.0 && s.saleDate == now
  {
    if reqs == [] {
      return Err(400);
    }
    var built, subtotal := BuildLines(db.items, reqs, db.nextId + 1);
    if built.Err? {
      return Err(built.code);
    }
    if customerId.Some? && customerId.value !in db.customers {
      return Err(400);
    }
    var lines := built.value;
    var discount := DiscountAmount(subtotal, discountType, discountValue);
    var tax := TaxAmount(subtotal, discount, taxRate);
    var sale := Sale(SaleNumber(year, |db.sales|), customerId, "draft", Pending, subtotal, discountType,
                     discountValue.GetOr(0.0), discount, taxRate.GetOr(0.0), tax, subtotal - discount + tax,
                     0.0, 0.0, now, lines);
    var id := db.AddSale(sale);
    r := Ok(id);
  }

  // ---------------------------------------------------------------------------------------------------
  // Status transitions

  /** Stock is consumed only when a draft is confirmed. */
  predicate Confirms(from: string, to: string) {
    to == "confirmed" && from == "draft"
  }

  /** The statuses in which a sale holds stock. */
  predicate Holding(status: string) {
    status == "confirmed" || status == "paid" || status == "partial"
  }

  /** Stock is returned only when a sale holding stock is refunded or cancelled. */
  predicate Reverses(from: string, to: string) {
    (to == "refunded" || to == "cancelled") && Holding(from)
  }

  /** Each transition fires once: after a confirmation the sale is no longer a draft, and after a refund or
      cancellation it no longer holds stock. */
  lemma TransitionsFireOnce(from: string, to: string, next: string)
    ensures Confirms(from, to) ==> !Confirms(to, next) && !Confirms(to, to)
    ensures Reverses(from, to) ==> !Reverses(to, next) && !Reverses(to, to)
    ensures !(Confirms(from, to) && Reverses(from, to))
  {
  }

  /** A sale that received a payment is marked "Confirmed" (capital C), a status from which neither
      transition fires: refunding or cancelling it returns no stock. */
  lemma PaidSaleIsFrozen(to: string)
    ensures !Confirms("Confirmed", to) && !Reverses("Confirmed", to)
  {
  }

  /** The usage log's unit cost: the cost of goods over the quantity (0 for a zero quantity). */
  function UnitCost(cogs: real, quantity: int): real {
    if quantity == 0 then 0.0 else cogs / quantity as real
  }

  /** The stock count confirmation leaves: when the serials covered the whole quantity it becomes
      `max(0, available serials − quantity)`, otherwise it drops by the quantity. */
  function ConfirmedStock(stock: int, available: int, quantity: int, short: bool): (r: int)
    ensures !short ==> r >= 0 && r >= available - quantity && (r == 0 || r == available - quantity)
    ensures short ==> r == stock - quantity
  {
    if short then stock - quantity else Max(0, available - quantity)
  }

  /** `items` with one item's stock count replaced. */
  function Restocked(items: map<int, Item>, itemId: int, stock: int): (r: map<int, Item>)
    requires itemId in items
    ensures r.Keys == items.Keys && r[itemId].stockQuantity == stock
    ensures forall k :: k in items && k != itemId ==> r[k] == items[k]
  {
    items[itemId := items[itemId].(stockQuantity := stock)]
  }

  /** Confirm one line on the tables: consume its units FIFO (see `Consume.Consumed`), set the item's stock
      (see `ConfirmedStock`) and produce the usage row to log. */
  method ConfirmLine(l: Ledger, items: map<int, Item>, line: SaleItem, saleNumber: string, n: int)
    returns (l': Ledger, items': map<int, Item>, usage: StockUsage, cogs: real, short: bool,
             serialOrder: seq<int>, batchOrder: seq<int>)
    requires LedgerValid(l, n) && line.itemId in items && line.id < n
    ensures LedgerValid(l', n)
    ensures Consumed(l, l', cogs, short, line.itemId, line.quantity, ForSaleItem(line.id), serialOrder, batchOrder)
    ensures items' == Restocked(items, line.itemId, ConfirmedStock(items[line.itemId].stockQuantity,
                                  |AvailableOf(l.serials, line.itemId)|, line.quantity, short))
    ensures usage == StockUsage(line.itemId, None, line.quantity, UnitCost(cogs, line.quantity), "Sale " + saleNumber)
    ensures ConfirmsLine(l, items, line, saleNumber, LineStep(l', items', cogs, short, serialOrder, batchOrder), usage)
  {
    var available := |AvailableOf(l.serials, line.itemId)|;
    l', cogs, short, serialOrder, batchOrder := ConsumeTables(l, line.itemId, line.quantity, ForSaleItem(line.id), n);
    items' := Restocked(items, line.itemId, ConfirmedStock(items[line.itemId].stockQuantity, available, line.quantity, short));
    usage := StockUsage(line.itemId, None, line.quantity, UnitCost(cogs, line.quantity), "Sale " + saleNumber);
  }

  /** What confirming one line left behind: the tables after its FIFO draw, the items after its stock
      count was set, its cost of goods, whether the serials fell short, and the orders the serials and
      batches were taken in. */
  datatype LineStep = LineStep(ledger: Ledger, items: map<int, Item>, cogs: real, short: bool,
                               serialOrder: seq<int>, batchOrder: seq<int>)

  /** Step `s` confirms `line` of sale `saleNumber` from tables `l` and `items` and logs usage row `u`:
      the line's quantity is consumed FIFO (see `Consume.Consumed`), the item's stock count is set (see
      `ConfirmedStock`) and the row carries the cost of goods per unit. */
  predicate ConfirmsLine(l: Ledger, items: map<int, Item>, line: SaleItem, saleNumber: string, s: LineStep,
                         u: StockUsage)
  {
    && line.itemId in items
    && Consumed(l, s.ledger, s.cogs, s.short, line.itemId, line.quantity, ForSaleItem(line.id), s.serialOrder, s.batchOrder)
    && s.items == Restocked(items, line.itemId, ConfirmedStock(items[line.itemId].stockQuantity,
                              |AvailableOf(l.serials, line.itemId)|, line.quantity, s.short))
    && u == StockUsage(line.itemId, None, line.quantity, UnitCost(s.cogs, line.quantity), "Sale " + saleNumber)
  }

  /** The tables step `i` of a confirmation starts from: the initial ones, or those step `i − 1` left. */
  function TablesBefore(l: Ledger, items: map<int, Item>, steps: seq<LineStep>, i: nat): (Ledger, map<int, Item>)
    requires i <= |steps|
  {
    if i == 0 then (l, items) else (steps[i - 1].ledger, steps[i - 1].items)
  }

  /** A confirmation of `lines` told line by line: each line is confirmed (see `ConfirmsLine`) on the
      tables the line before it left, and `logged` holds their usage rows in line order. */
  predicate ConfirmTrace(l: Ledger, items: map<int, Item>, lines: seq<SaleItem>, saleNumber: string,
                         steps: seq<LineStep>, logged: seq<StockUsage>)
  {
    && |steps| == |lines| && |logged| == |lines|
    && (lines != [] ==>
          && ConfirmTrace(l, items, lines[..|lines| - 1], saleNumber, steps[..|steps| - 1], logged[..|logged| - 1])
          && var t := TablesBefore(l, items, steps, |steps| - 1);
             ConfirmsLine(t.0, t.1, lines[|lines| - 1], saleNumber, steps[|steps| - 1], logged[|logged| - 1]))
  }

  /** The sum of the steps' costs of goods. */
  function StepsCogs(steps: seq<LineStep>): real {
    if steps == [] then 0.0 else StepsCogs(steps[..|steps| - 1]) + steps[|steps| - 1].cogs
  }

  /** A trace grows by one line confirmed on the tables its last step left. */
  lemma TraceStep(l: Ledger, items: map<int, Item>, lines: seq<SaleItem>, saleNumber: string,
                  steps: seq<LineStep>, logged: seq<StockUsage>, line: SaleItem, s: LineStep, u: StockUsage)
    requires ConfirmTrace(l, items, lines, saleNumber, steps, logged)
    requires var t := TablesBefore(l, items, steps, |steps|); ConfirmsLine(t.0, t.1, line, saleNumber, s, u)
    ensures ConfirmTrace(l, items, lines + [line], saleNumber, steps + [s], logged + [u])
    ensures StepsCogs(steps + [s]) == StepsCogs(steps) + s.cogs
  {
    assert (lines + [line])[..|lines|] == lines;
    assert (steps + [s])[..|steps|] == steps;
    assert (logged + [u])[..|logged|] == logged;
    assert TablesBefore(l, items, steps + [s], |steps|) == TablesBefore(l, items, steps, |steps|);
  }

  /** Every line of a traced confirmation is confirmed on the tables the line before it left. */
  lemma {:induction false} TraceLines(l: Ledger, items: map<int, Item>, lines: seq<SaleItem>, saleNumber: string,
                                      steps: seq<LineStep>, logged: seq<StockUsage>, i: nat)
    requires ConfirmTrace(l, items, lines, saleNumber, steps, logged) && i < |lines|
    ensures var t := TablesBefore(l, items, steps, i); ConfirmsLine(t.0, t.1, lines[i], saleNumber, steps[i], logged[i])
    decreases |lines|
  {
    if i < |lines| - 1 {
      var k := |lines| - 1;
      TraceLines(l, items, lines[..k], saleNumber, steps[..k], logged[..k], i);
      assert TablesBefore(l, items, steps[..k], i) == TablesBefore(l, items, steps, i);
    }
  }

  function LineIds(lines: seq<SaleItem>): set<int> {
    set i | 0 <= i < |lines| :: lines[i].id
  }

  /** Records extended twice: the second extension's suffix is the first's followed by the new records. */
  lemma RecordsSplit(r0: seq<BatchRecord>, ri: seq<BatchRecord>, rc: seq<BatchRecord>)
    requires Extends(r0, ri) && Extends(ri, rc)
    ensures Extends(r0, rc) && rc[|r0|..] == ri[|r0|..] + rc[|ri|..]
  {
    assert rc == ri + rc[|ri|..];
  }

  /** One line's consumption extends the records for that line alone, keeps unit costs, and adds its cost
      of goods to the cost of everything recorded since `l0`. */
  lemma CogsStep(l0: Ledger, li: Ledger, qty: int, o: Owner, so: seq<int>, bo: seq<int>)
    requires Grounded(li) && Extends(l0.records, li.records) && SameCosts(l0.batches, li.batches)
    requires forall i :: 0 <= i < |so| ==> so[i] in li.serials
    requires forall i :: 0 <= i < |bo| ==> bo[i] in li.batches
    ensures var c := Consumption(li, qty, o, so, bo);
            var n := |l0.records|;
            && Extends(li.records, c.ledger.records)
            && Extends(l0.records, c.ledger.records) && SameCosts(l0.batches, c.ledger.batches)
            && Cost(c.ledger.records[n..], l0.batches) == Cost(li.records[n..], l0.batches) + c.cogs
            && forall k :: |li.records| <= k < |c.ledger.records| ==> c.ledger.records[k].owner == o
  {
    var c := Consumption(li, qty, o, so, bo);
    ConsumptionAccounts(li, qty, o, so, bo);
    var added := Added(Draw(li, 0.0, qty), c);
    RecordsSplit(l0.records, li.records, c.ledger.records);
    CostAppend(li.records[|l0.records|..], added, l0.batches);
    CostOfSameCosts(added, l0.batches, li.batches);
  }

  /** The reversal of every line of a sale, in line order. */
  function UndoLines(l: Ledger, lines: seq<SaleItem>): Ledger {
    if lines == [] then l
    else Undo(UndoLines(l, lines[..|lines| - 1]), ForSaleItem(lines[|lines| - 1].id))
  }

  /** A line's quantity added back to its item's stock; a line whose item is gone changes nothing. */
  function ReturnLine(items: map<int, Item>, line: SaleItem): (r: map<int, Item>)
    ensures r.Keys == items.Keys
    ensures forall k :: k in items ==>
              r[k] == items[k].(stockQuantity := items[k].stockQuantity + (if k == line.itemId then line.quantity else 0))
  {
    if line.itemId in items then Restocked(items, line.itemId, items[line.itemId].stockQuantity + line.quantity)
    else items
  }

  /** The total quantity of the lines of `lines` that name item `k`. */
  function QuantityOf(lines: seq<SaleItem>, k: int): int {
    if lines == [] then 0
    else QuantityOf(lines[..|lines| - 1], k) + (if lines[|lines| - 1].itemId == k then lines[|lines| - 1].quantity else 0)
  }

  /** Each line's quantity added back to its item's stock, in line order: every item gains the total
      quantity of the lines that name it, and nothing else about it changes. */
  function Returned(items: map<int, Item>, lines: seq<SaleItem>): (r: map<int, Item>)
    ensures r.Keys == items.Keys
    ensures forall k :: k in items ==> r[k] == items[k].(stockQuantity := items[k].stockQuantity + QuantityOf(lines, k))
  {
    if lines == [] then items else ReturnLine(Returned(items, lines[..|lines| - 1]), lines[|lines| - 1])
  }

  /** Reversing `b` leaves alone an owner `a` that had consumed nothing. */
  lemma UntouchedKept(l: Ledger, a: Owner, b: Owner)
    requires Untouched(l, a)
    ensures Untouched(Undo(l, b), a)
  {
    var u := Undo(l, b);
    forall i | 0 <= i < |u.records| ensures u.records[i].owner != a {
      assert u.records[i] in l.records;
    }
  }

  /** After reversing every line of a sale, none of its lines has a record or a serial left. */
  lemma {:induction false} UndoLinesClears(l: Ledger, lines: seq<SaleItem>)
    requires Sound(l)
    ensures Sound(UndoLines(l, lines))
    ensures forall i :: 0 <= i < |lines| ==> Untouched(UndoLines(l, lines), ForSaleItem(lines[i].id))
    decreases |lines|
  {
    if lines != [] {
      var init, x := lines[..|lines| - 1], lines[|lines| - 1];
      assert lines == init + [x];
      UndoLinesClears(l, init);
      var u := UndoLines(l, init);
      UndoSound(u, ForSaleItem(x.id));
      UntouchedAfterLast(u, init, x);
    }
  }

  /** Reversing line `x` after `init`, whose lines own nothing already, leaves none of them with records. */
  lemma UntouchedAfterLast(u: Ledger, init: seq<SaleItem>, x: SaleItem)
    requires forall i :: 0 <= i < |init| ==> Untouched(u, ForSaleItem(init[i].id))
    requires Untouched(Undo(u, ForSaleItem(x.id)), ForSaleItem(x.id))
    ensures forall i :: 0 <= i < |init + [x]| ==> Untouched(Undo(u, ForSaleItem(x.id)), ForSaleItem((init + [x])[i].id))
  {
    forall i | 0 <= i < |init| ensures Untouched(Undo(u, ForSaleItem(x.id)), ForSaleItem(init[i].id)) {
      UntouchedKept(u, ForSaleItem(init[i].id), ForSaleItem(x.id));
    }
  }

  /** The usage rows confirming `lines` logs: one per line, with its item, its quantity and the sale's
      number in the reason. */
  predicate LogsLines(logged: seq<StockUsage>, lines: seq<SaleItem>, saleNumber: string) {
    && |logged| == |lines|
    && forall i :: 0 <= i < |lines| ==>
         && logged[i].itemId == lines[i].itemId && logged[i].repairId == None
         && logged[i].quantity == lines[i].quantity && logged[i].reason == "Sale " + saleNumber
  }

  /** Where confirming some of `lines` has got to from `l` and `items`: the tables are valid, every item is
      still there, the records extend the old ones and belong to the sale's lines, unit costs are
      unchanged and `cogs` is the cost of the records written so far. */
  predicate Confirming(l: Ledger, items: map<int, Item>, lines: seq<SaleItem>, n: int,
                       l': Ledger, items': map<int, Item>, cogs: real)
  {
    && LedgerValid(l', n) && items'.Keys == items.Keys
    && Extends(l.records, l'.records) && SameCosts(l.batches, l'.batches)
    && cogs == Cost(l'.records[|l.records|..], l.batches)
    && forall k :: |l.records| <= k < |l'.records| ==>
         l'.records[k].owner.ForSaleItem? && l'.records[k].owner.saleItemId in LineIds(lines)
  }

  /** Consuming one more line of the sale keeps `Confirming`, adding that line's cost of goods. */
  lemma ConfirmingStep(l: Ledger, items: map<int, Item>, lines: seq<SaleItem>, n: int,
                       li: Ledger, itemsI: map<int, Item>, cogsI: real, line: SaleItem, so: seq<int>, bo: seq<int>,
                       l': Ledger, items': map<int, Item>, c: real)
    requires Confirming(l, items, lines, n, li, itemsI, cogsI) && line.id in LineIds(lines)
    requires forall i :: 0 <= i < |so| ==> so[i] in li.serials
    requires forall i :: 0 <= i < |bo| ==> bo[i] in li.batches
    requires l' == Consumption(li, line.quantity, ForSaleItem(line.id), so, bo).ledger
    requires c == Consumption(li, line.quantity, ForSaleItem(line.id), so, bo).cogs
    requires LedgerValid(l', n) && items'.Keys == itemsI.Keys
    ensures Confirming(l, items, lines, n, l', items', cogsI + c)
  {
    CogsStep(l, li, line.quantity, ForSaleItem(line.id), so, bo);
    forall k | |l.records| <= k < |l'.records|
      ensures l'.records[k].owner.ForSaleItem? && l'.records[k].owner.saleItemId in LineIds(lines)
    {
      if k < |li.records| {
        assert l'.records[k] == li.records[k];
      }
    }
  }

  /** Where confirming the first `i` of `lines` has got to: `Confirming` holds, the first `i` lines are
      traced by `steps` ending on the current tables, `cogs` is the sum of their costs and `logged` holds
      their usage rows. */
  predicate Progress(l: Ledger, items: map<int, Item>, lines: seq<SaleItem>, saleNumber: string, n: int, i: nat,
                     li: Ledger, itemsI: map<int, Item>, cogs: real, steps: seq<LineStep>, logged: seq<StockUsage>)
  {
    && i <= |lines|
    && Confirming(l, items, lines, n, li, itemsI, cogs)
    && ConfirmTrace(l, items, lines[..i], saleNumber, steps, logged)
    && (li, itemsI) == TablesBefore(l, items, steps, |steps|) && cogs == StepsCogs(steps)
    && LogsLines(logged, lines[..i], saleNumber)
  }

  /** The usage rows of one more line extend the log of the lines before it. */
  lemma LogsStep(logged: seq<StockUsage>, lines: seq<SaleItem>, i: nat, saleNumber: string, u: StockUsage)
    requires i < |lines| && LogsLines(logged, lines[..i], saleNumber)
    requires u.itemId == lines[i].itemId && u.repairId == None && u.quantity == lines[i].quantity
    requires u.reason == "Sale " + saleNumber
    ensures LogsLines(logged + [u], lines[..i + 1], saleNumber)
  {
    assert lines[..i + 1] == lines[..i] + [lines[i]];
  }

  /** Confirm line `i` on top of the lines before it. */
  method ConfirmNext(l: Ledger, items: map<int, Item>, lines: seq<SaleItem>, saleNumber: string, n: int, i: nat,
                     li: Ledger, itemsI: map<int, Item>, cogsI: real, loggedI: seq<StockUsage>, ghost stepsI: seq<LineStep>)
    returns (l': Ledger, items': map<int, Item>, cogs: real, logged: seq<StockUsage>, ghost steps: seq<LineStep>)
    requires i < |lines| && lines[i].itemId in items && lines[i].id < n
    requires Progress(l, items, lines, saleNumber, n, i, li, itemsI, cogsI, stepsI, loggedI)
    ensures Progress(l, items, lines, saleNumber, n, i + 1, l', items', cogs, steps, logged)
  {
    var line := lines[i];
    assert line.id in LineIds(lines);
    var u, c, short, so, bo;
    l', items', u, c, short, so, bo := ConfirmLine(li, itemsI, line, saleNumber, n);
    ghost var s := LineStep(l', items', c, short, so, bo);
    ConfirmingLine(l, items, lines, saleNumber, n, li, itemsI, cogsI, line, s, u);
    cogs := cogsI + c;
    ProgressStep(l, items, lines, saleNumber, n, i, li, itemsI, cogsI, stepsI, loggedI, s, u);
    logged := loggedI + [u];
    steps := stepsI + [s];
  }

  /** Confirming one more line of the sale (see `ConfirmsLine`) keeps `Confirming`, adding that line's
      cost of goods. */
  lemma ConfirmingLine(l: Ledger, items: map<int, Item>, lines: seq<SaleItem>, saleNumber: string, n: int,
                       li: Ledger, itemsI: map<int, Item>, cogsI: real, line: SaleItem, s: LineStep, u: StockUsage)
    requires Confirming(l, items, lines, n, li, itemsI, cogsI) && line.id in LineIds(lines)
    requires ConfirmsLine(li, itemsI, line, saleNumber, s, u) && LedgerValid(s.ledger, n)
    ensures Confirming(l, items, lines, n, s.ledger, s.items, cogsI + s.cogs)
  {
    ConfirmingStep(l, items, lines, n, li, itemsI, cogsI, line, s.serialOrder, s.batchOrder, s.ledger, s.items, s.cogs);
  }

  /** Confirming line `i` (see `ConfirmsLine`) carries `Progress` over it. */
  lemma ProgressStep(l: Ledger, items: map<int, Item>, lines: seq<SaleItem>, saleNumber: string, n: int, i: nat,
                     li: Ledger, itemsI: map<int, Item>, cogsI: real, stepsI: seq<LineStep>, loggedI: seq<StockUsage>,
                     s: LineStep, u: StockUsage)
    requires i < |lines| && Progress(l, items, lines, saleNumber, n, i, li, itemsI, cogsI, stepsI, loggedI)
    requires ConfirmsLine(li, itemsI, lines[i], saleNumber, s, u)
    requires Confirming(l, items, lines, n, s.ledger, s.items, cogsI + s.cogs)
    ensures Progress(l, items, lines, saleNumber, n, i + 1, s.ledger, s.items, cogsI + s.cogs, stepsI + [s], loggedI + [u])
  {
    TraceStep(l, items, lines[..i], saleNumber, stepsI, loggedI, lines[i], s, u);
    TakeOneMore(lines, i);
    LogsStep(loggedI, lines, i, saleNumber, u);
  }

  lemma TakeOneMore(lines: seq<SaleItem>, i: nat)
    requires i < |lines|
    ensures lines[..i + 1] == lines[..i] + [lines[i]]
  {
  }

  /** Confirm every line of a sale in line order: line by line as `steps` tells it (see `ConfirmTrace`),
      ending on the tables the last step left. The records written extend the old ones and belong to the
      sale's lines, unit costs stay as they were, and `cogs`, the sum of the lines' costs of goods, is the
      cost of exactly the records written. */
  method ConfirmLines(l: Ledger, items: map<int, Item>, lines: seq<SaleItem>, saleNumber: string, n: int)
    returns (l': Ledger, items': map<int, Item>, logged: seq<StockUsage>, cogs: real, ghost steps: seq<LineStep>)
    requires LedgerValid(l, n)
    requires forall i :: 0 <= i < |lines| ==> lines[i].itemId in items && lines[i].id < n
    ensures LedgerValid(l', n) && SameCosts(l.batches, l'.batches)
    ensures LinesConfirmed(l, items, lines, saleNumber, l', items', steps, logged)
    ensures Extends(l.records, l'.records)
    ensures cogs == Cost(l'.records[|l.records|..], l.batches) && cogs == StepsCogs(steps)
  {
    l', items', logged, cogs := l, items, [], 0.0;
    steps := [];
    var i := 0;
    while i < |lines|
      invariant Progress(l, items, lines, saleNumber, n, i, l', items', cogs, steps, logged)
    {
      l', items', cogs, logged, steps := ConfirmNext(l, items, lines, saleNumber, n, i, l', items', cogs, logged, steps);
      i := i + 1;
    }
    assert lines[..i] == lines;
  }

  /** Reverse every line of a sale in line order (see `Fifo.Undo`) and return each line's quantity to its
      item's stock. */
  method ReverseLines(l: Ledger, items: map<int, Item>, lines: seq<SaleItem>, n: int)
    returns (l': Ledger, items': map<int, Item>)
    requires LedgerValid(l, n)
    ensures LedgerValid(l', n)
    ensures l' == UndoLines(l, lines) && items' == Returned(items, lines)
  {
    l', items' := l, items;
    var i := 0;
    while i < |lines|
      invariant 0 <= i <= |lines|
      invariant LedgerValid(l', n)
      invariant l' == UndoLines(l, lines[..i]) && items' == Returned(items, lines[..i])
    {
      var line := lines[i];
      UndoLinesStep(l, items, lines, i);
      UndoValid(l', ForSaleItem(line.id), n);
      var taken;
      l', taken := UndoTables(l', ForSaleItem(line.id));
      items' := ReturnLine(items', line);
      i := i + 1;
    }
    assert lines[..i] == lines;
  }

  /** Reversing one more line: its records come off and its quantity goes back, after the earlier lines'. */
  lemma UndoLinesStep(l: Ledger, items: map<int, Item>, lines: seq<SaleItem>, i: nat)
    requires i < |lines|
    ensures UndoLines(l, lines[..i + 1]) == Undo(UndoLines(l, lines[..i]), ForSaleItem(lines[i].id))
    ensures Returned(items, lines[..i + 1]) == ReturnLine(Returned(items, lines[..i]), lines[i])
  {
    assert lines[..i + 1][..i] == lines[..i];
  }

  // ---------------------------------------------------------------------------------------------------
  // Deletion

  /** What the cascade of a sale's deletion does to the consumption tables: every line's records are
      deleted and serials that named a line lose the link (see `Fifo.Detach`). */
  function DetachLines(l: Ledger, lines: seq<SaleItem>): Ledger {
    if lines == [] then l else Detach(DetachLines(l, lines[..|lines| - 1]), ForSaleItem(lines[|lines| - 1].id))
  }

  /** Deleting `b` leaves alone an owner `a` that had consumed nothing. */
  lemma DetachKept(l: Ledger, a: Owner, b: Owner)
    requires Untouched(l, a)
    ensures Untouched(Detach(l, b), a)
  {
    var d := Detach(l, b);
    forall i | 0 <= i < |d.records| ensures d.records[i].owner != a {
      assert d.records[i] in l.records;
    }
  }

  /** The cascade keeps the ledger valid and leaves no record or link of any line. */
  lemma {:induction false} DetachLinesValid(l: Ledger, lines: seq<SaleItem>, n: int)
    requires LedgerValid(l, n)
    ensures LedgerValid(DetachLines(l, lines), n)
    ensures forall i :: 0 <= i < |lines| ==> Untouched(DetachLines(l, lines), ForSaleItem(lines[i].id))
    decreases |lines|
  {
    if lines != [] {
      var init := lines[..|lines| - 1];
      var last := ForSaleItem(lines[|lines| - 1].id);
      DetachLinesValid(l, init, n);
      var d := DetachLines(l, init);
      DetachValid(d, last, n);
      forall i | 0 <= i < |lines| ensures Untouched(Detach(d, last), ForSaleItem(lines[i].id)) {
        if i < |init| {
          assert lines[i] == init[i];
          DetachKept(d, ForSaleItem(lines[i].id), last);
        }
      }
    }
  }

  /** The cascade changes nothing once no line has a record or a link left. */
  lemma {:induction false} DetachLinesIdle(l: Ledger, lines: seq<SaleItem>)
    requires forall i :: 0 <= i < |lines| ==> Untouched(l, ForSaleItem(lines[i].id))
    ensures DetachLines(l, lines) == l
    decreases |lines|
  {
    if lines != [] {
      var init := lines[..|lines| - 1];
      assert forall i :: 0 <= i < |init| ==> init[i] == lines[i];
      DetachLinesIdle(l, init);
      DetachIdle(l, ForSaleItem(lines[|lines| - 1].id));
    }
  }

  /** Delete sale `id` (404 when there is none). A sale that holds stock first has every line reversed and
      its quantity returned to stock, as a refund does; then the deletion cascades to the lines' records
      and to the sale's payments and allocations, and serials that still name a line lose the link. */
  method Delete(db: Db, id: int) returns (r: Result<()>)
    requires db.Valid()
    modifies db`ledger, db`items, db`usages, db`sales, db`payments, db`allocations
    ensures db.Valid()
    ensures id !in old(db.sales) <==> r == Err(404)
    ensures r.Err? ==> db.sales == old(db.sales) && db.ledger == old(db.ledger) && db.items == old(db.items)
                       && db.payments == old(db.payments) && db.allocations == old(db.allocations)
    ensures db.usages == old(db.usages)
    ensures r.Ok? ==>
              var sale := old(db.sales)[id];
              && db.sales == old(db.sales) - {id}
              && (Holding(sale.status) ==>
                    db.ledger == UndoLines(old(db.ledger), sale.items) && db.items == Returned(old(db.items), sale.items))
              && (!Holding(sale.status) ==>
                    db.ledger == DetachLines(old(db.ledger), sale.items) && db.items == old(db.items))
              && (forall i :: 0 <= i < |sale.items| ==> Untouched(db.ledger, ForSaleItem(sale.items[i].id)))
              && db.payments == WithoutPayments(old(db.payments), ToSale(id))
              && db.allocations == WithoutAllocations(old(db.allocations), ToSale(id))
  {
    if id !in db.sales {
      return Err(404);
    }
    var sale := db.sales[id];
    ReleaseLines(db, sale.items, Holding(sale.status));
    db.RemoveSale(id, WithoutPayments(db.payments, ToSale(id)), WithoutAllocations(db.allocations, ToSale(id)));
    r := Ok(());
  }

  /** The stock side of deleting a sale with `lines`: a sale that holds stock has every line reversed,
      any other has its lines' records dropped; either way no line owns a record afterwards. */
  method ReleaseLines(db: Db, lines: seq<SaleItem>, holding: bool)
    requires db.Valid()
    modifies db`ledger, db`items
    ensures db.Valid()
    ensures holding ==> db.ledger == UndoLines(old(db.ledger), lines) && db.items == Returned(old(db.items), lines)
    ensures !holding ==> db.ledger == DetachLines(old(db.ledger), lines) && db.items == old(db.items)
    ensures forall i :: 0 <= i < |lines| ==> Untouched(db.ledger, ForSaleItem(lines[i].id))
  {
    if holding {
      var l, items := ReverseLines(db.ledger, db.items, lines, db.nextId);
      UndoLinesClears(db.ledger, lines);
      DetachLinesIdle(l, lines);
      db.WriteLedger(l, items);
    } else {
      DetachLinesValid(db.ledger, lines, db.nextId);
      db.WriteLedger(DetachLines(db.ledger, lines), db.items);
    }
  }

  // ---------------------------------------------------------------------------------------------------
  // Payments and the daily report

  /** Record a payment for sale `id`. Without a payment method or a (non-zero) amount it answers 400, for
      an unknown sale 404. The sale is marked "Confirmed" before the payment is written, so an unknown
      payment method (the foreign key, 400) leaves that status change behind. The payment status then
      follows the total paid to the sale against its total, with no tolerance (see `Billing.Classify`). */
  method CreatePayment(db: Db, id: int, methodId: Option<int>, amount: Option<real>, paymentDate: Option<int>,
                       now: int)
    returns (r: Result<int>)
    requires db.Valid()
    modifies db`sales, db`payments, db`nextId
    ensures db.Valid()
    ensures !GivenId(methodId) || !Given(amount) ==> r == Err(400)
    ensures GivenId(methodId) && Given(amount) && id !in old(db.sales) ==> r == Err(404)
    ensures r.Ok? <==> GivenId(methodId) && Given(amount) && id in old(db.sales) && methodId.value in db.paymentMethods
    ensures r.Err? ==> db.payments == old(db.payments) && db.nextId == old(db.nextId)
    ensures r.Err? && (!GivenId(methodId) || !Given(amount) || id !in old(db.sales)) ==> db.sales == old(db.sales)
    ensures r == Err(400) && GivenId(methodId) && Given(amount) && id in old(db.sales) ==>
              db.sales == old(db.sales)[id := old(db.sales)[id].(status := "Confirmed")]
    ensures r.Ok? ==>
              var sale := old(db.sales)[id];
              && r.value == old(db.nextId)
              && db.payments == old(db.payments)
                   + [Payment(r.value, None, Some(id), None, methodId.value, amount.value, paymentDate.GetOr(now), None)]
              && db.sales == old(db.sales)[id := sale.(status := "Confirmed",
                   paymentStatus := Classify(PaidTo(db.payments, ToSale(id)), sale.totalAmount, 0.0))]
  {
    if !GivenId(methodId) || !Given(amount) {
      return Err(400);
    }
    if id !in db.sales {
      return Err(404);
    }
    var sale := db.sales[id].(status := "Confirmed");
    db.SetSale(id, sale);
    if methodId.value !in db.paymentMethods {
      return Err(400);
    }
    var pid := RecordPayment(db, id, methodId.value, amount.value, paymentDate.GetOr(now));
    r := Ok(pid);
  }

  /** The accepted path of `CreatePayment`: insert the payment for sale `id`, then re-classify the sale
      from everything paid to it. */
  method RecordPayment(db: Db, id: int, methodId: int, amount: real, date: int) returns (pid: int)
    requires db.Valid() && id in db.sales
    modifies db`sales, db`payments, db`nextId
    ensures db.Valid() && pid == old(db.nextId)
    ensures db.payments == old(db.payments) + [Payment(pid, None, Some(id), None, methodId, amount, date, None)]
    ensures var sale := old(db.sales)[id];
            db.sales == old(db.sales)[id := sale.(paymentStatus := Classify(PaidTo(db.payments, ToSale(id)), sale.totalAmount, 0.0))]
  {
    var sale := db.sales[id];
    pid := db.AddPayment(None, Some(id), None, methodId, amount, date, None);
    db.SetSale(id, sale.(paymentStatus := Classify(PaidTo(db.payments, ToSale(id)), sale.totalAmount, 0.0)));
  }

  /** The daily report counts every sale dated within the day that is not cancelled. */
  predicate InReport(s: Sale, start: int, end: int) {
    start <= s.saleDate <= end && s.status != "cancelled"
  }

  function ReportIds(sales: map<int, Sale>, start: int, end: int): set<int> {
    set k | k in sales && InReport(sales[k], start, end)
  }

  /** The sum of the totals of the sales listed in `order`. */
  function TotalOf(sales: map<int, Sale>, order: seq<int>): real
    requires forall i :: 0 <= i < |order| ==> order[i] in sales
  {
    if order == [] then 0.0 else TotalOf(sales, order[..|order| - 1]) + sales[order[|order| - 1]].totalAmount
  }

  /** The payments made to `t`, in table order (a sale's `payments` relation). */
  function PaymentsTo(ps: seq<Payment>, t: Target): (r: seq<Payment>)
    ensures |r| <= |ps|
    ensures forall p :: p in r <==> p in ps && Pays(p, t)
  {
    if ps == [] then []
    else PaymentsTo(ps[..|ps| - 1], t) + (if Pays(ps[|ps| - 1], t) then [ps[|ps| - 1]] else [])
  }

  /** Filtering keeps table order: the payments to `t` in a table built from two parts are the first
      part's followed by the second's. */
  lemma {:induction false} PaymentsToAppend(xs: seq<Payment>, ys: seq<Payment>, t: Target)
    ensures PaymentsTo(xs + ys, t) == PaymentsTo(xs, t) + PaymentsTo(ys, t)
    decreases |ys|
  {
    if ys != [] {
      var init := ys[..|ys| - 1];
      assert (xs + ys)[..|xs + ys| - 1] == xs + init;
      assert (xs + ys)[|xs + ys| - 1] == ys[|ys| - 1];
      PaymentsToAppend(xs, init, t);
    } else {
      assert xs + ys == xs;
    }
  }

  /** The payments of the sales listed in `order`, sale by sale (the `flatMap`). */
  function ReportPayments(ps: seq<Payment>, order: seq<int>): seq<Payment> {
    if order == [] then [] else ReportPayments(ps, order[..|order| - 1]) + PaymentsTo(ps, ToSale(order[|order| - 1]))
  }

  function Amount(acc: map<string, real>, name: string): real {
    if name in acc then acc[name] else 0.0
  }

  /** One step of the breakdown: the payment's amount added under its method's name. */
  function Credit(acc: map<string, real>, p: Payment, methods: map<int, string>): map<string, real> {
    if p.paymentMethodId in methods then
      var name := methods[p.paymentMethodId];
      acc[name := Amount(acc, name) + p.amount]
    else acc
  }

  /** The per-method breakdown: payments folded into a map from method name to amount, in order. */
  function Tally(ps: seq<Payment>, methods: map<int, string>): map<string, real> {
    if ps == [] then map[] else Credit(Tally(ps[..|ps| - 1], methods), ps[|ps| - 1], methods)
  }

  predicate PaidBy(p: Payment, methods: map<int, string>, name: string) {
    p.paymentMethodId in methods && methods[p.paymentMethodId] == name
  }

  /** The amount paid through the methods named `name`. */
  function MethodTotal(ps: seq<Payment>, methods: map<int, string>, name: string): real {
    if ps == [] then 0.0
    else MethodTotal(ps[..|ps| - 1], methods, name) + (if PaidBy(ps[|ps| - 1], methods, name) then ps[|ps| - 1].amount else 0.0)
  }

  /** The breakdown has an entry exactly for the method names some payment used, and each entry is the
      total paid through methods of that name. */
  lemma {:induction false} TallyByMethod(ps: seq<Payment>, methods: map<int, string>, name: string)
    ensures name in Tally(ps, methods) <==> exists i :: 0 <= i < |ps| && PaidBy(ps[i], methods, name)
    ensures Amount(Tally(ps, methods), name) == MethodTotal(ps, methods, name)
    decreases |ps|
  {
    if ps != [] {
      var init := ps[..|ps| - 1];
      TallyByMethod(init, methods, name);
      assert forall i :: 0 <= i < |init| ==> init[i] == ps[i];
      if exists i :: 0 <= i < |ps| && PaidBy(ps[i], methods, name) {
        var i :| 0 <= i < |ps| && PaidBy(ps[i], methods, name);
        if i < |init| {
          assert PaidBy(init[i], methods, name);
        }
      }
    }
  }

  /** The daily report between `start` and `end`: the sales counted (in an order the caller does not
      control), their number, the sum of their totals and the per-method breakdown of their payments. */
  method DailyReport(db: Db, start: int, end: int)
    returns (totalSales: real, totalOrders: int, breakdown: map<string, real>, order: seq<int>)
    ensures Distinct(order) && forall k :: k in order <==> k in ReportIds(db.sales, start, end)
    ensures totalOrders == |ReportIds(db.sales, start, end)|
    ensures forall i :: 0 <= i < |order| ==> order[i] in db.sales
    ensures totalSales == TotalOf(db.sales, order)
    ensures breakdown == Tally(ReportPayments(db.payments, order), db.paymentMethods)
  {
    var ids := ReportIds(db.sales, start, end);
    order := Enumerate(ids);
    assert forall x :: x in order <==> x in ids;
    totalOrders := |order|;
    forall i | 0 <= i < |order| ensures order[i] in db.sales {
      assert order[i] in order;
      assert order[i] in ids;
    }
    totalSales := 0.0;
    var paid: seq<Payment> := [];
    var i := 0;
    while i < |order|
      invariant 0 <= i <= |order|
      invariant totalSales == TotalOf(db.sales, order[..i])
      invariant paid == ReportPayments(db.payments, order[..i])
    {
      assert order[..i + 1][..i] == order[..i];
      totalSales := totalSales + db.sales[order[i]].totalAmount;
      paid := paid + PaymentsTo(db.payments, ToSale(order[i]));
      i := i + 1;
    }
    assert order[..i] == order;
    breakdown := map[];
    var j := 0;
    while j < |paid|
      invariant 0 <= j <= |paid|
      invariant breakdown == Tally(paid[..j], db.paymentMethods)
    {
      assert paid[..j + 1][..j] == paid[..j];
      breakdown := Credit(breakdown, paid[j], db.paymentMethods);
      j := j + 1;
    }
    assert paid[..j] == paid;
  }

  /** The lines of a stored sale name stored items and carry ids below `n`. */
  lemma LinesOfSale(sales: map<int, Sale>, items: map<int, Item>, n: int, id: int)
    requires SaleLinesBelow(sales, n) && SaleLinesGrounded(sales, items) && id in sales
    ensures forall i :: 0 <= i < |sales[id].items| ==> sales[id].items[i].itemId in items && sales[id].items[i].id < n
  {
  }

  /** What confirming `lines` of sale `saleNumber` does to the consumption tables and the items: every
      line is consumed as `steps` tells it (see `ConfirmTrace`), ending on the tables the last step left;
      the records written extend the old ones and belong to the lines, and `logged` holds one usage row
      per line. */
  predicate LinesConfirmed(l: Ledger, items: map<int, Item>, lines: seq<SaleItem>, saleNumber: string,
                           l': Ledger, items': map<int, Item>, steps: seq<LineStep>, logged: seq<StockUsage>)
  {
    && ConfirmTrace(l, items, lines, saleNumber, steps, logged)
    && (l', items') == TablesBefore(l, items, steps, |steps|) && items'.Keys == items.Keys
    && LogsLines(logged, lines, saleNumber)
    && Extends(l.records, l'.records)
    && (forall k :: |l.records| <= k < |l'.records| ==>
          l'.records[k].owner.ForSaleItem? && l'.records[k].owner.saleItemId in LineIds(lines))
  }

  /** What confirming draft `id` with status `st` does to the tables: its lines are confirmed (see
      `LinesConfirmed`), their usage rows are appended to the log, and the sale takes the status, the cost
      of goods (the sum of the lines' costs, which is the cost of the records written) and the profit. */
  predicate SaleConfirmed(l: Ledger, items: map<int, Item>, usages: seq<StockUsage>, sales: map<int, Sale>,
                          id: int, st: string,
                          l': Ledger, items': map<int, Item>, usages': seq<StockUsage>, sales': map<int, Sale>,
                          steps: seq<LineStep>, logged: seq<StockUsage>)
    requires id in sales
  {
    var sale := sales[id];
    && LinesConfirmed(l, items, sale.items, sale.saleNumber, l', items', steps, logged)
    && usages' == usages + logged
    && var cogs := Cost(l'.records[|l.records|..], l.batches);
       && cogs == StepsCogs(steps)
       && sales' == sales[id := sale.(status := st, cogs := cogs, profit := sale.totalAmount - cogs)]
  }

  /** Confirm draft `id` on the tables as values (see `SaleConfirmed`). */
  method ConfirmOnTables(l: Ledger, items: map<int, Item>, usages: seq<StockUsage>, sales: map<int, Sale>,
                         id: int, st: string, n: int)
    returns (l': Ledger, items': map<int, Item>, usages': seq<StockUsage>, sales': map<int, Sale>,
             ghost steps: seq<LineStep>, ghost logged: seq<StockUsage>)
    requires LedgerValid(l, n) && id in sales
    requires forall i :: 0 <= i < |sales[id].items| ==> sales[id].items[i].itemId in items && sales[id].items[i].id < n
    ensures LedgerValid(l', n)
    ensures SaleConfirmed(l, items, usages, sales, id, st, l', items', usages', sales', steps, logged)
  {
    var sale := sales[id];
    var rows, cogs;
    l', items', rows, cogs, steps := ConfirmLines(l, items, sale.items, sale.saleNumber, n);
    logged := rows;
    usages' := usages + rows;
    sales' := sales[id := sale.(status := st, cogs := cogs, profit := sale.totalAmount - cogs)];
    SaleConfirmedBy(l, items, usages, sales, id, st, l', items', sales', steps, logged, cogs);
  }

  /** `SaleConfirmed` from the confirmed lines and the sale's new row. */
  lemma SaleConfirmedBy(l: Ledger, items: map<int, Item>, usages: seq<StockUsage>, sales: map<int, Sale>,
                        id: int, st: string, l': Ledger, items': map<int, Item>, sales': map<int, Sale>,
                        steps: seq<LineStep>, logged: seq<StockUsage>, cogs: real)
    requires id in sales
    requires LinesConfirmed(l, items, sales[id].items, sales[id].saleNumber, l', items', steps, logged)
    requires Extends(l.records, l'.records)
    requires cogs == Cost(l'.records[|l.records|..], l.batches) && cogs == StepsCogs(steps)
    requires sales' == sales[id := sales[id].(status := st, cogs := cogs, profit := sales[id].totalAmount - cogs)]
    ensures SaleConfirmed(l, items, usages, sales, id, st, l', items', usages + logged, sales', steps, logged)
  {
  }

  /** Confirm draft `id` in the store (see `SaleConfirmed`). */
  method ConfirmSale(db: Db, id: int, st: string) returns (ghost steps: seq<LineStep>, ghost logged: seq<StockUsage>)
    requires db.Valid() && id in db.sales
    modifies db`ledger, db`items, db`usages, db`sales
    ensures db.Valid()
    ensures SaleConfirmed(old(db.ledger), old(db.items), old(db.usages), old(db.sales), id, st,
                          db.ledger, db.items, db.usages, db.sales, steps, logged)
  {
    LinesOfSale(db.sales, db.items, db.nextId, id);
    var l, items, usages, sales;
    l, items, usages, sales, steps, logged := ConfirmOnTables(db.ledger, db.items, db.usages, db.sales, id, st, db.nextId);
    db.WriteStock(l, items, usages);
    db.SetSale(id, sales[id]);
    assert db.sales == sales;
  }

  /** Refund or cancel sale `id`: reverse every line (see `ReverseLines`) and set the status. */
  method ReverseSale(db: Db, id: int, st: string)
    requires db.Valid() && id in db.sales
    modifies db`ledger, db`items, db`usages, db`sales
    ensures db.Valid() && db.usages == old(db.usages)
    ensures var sale := old(db.sales)[id];
            && db.ledger == UndoLines(old(db.ledger), sale.items)
            && db.items == Returned(old(db.items), sale.items)
            && (forall i :: 0 <= i < |sale.items| ==> Untouched(db.ledger, ForSaleItem(sale.items[i].id)))
            && db.sales == old(db.sales)[id := sale.(status := st)]
  {
    var sale := db.sales[id];
    var l, items := ReverseLines(db.ledger, db.items, sale.items, db.nextId);
    UndoLinesClears(db.ledger, sale.items);
    db.WriteStock(l, items, db.usages);
    db.SetSale(id, sale.(status := st));
  }

  /** Change a sale's status: confirming a draft consumes its stock (see `ConfirmSale`), refunding or
      cancelling a sale that holds stock returns it (see `ReverseSale`), and any other change only writes
      the status. A missing status answers 400, an unknown sale 404. */
  method UpdateStatus(db: Db, id: int, status: Option<string>)
    returns (r: Result<()>, ghost steps: seq<LineStep>, ghost logged: seq<StockUsage>)
    requires db.Valid()
    modifies db`ledger, db`items, db`usages, db`sales
    ensures db.Valid()
    ensures !GivenText(status) ==> r == Err(400)
    ensures GivenText(status) && id !in old(db.sales) ==> r == Err(404)
    ensures r.Err? ==> db.sales == old(db.sales) && db.ledger == old(db.ledger) && db.items == old(db.items)
                       && db.usages == old(db.usages)
    ensures r.Ok? <==> GivenText(status) && id in old(db.sales)
    ensures r.Ok? ==>
              var sale := old(db.sales)[id];
              var lines := sale.items;
              var n := |old(db.ledger).records|;
              && id in db.sales && db.sales == old(db.sales)[id := db.sales[id]]
              && (Confirms(sale.status, status.value) ==>
                    SaleConfirmed(old(db.ledger), old(db.items), old(db.usages), old(db.sales), id, status.value,
                                  db.ledger, db.items, db.usages, db.sales, steps, logged))
              && (Reverses(sale.status, status.value) ==>
                    && db.ledger == UndoLines(old(db.ledger), lines)
                    && db.items == Returned(old(db.items), lines)
                    && db.usages == old(db.usages)
                    && (forall i :: 0 <= i < |lines| ==> Untouched(db.ledger, ForSaleItem(lines[i].id)))
                    && db.sales[id] == sale.(status := status.value))
              && (!Confirms(sale.status, status.value) && !Reverses(sale.status, status.value) ==>
                    && db.ledger == old(db.ledger) && db.items == old(db.items) && db.usages == old(db.usages)
                    && db.sales[id] == sale.(status := status.value))
  {
    steps, logged := [], [];
    if !GivenText(status) {
      return Err(400), steps, logged;
    }
    if id !in db.sales {
      return Err(404), steps, logged;
    }
    var st := status.value;
    var sale := db.sales[id];
    if Confirms(sale.status, st) {
      steps, logged := ConfirmSale(db, id, st);
    } else if Reverses(sale.status, st) {
      ReverseSale(db, id, st);
    } else {
      db.SetSale(id, sale.(status := st));
    }
    r := Ok(());
  }
}
