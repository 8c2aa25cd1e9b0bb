/** The repair handlers: opening a repair case, moving it to another workflow state (cancelling returns its
    parts to stock), adding a part drawn from stock FIFO or a plain line, deleting a line (returning its
    stock) and recording a payment. */
module Repairs {
  import opened Wrappers
  import opened Entities
  import opened Text
  import opened Fifo
  import opened Ordering
  import opened Store
  import opened Consume
  import opened Billing
  import Sales

  // ---------------------------------------------------------------------------------------------------
  // Opening a repair

  /** `CASE-<count + 1>`, the counter padded to four digits. */
  function RepairNumber(count: nat): string {
    "CASE-" + Counter(count + 1)
  }

  /** Different repair counts give different case numbers; the counter reads back as the count plus one
      and is four digits wide up to the 9999th repair. */
  lemma RepairNumberDistinct(a: nat, b: nat)
    ensures RepairNumber(a) == RepairNumber(b) ==> a == b
    ensures var c := RepairNumber(a)[|"CASE-"|..]; AllDigits(c) && DigitsValue(c) == a + 1
    ensures a < 9999 ==> |RepairNumber(a)| == 9
  {
    assert RepairNumber(a)[|"CASE-"|..] == Counter(a + 1);
    CounterReadsBack(a + 1);
    if RepairNumber(a) == RepairNumber(b) {
      NumberedInjective("CASE-", a + 1, b + 1);
    }
  }

  /** One line given with a new repair. */
  datatype PartRequest = PartRequest(itemName: string, description: Option<string>, quantity: int,
                                     unitPrice: real, totalPrice: real, isLabor: bool)

  /** The lines a new repair is created with: one per request, under the ids after the repair's own. */
  function PartRows(qs: seq<PartRequest>, repairId: int): (r: seq<RepairItem>)
    ensures |r| == |qs|
    ensures forall i :: 0 <= i < |qs| ==>
              && r[i].id == repairId + 1 + i && r[i].repairId == repairId && r[i].itemName == qs[i].itemName
              && r[i].description == qs[i].description && r[i].quantity == qs[i].quantity
              && r[i].unitPrice == qs[i].unitPrice && r[i].totalPrice == qs[i].totalPrice
              && r[i].isLabor == qs[i].isLabor
  {
    seq(|qs|, i requires 0 <= i < |qs| =>
      RepairItem(repairId + 1 + i, repairId, qs[i].itemName, qs[i].description, qs[i].quantity,
                 qs[i].unitPrice, qs[i].totalPrice, qs[i].isLabor))
  }

  /** The states called exactly `name`. */
  function StatesNamed(states: map<int, string>, name: string): set<int> {
    set k | k in states && states[k] == name
  }

  /** Open a repair case. Without a customer, a device brand, a device model or a problem description it
      answers 400; without a state called "Received" 500; for an unknown customer 400 (the foreign key).
      Otherwise the repair gets the next case number, the first "Received" state, priority "normal" unless
      one is given, no completion date and payment status pending, and its lines are created with it. */
  method Create(db: Db, customerId: Option<int>, deviceBrand: Option<string>, deviceModel: Option<string>,
                problemDescription: Option<string>, priority: Option<string>, serviceCharge: Option<real>,
                finalCost: Option<real>, parts: seq<PartRequest>, now: int)
    returns (r: Result<int>)
    requires db.Valid()
    modifies db`repairs, db`repairItems, db`nextId
    ensures db.Valid()
    ensures (!GivenId(customerId) || !GivenText(deviceBrand) || !GivenText(deviceModel)
             || !GivenText(problemDescription)) ==> r == Err(400)
    ensures (GivenId(customerId) && GivenText(deviceBrand) && GivenText(deviceModel) && GivenText(problemDescription)
             && StatesNamed(db.repairStates, "Received") == {}) ==> r == Err(500)
    ensures r.Ok? <==> GivenId(customerId) && GivenText(deviceBrand) && GivenText(deviceModel)
                       && GivenText(problemDescription) && StatesNamed(db.repairStates, "Received") != {}
                       && customerId.value in db.customers
    ensures r.Err? ==> db.repairs == old(db.repairs) && db.repairItems == old(db.repairItems)
                       && db.nextId == old(db.nextId)
    ensures r.Ok? ==> r.value in db.repairs
    ensures r.Ok? ==>
              var rep := db.repairs[r.value];
              && r.value == old(db.nextId) && r.value !in old(db.repairs)
              && db.repairs == old(db.repairs)[r.value := rep]
              && rep.repairNumber == RepairNumber(|old(db.repairs)|)
              && rep.customerId == customerId.value && rep.deviceBrand == deviceBrand.value
              && rep.deviceModel == deviceModel.value && rep.problemDescription == problemDescription.value
              && rep.priority == (if GivenText(priority) then priority.value else "normal")
              && rep.stateId in StatesNamed(db.repairStates, "Received")
              && (forall k :: k in StatesNamed(db.repairStates, "Received") ==> rep.stateId <= k)
              && rep.serviceCharge == serviceCharge && rep.finalCost == finalCost
              && rep.completedDate == None && rep.paymentStatus == Pending && rep.createdAt == now
              && db.repairItems == old(db.repairItems) + PartRows(parts, r.value)
  {
    if !GivenId(customerId) || !GivenText(deviceBrand) || !GivenText(deviceModel) || !GivenText(problemDescription) {
      return Err(400);
    }
    var number := RepairNumber(|db.repairs|);
    var received := LeastOf(StatesNamed(db.repairStates, "Received"));
    if received.None? {
      return Err(500);
    }
    if customerId.value !in db.customers {
      return Err(400);
    }
    var rep := Repair(number, customerId.value, deviceBrand.value, deviceModel.value, problemDescription.value,
                      if GivenText(priority) then priority.value else "normal", received.value, serviceCharge,
                      finalCost, None, Pending, now);
    var id := db.AddRepair(rep, PartRows(parts, db.nextId));
    r := Ok(id);
  }

  // ---------------------------------------------------------------------------------------------------
  // Workflow state

  /** The completion date after a move to state `name` at `now`: the move's time when the state is
      "Delivered", the date it had otherwise. */
  function Completion(name: string, completed: Option<int>, now: int): Option<int> {
    if name == "Delivered" then Some(now) else completed
  }

  /** A repair's completion date after a run of state moves, each a state name and a time. */
  function Replay(completed: Option<int>, moves: seq<(string, int)>): Option<int> {
    if moves == [] then completed
    else Completion(moves[|moves| - 1].0, Replay(completed, moves[..|moves| - 1]), moves[|moves| - 1].1)
  }

  /** After any run of moves the completion date is the time of the last move to "Delivered", and the
      date it started with when there was none. */
  lemma {:induction false} ReplayLastDelivery(completed: Option<int>, moves: seq<(string, int)>, k: int)
    ensures (forall i :: 0 <= i < |moves| ==> moves[i].0 != "Delivered") ==> Replay(completed, moves) == completed
    ensures 0 <= k < |moves| && moves[k].0 == "Delivered" && (forall j :: k < j < |moves| ==> moves[j].0 != "Delivered")
            ==> Replay(completed, moves) == Some(moves[k].1)
    decreases |moves|
  {
    if moves != [] {
      var init := moves[..|moves| - 1];
      assert forall i :: 0 <= i < |init| ==> init[i] == moves[i];
      ReplayLastDelivery(completed, init, k);
    }
  }

  /** Move repair `id` to state `stateId`: 400 without a state, 404 for an unknown repair or state.
      Moving to "Delivered" stamps the completion date with `now`; any other state keeps it. */
  method UpdateState(db: Db, id: int, stateId: Option<int>, now: int) returns (r: Result<()>)
    requires db.Valid()
    modifies db`repairs
    ensures db.Valid()
    ensures !GivenId(stateId) ==> r == Err(400)
    ensures GivenId(stateId) && (id !in old(db.repairs) || stateId.value !in db.repairStates) ==> r == Err(404)
    ensures r.Ok? <==> GivenId(stateId) && id in old(db.repairs) && stateId.value in db.repairStates
    ensures r.Err? ==> db.repairs == old(db.repairs)
    ensures r.Ok? ==>
              var rep := old(db.repairs)[id];
              db.repairs == old(db.repairs)[id := rep.(stateId := stateId.value,
                completedDate := Completion(db.repairStates[stateId.value], rep.completedDate, now))]
  {
    if !GivenId(stateId) {
      return Err(400);
    }
    if id !in db.repairs || stateId.value !in db.repairStates {
      return Err(404);
    }
    var rep := db.repairs[id];
    db.SetRepair(id, rep.(stateId := stateId.value,
                          completedDate := Completion(db.repairStates[stateId.value], rep.completedDate, now)));
    r := Ok(());
  }

  // ---------------------------------------------------------------------------------------------------
  // Returning parts to stock

  /** The item a record's batch belongs to, if the batch names one. */
  function ItemOf(bs: map<int, Batch>, rec: BatchRecord): Option<int> {
    if rec.batchId in bs then bs[rec.batchId].itemId else None
  }

  /** Each record's units added back to the stock of its batch's item; a record whose batch names no
      item, or an item that is gone, returns nothing. */
  function RestockRecords(items: map<int, Item>, bs: map<int, Batch>, rs: seq<BatchRecord>): (r: map<int, Item>)
    ensures r.Keys == items.Keys
  {
    if rs == [] then items
    else
      var init := RestockRecords(items, bs, rs[..|rs| - 1]);
      var rec := rs[|rs| - 1];
      var it := ItemOf(bs, rec);
      if it.Some? && it.value in init then Sales.Restocked(init, it.value, init[it.value].stockQuantity + rec.quantity)
      else init
  }

  /** The units `rs` records on batches of item `k`. */
  function UnitsFor(bs: map<int, Batch>, rs: seq<BatchRecord>, k: int): int {
    if rs == [] then 0
    else UnitsFor(bs, rs[..|rs| - 1], k) + (if ItemOf(bs, rs[|rs| - 1]) == Some(k) then rs[|rs| - 1].quantity else 0)
  }

  /** Returning records to stock raises each item's stock by exactly the units recorded on that item's
      batches, and changes nothing else about the item. */
  lemma {:induction false} RestockRecordsCount(items: map<int, Item>, bs: map<int, Batch>, rs: seq<BatchRecord>, k: int)
    requires k in items
    ensures RestockRecords(items, bs, rs)[k]
         == items[k].(stockQuantity := items[k].stockQuantity + UnitsFor(bs, rs, k))
    decreases |rs|
  {
    if rs != [] {
      RestockRecordsCount(items, bs, rs[..|rs| - 1], k);
    }
  }

  /** The stock-return loop: each record's units back on its batch's item. */
  method ReturnStock(items: map<int, Item>, bs: map<int, Batch>, rs: seq<BatchRecord>) returns (items': map<int, Item>)
    ensures items' == RestockRecords(items, bs, rs)
  {
    items' := items;
    var i := 0;
    while i < |rs|
      invariant 0 <= i <= |rs|
      invariant items' == RestockRecords(items, bs, rs[..i])
    {
      assert rs[..i + 1][..i] == rs[..i];
      var rec := rs[i];
      if rec.batchId in bs && bs[rec.batchId].itemId.Some? && bs[rec.batchId].itemId.value in items' {
        var k := bs[rec.batchId].itemId.value;
        items' := Sales.Restocked(items', k, items'[k].stockQuantity + rec.quantity);
      }
      i := i + 1;
    }
    assert rs[..i] == rs;
  }

  /** The consumption tables and the item table together. */
  datatype Stock = Stock(ledger: Ledger, items: map<int, Item>)

  /** Return one repair line's stock: its records come off their batches, its serials are freed, its
      records' units go back to their batches' items and its records are deleted. */
  function ReturnPart(s: Stock, o: Owner): Stock {
    Stock(Undo(s.ledger, o), RestockRecords(s.items, s.ledger.batches, Owned(s.ledger.records, o)))
  }

  /** Return every line of a repair, in line order. */
  function ReturnParts(s: Stock, parts: seq<RepairItem>): Stock {
    if parts == [] then s
    else ReturnPart(ReturnParts(s, parts[..|parts| - 1]), ForRepairItem(parts[|parts| - 1].id))
  }

  /** Returning lines keeps the ledger valid and every item. */
  lemma {:induction false} ReturnPartsValid(s: Stock, parts: seq<RepairItem>, n: int)
    requires LedgerValid(s.ledger, n)
    ensures LedgerValid(ReturnParts(s, parts).ledger, n) && ReturnParts(s, parts).items.Keys == s.items.Keys
    decreases |parts|
  {
    if parts != [] {
      var p := ReturnParts(s, parts[..|parts| - 1]);
      ReturnPartsValid(s, parts[..|parts| - 1], n);
      UndoValid(p.ledger, ForRepairItem(parts[|parts| - 1].id), n);
    }
  }

  /** After returning lines, none of them has a record or a serial left. */
  lemma {:induction false} ReturnPartsClears(s: Stock, parts: seq<RepairItem>)
    ensures forall i :: 0 <= i < |parts| ==> Untouched(ReturnParts(s, parts).ledger, ForRepairItem(parts[i].id))
    decreases |parts|
  {
    if parts != [] {
      var init := parts[..|parts| - 1];
      var last := ForRepairItem(parts[|parts| - 1].id);
      ReturnPartsClears(s, init);
      var p := ReturnParts(s, init);
      assert ReturnParts(s, parts) == ReturnPart(p, last);
      forall i | 0 <= i < |parts| ensures Untouched(Undo(p.ledger, last), ForRepairItem(parts[i].id)) {
        if i < |init| {
          assert parts[i] == init[i];
          Sales.UntouchedKept(p.ledger, ForRepairItem(parts[i].id), last);
        }
      }
    }
  }

  /** Returning lines that hold no stock changes nothing: a second cancellation returns nothing. */
  lemma {:induction false} ReturnPartsIdle(s: Stock, parts: seq<RepairItem>)
    requires forall i :: 0 <= i < |parts| ==> Untouched(s.ledger, ForRepairItem(parts[i].id))
    ensures ReturnParts(s, parts) == s
    decreases |parts|
  {
    if parts != [] {
      var init := parts[..|parts| - 1];
      var last := ForRepairItem(parts[|parts| - 1].id);
      assert forall i :: 0 <= i < |init| ==> init[i] == parts[i];
      ReturnPartsIdle(s, init);
      UndoIdle(s.ledger, last);
      FilterNone(s.ledger.records, last);
    }
  }

  /** Return one line's stock on the tables (see `ReturnPart`). */
  method ReturnLine(l: Ledger, items: map<int, Item>, o: Owner) returns (l': Ledger, items': map<int, Item>)
    requires Grounded(l)
    ensures Stock(l', items') == ReturnPart(Stock(l, items), o)
  {
    var taken;
    l', taken := UndoTables(l, o);
    items' := ReturnStock(items, l.batches, taken);
  }

  /** Return every line of a repair in line order (see `ReturnParts`). */
  method ReturnLines(l: Ledger, items: map<int, Item>, parts: seq<RepairItem>, n: int)
    returns (l': Ledger, items': map<int, Item>)
    requires LedgerValid(l, n)
    ensures LedgerValid(l', n) && items'.Keys == items.Keys
    ensures Stock(l', items') == ReturnParts(Stock(l, items), parts)
  {
    l', items' := l, items;
    var i := 0;
    while i < |parts|
      invariant 0 <= i <= |parts|
      invariant Stock(l', items') == ReturnParts(Stock(l, items), parts[..i])
    {
      assert parts[..i + 1][..i] == parts[..i];
      ReturnPartsValid(Stock(l, items), parts[..i], n);
      l', items' := ReturnLine(l', items', ForRepairItem(parts[i].id));
      i := i + 1;
    }
    assert parts[..i] == parts;
    ReturnPartsValid(Stock(l, items), parts, n);
  }

  /** The states whose name matches `status` ignoring case. */
  function StatesMatching(states: map<int, string>, status: string): set<int> {
    set k | k in states && Lower(states[k]) == Lower(status)
  }

  /** The tables `l`, `items` are `l0`, `items0` with every line of `parts` returned to stock in line
      order, and no line of `parts` owns a record any more. */
  predicate PartsReturned(l0: Ledger, items0: map<int, Item>, l: Ledger, items: map<int, Item>, parts: seq<RepairItem>) {
    && Stock(l, items) == ReturnParts(Stock(l0, items0), parts)
    && forall i :: 0 <= i < |parts| ==> Untouched(l, ForRepairItem(parts[i].id))
  }

  /** Return every line of repair `id` to stock (see `ReturnParts`). */
  method Cancel(db: Db, id: int)
    requires db.Valid()
    modifies db`ledger, db`items
    ensures db.Valid()
    ensures PartsReturned(old(db.ledger), old(db.items), db.ledger, db.items, PartsOf(db.repairItems, id))
  {
    var parts := PartsOf(db.repairItems, id);
    var l, items := ReturnLines(db.ledger, db.items, parts, db.nextId);
    ReturnPartsClears(Stock(db.ledger, db.items), parts);
    db.WriteLedger(l, items);
  }

  /** A state name that means "cancelled", in any case. */
  predicate Cancelling(name: string) {
    Lower(name) == "cancelled"
  }

  /** Move repair `id` to the first state whose name matches `status` ignoring case: 400 without a status,
      404 for an unknown repair or state. The completion date follows `Completion`. When the new state is
      called "cancelled" in any case, every line of the repair is returned to stock. */
  method UpdateStatus(db: Db, id: int, status: Option<string>, now: int) returns (r: Result<()>)
    requires db.Valid()
    modifies db`repairs, db`ledger, db`items
    ensures db.Valid()
    ensures !GivenText(status) ==> r == Err(400)
    ensures GivenText(status) && (id !in old(db.repairs) || StatesMatching(db.repairStates, status.value) == {})
            ==> r == Err(404)
    ensures r.Ok? <==> GivenText(status) && id in old(db.repairs) && StatesMatching(db.repairStates, status.value) != {}
    ensures r.Err? ==> db.repairs == old(db.repairs) && db.ledger == old(db.ledger) && db.items == old(db.items)
    ensures r.Ok? ==> id in db.repairs && db.repairs[id].stateId in StatesMatching(db.repairStates, status.value)
    ensures r.Ok? ==>
              var rep := old(db.repairs)[id];
              var s := db.repairs[id].stateId;
              var name := db.repairStates[s];
              var parts := PartsOf(db.repairItems, id);
              && (forall k :: k in StatesMatching(db.repairStates, status.value) ==> s <= k)
              && db.repairs == old(db.repairs)[id := rep.(stateId := s, completedDate := Completion(name, rep.completedDate, now))]
              && (Cancelling(name) ==> PartsReturned(old(db.ledger), old(db.items), db.ledger, db.items, parts))
              && (!Cancelling(name) ==> db.ledger == old(db.ledger) && db.items == old(db.items))
  {
    if !GivenText(status) {
      return Err(400);
    }
    if id !in db.repairs {
      return Err(404);
    }
    var s := LeastOf(StatesMatching(db.repairStates, status.value));
    if s.None? {
      return Err(404);
    }
    MoveTo(db, id, s.value, now);
    r := Ok(());
  }

  /** The accepted path of `UpdateStatus`: repair `id` enters state `s`, and a state called "cancelled"
      returns its lines to stock. */
  method MoveTo(db: Db, id: int, s: int, now: int)
    requires db.Valid() && id in db.repairs && s in db.repairStates
    modifies db`repairs, db`ledger, db`items
    ensures db.Valid()
    ensures
      var rep := old(db.repairs)[id];
      db.repairs == old(db.repairs)[id := rep.(stateId := s, completedDate := Completion(db.repairStates[s], rep.completedDate, now))]
    ensures Cancelling(db.repairStates[s]) ==>
              PartsReturned(old(db.ledger), old(db.items), db.ledger, db.items, PartsOf(db.repairItems, id))
    ensures !Cancelling(db.repairStates[s]) ==> unchanged(db`ledger, db`items)
  {
    var rep := db.repairs[id];
    var name := db.repairStates[s];
    db.SetRepair(id, rep.(stateId := s, completedDate := Completion(name, rep.completedDate, now)));
    if Cancelling(name) {
      Cancel(db, id);
    }
  }

  // ---------------------------------------------------------------------------------------------------
  // Adding a line

  /** A consumed line's records extend the old ones and belong to it alone, `cogs` is their cost, and,
      when the line had consumed nothing before, reversing it gives the tables back exactly. */
  lemma ConsumedAccounts(l: Ledger, r: Ledger, cogs: real, short: bool, itemId: int, qty: int, o: Owner,
                         serialOrder: seq<int>, batchOrder: seq<int>)
    requires Consumed(l, r, cogs, short, itemId, qty, o, serialOrder, batchOrder)
    ensures Extends(l.records, r.records)
    ensures forall k :: |l.records| <= k < |r.records| ==> r.records[k].owner == o
    ensures r.batches == Shift(l.batches, r.records[|l.records|..], 1)
    ensures cogs == Cost(r.records[|l.records|..], l.batches)
    ensures Linked(l.serials) && Untouched(l, o) ==> Undo(r, o) == l
  {
    ConsumptionAccounts(l, qty, o, serialOrder, batchOrder);
    if Linked(l.serials) && Untouched(l, o) {
      ListedAvailable(l.serials, itemId, serialOrder);
      ConsumeThenUndo(Draw(l, 0.0, qty), serialOrder, batchOrder, o);
    }
  }

  /** A listing of an item's available serials names available serials only. */
  lemma ListedAvailable(ss: map<int, Serial>, itemId: int, order: seq<int>)
    requires forall i :: 0 <= i < |order| ==> order[i] in AvailableOf(ss, itemId)
    ensures forall i :: 0 <= i < |order| ==> order[i] in ss && ss[order[i]].status == Available
  {
    forall i | 0 <= i < |order| ensures order[i] in ss && ss[order[i]].status == Available {
      assert order[i] in AvailableOf(ss, itemId);
    }
  }

  /** An owner whose id is not handed out yet has consumed nothing. */
  lemma FreshUntouched(l: Ledger, n: int, o: Owner)
    requires LedgerValid(l, n) && OwnerId(o) >= n
    ensures Untouched(l, o)
  {
  }

  /** Consume a new part's quantity of `itemId` FIFO (see `Consumed`), take the quantity off the item's
      stock and write the usage row, whose unit cost is the cost of goods per unit. */
  method ConsumePart(l: Ledger, items: map<int, Item>, itemId: int, part: RepairItem, repairNumber: string, n: int)
    returns (l': Ledger, items': map<int, Item>, usage: StockUsage, cogs: real, short: bool,
             serialOrder: seq<int>, batchOrder: seq<int>)
    requires LedgerValid(l, n) && itemId in items && part.id < n
    ensures LedgerValid(l', n)
    ensures Consumed(l, l', cogs, short, itemId, part.quantity, ForRepairItem(part.id), serialOrder, batchOrder)
    ensures items' == Sales.Restocked(items, itemId, items[itemId].stockQuantity - part.quantity)
    ensures usage == StockUsage(itemId, Some(part.repairId), part.quantity, Sales.UnitCost(cogs, part.quantity),
                                "Used in repair #" + repairNumber)
  {
    l', cogs, short, serialOrder, batchOrder := ConsumeTables(l, itemId, part.quantity, ForRepairItem(part.id), n);
    items' := Sales.Restocked(items, itemId, items[itemId].stockQuantity - part.quantity);
    usage := StockUsage(itemId, Some(part.repairId), part.quantity, Sales.UnitCost(cogs, part.quantity),
                        "Used in repair #" + repairNumber);
  }

  /** Drawing `quantity` of `itemId` for owner `o`, told by what it leaves behind: the records are the
      FIFO draw (see `Consumed`), they extend the old ones and belong to `o` alone, `cogs` is their cost,
      reversing `o` gives the tables back exactly, and the item's stock drops by the quantity. */
  predicate PartDrawn(l: Ledger, items: map<int, Item>, itemId: int, quantity: int, o: Owner,
                      l': Ledger, items': map<int, Item>, cogs: real, short: bool,
                      serialOrder: seq<int>, batchOrder: seq<int>)
    requires itemId in items
  {
    && Consumed(l, l', cogs, short, itemId, quantity, o, serialOrder, batchOrder)
    && items' == Sales.Restocked(items, itemId, items[itemId].stockQuantity - quantity)
    && Extends(l.records, l'.records)
    && (forall k :: |l.records| <= k < |l'.records| ==> l'.records[k].owner == o)
    && cogs == Cost(l'.records[|l.records|..], l.batches)
    && Undo(l', o) == l
  }

  /** `ConsumePart` for a part whose id was just handed out (see `PartDrawn`), the usage row priced at
      the cost of goods per unit. */
  method DrawPart(l: Ledger, items: map<int, Item>, itemId: int, part: RepairItem, repairNumber: string, n: int)
    returns (l': Ledger, items': map<int, Item>, usage: StockUsage, ghost cogs: real, ghost short: bool,
             ghost serialOrder: seq<int>, ghost batchOrder: seq<int>)
    requires LedgerValid(l, n - 1) && itemId in items && part.id == n - 1
    ensures LedgerValid(l', n) && items'.Keys == items.Keys
    ensures PartDrawn(l, items, itemId, part.quantity, ForRepairItem(part.id), l', items', cogs, short,
                      serialOrder, batchOrder)
    ensures usage == StockUsage(itemId, Some(part.repairId), part.quantity, Sales.UnitCost(cogs, part.quantity),
                                "Used in repair #" + repairNumber)
  {
    LedgerValidGrows(l, n - 1, n);
    FreshUntouched(l, n - 1, ForRepairItem(part.id));
    var c, sh, so, bo;
    l', items', usage, c, sh, so, bo := ConsumePart(l, items, itemId, part, repairNumber, n);
    ConsumedAccounts(l, l', c, sh, itemId, part.quantity, ForRepairItem(part.id), so, bo);
    cogs, short, serialOrder, batchOrder := c, sh, so, bo;
  }

  /** The line a stock item makes: the item's name, the given description or else the item's, the given
      unit price or else the item's selling price, and the given total or else price × quantity. */
  function StockPartRow(id: int, repairId: int, item: Item, description: Option<string>, quantity: int,
                        unitPrice: Option<real>, totalPrice: Option<real>): (p: RepairItem)
    ensures p.id == id && p.repairId == repairId && p.itemName == item.name && p.quantity == quantity && !p.isLabor
    ensures p.description == (if GivenText(description) then description else item.description)
    ensures unitPrice.Some? ==> p.unitPrice == unitPrice.value
    ensures unitPrice.None? ==> p.unitPrice == item.sellingPrice
    ensures totalPrice.Some? ==> p.totalPrice == totalPrice.value
    ensures totalPrice.None? ==> p.totalPrice == p.unitPrice * quantity as real
  {
    var price := unitPrice.GetOr(item.sellingPrice);
    RepairItem(id, repairId, item.name, if GivenText(description) then description else item.description,
               quantity, price, totalPrice.GetOr(price * quantity as real), false)
  }

  /** Insert `part` under the next id, draw its quantity of `itemId` for it (see `PartDrawn`) and log
      the usage at the cost of goods per unit. */
  method CommitPart(db: Db, part: RepairItem, itemId: int, repairNumber: string)
    returns (pid: int, ghost cogs: real, ghost short: bool, ghost serialOrder: seq<int>, ghost batchOrder: seq<int>)
    requires db.Valid() && itemId in db.items
    modifies db`repairItems, db`nextId, db`ledger, db`items, db`usages
    ensures db.Valid() && pid == old(db.nextId)
    ensures db.repairItems == old(db.repairItems) + [part.(id := pid)]
    ensures PartDrawn(old(db.ledger), old(db.items), itemId, part.quantity, ForRepairItem(pid), db.ledger, db.items,
                      cogs, short, serialOrder, batchOrder)
    ensures db.usages == old(db.usages)
              + [StockUsage(itemId, Some(part.repairId), part.quantity, Sales.UnitCost(cogs, part.quantity),
                            "Used in repair #" + repairNumber)]
  {
    var l, items, usage;
    l, items, usage, cogs, short, serialOrder, batchOrder :=
      DrawPart(db.ledger, db.items, itemId, part.(id := db.nextId), repairNumber, db.nextId + 1);
    pid := db.AddPart(part);
    db.WriteStock(l, items, db.usages + [usage]);
  }

  /** What adding stock item `itemId` as a line of repair `id` under id `pid` does to the tables: the
      line row (see `StockPartRow`) is appended, the quantity is drawn for it (see `PartDrawn`) out of
      a stock that held enough, and one usage row is logged at the cost of goods per unit. */
  predicate StockLineAdded(repairs: map<int, Repair>, parts: seq<RepairItem>, nextId: int, l: Ledger,
                           items: map<int, Item>, usages: seq<StockUsage>,
                           id: int, itemId: int, description: Option<string>, quantity: int,
                           unitPrice: Option<real>, totalPrice: Option<real>, pid: int,
                           parts': seq<RepairItem>, l': Ledger, items': map<int, Item>, usages': seq<StockUsage>,
                           cogs: real, short: bool, serialOrder: seq<int>, batchOrder: seq<int>)
    requires id in repairs && itemId in items
  {
    var item := items[itemId];
    && pid == nextId && item.stockQuantity >= quantity
    && parts' == parts + [StockPartRow(pid, id, item, description, quantity, unitPrice, totalPrice)]
    && PartDrawn(l, items, itemId, quantity, ForRepairItem(pid), l', items', cogs, short, serialOrder, batchOrder)
    && usages' == usages + [StockUsage(itemId, Some(id), quantity, Sales.UnitCost(cogs, quantity),
                                       "Used in repair #" + repairs[id].repairNumber)]
  }

  /** Add a stock item to repair `id`: 404 for an unknown item, 400 when its stock is below `quantity`.
      The line takes the item's name, the given description or else the item's, the given unit price or
      else the selling price, and the given total or else price × quantity; then the quantity is consumed
      FIFO for the line, taken off the item's stock and logged (see `StockLineAdded`). */
  method AddStockPart(db: Db, id: int, itemId: int, description: Option<string>, quantity: int,
                      unitPrice: Option<real>, totalPrice: Option<real>)
    returns (r: Result<int>, ghost cogs: real, ghost short: bool, ghost serialOrder: seq<int>, ghost batchOrder: seq<int>)
    requires db.Valid() && id in db.repairs
    modifies db`repairItems, db`nextId, db`ledger, db`items, db`usages
    ensures db.Valid()
    ensures itemId !in old(db.items) ==> r == Err(404)
    ensures itemId in old(db.items) && old(db.items)[itemId].stockQuantity < quantity ==> r == Err(400)
    ensures r.Ok? <==> itemId in old(db.items) && old(db.items)[itemId].stockQuantity >= quantity
    ensures r.Err? ==> db.repairItems == old(db.repairItems) && db.nextId == old(db.nextId) && db.ledger == old(db.ledger)
                       && db.items == old(db.items) && db.usages == old(db.usages)
    ensures r.Ok? ==>
              StockLineAdded(old(db.repairs), old(db.repairItems), old(db.nextId), old(db.ledger), old(db.items),
                             old(db.usages), id, itemId, description, quantity, unitPrice, totalPrice, r.value,
                             db.repairItems, db.ledger, db.items, db.usages, cogs, short, serialOrder, batchOrder)
  {
    cogs, short, serialOrder, batchOrder := 0.0, false, [], [];
    if itemId !in db.items {
      return Err(404), cogs, short, serialOrder, batchOrder;
    }
    var item := db.items[itemId];
    if item.stockQuantity < quantity {
      return Err(400), cogs, short, serialOrder, batchOrder;
    }
    var part := StockPartRow(0, id, item, description, quantity, unitPrice, totalPrice);
    var pid;
    pid, cogs, short, serialOrder, batchOrder := CommitPart(db, part, itemId, db.repairs[id].repairNumber);
    assert part.(id := pid) == StockPartRow(pid, id, item, description, quantity, unitPrice, totalPrice);
    r := Ok(pid);
  }

  /** Add a line to repair `id` (404 when there is none): a stock item when `itemId` is given (see
      `AddStockPart`), otherwise a plain line with the given fields and no stock movement. */
  method AddItem(db: Db, id: int, itemId: Option<int>, itemName: string, description: Option<string>, quantity: int,
                 unitPrice: Option<real>, totalPrice: Option<real>, isLabor: bool)
    returns (r: Result<int>, ghost cogs: real, ghost short: bool, ghost serialOrder: seq<int>, ghost batchOrder: seq<int>)
    requires db.Valid()
    modifies db`repairItems, db`nextId, db`ledger, db`items, db`usages
    ensures db.Valid()
    ensures id !in old(db.repairs) ==> r == Err(404)
    ensures id in old(db.repairs) && GivenId(itemId) ==>
              && (itemId.value !in old(db.items) ==> r == Err(404))
              && (r.Ok? <==> itemId.value in old(db.items) && old(db.items)[itemId.value].stockQuantity >= quantity)
              && (r.Ok? ==>
                    StockLineAdded(old(db.repairs), old(db.repairItems), old(db.nextId), old(db.ledger), old(db.items),
                                   old(db.usages), id, itemId.value, description, quantity, unitPrice, totalPrice,
                                   r.value, db.repairItems, db.ledger, db.items, db.usages, cogs, short,
                                   serialOrder, batchOrder))
    ensures id in old(db.repairs) && !GivenId(itemId) ==>
              && r.Ok? && r.value == old(db.nextId)
              && db.repairItems == old(db.repairItems)
                   + [RepairItem(r.value, id, itemName, description, quantity, unitPrice.GetOr(0.0),
                                 totalPrice.GetOr(0.0), isLabor)]
              && db.ledger == old(db.ledger) && db.items == old(db.items) && db.usages == old(db.usages)
    ensures r.Err? ==> db.repairItems == old(db.repairItems) && db.nextId == old(db.nextId) && db.ledger == old(db.ledger)
                       && db.items == old(db.items) && db.usages == old(db.usages)
  {
    cogs, short, serialOrder, batchOrder := 0.0, false, [], [];
    if id !in db.repairs {
      return Err(404), cogs, short, serialOrder, batchOrder;
    }
    if GivenId(itemId) {
      r, cogs, short, serialOrder, batchOrder := AddStockPart(db, id, itemId.value, description, quantity, unitPrice, totalPrice);
      return;
    }
    var pid := db.AddPart(RepairItem(0, id, itemName, description, quantity, unitPrice.GetOr(0.0),
                                     totalPrice.GetOr(0.0), isLabor));
    r := Ok(pid);
  }

  // ---------------------------------------------------------------------------------------------------
  // Deleting a line

  /** Delete repair line `partId`, returning its stock first (see `ReturnPart`); an unknown line fails in
      the deletion (400) and changes nothing. */
  method DeleteItem(db: Db, partId: int) returns (r: Result<()>)
    requires db.Valid()
    modifies db`ledger, db`items, db`repairItems
    ensures db.Valid()
    ensures PartIndex(old(db.repairItems), partId).None? <==> r == Err(400)
    ensures r.Err? ==> db.ledger == old(db.ledger) && db.items == old(db.items) && db.repairItems == old(db.repairItems)
    ensures r.Ok? ==>
              var k := PartIndex(old(db.repairItems), partId).value;
              && Stock(db.ledger, db.items) == ReturnPart(Stock(old(db.ledger), old(db.items)), ForRepairItem(partId))
              && Untouched(db.ledger, ForRepairItem(partId))
              && db.repairItems == old(db.repairItems)[..k] + old(db.repairItems)[k + 1..]
  {
    var k := PartIndex(db.repairItems, partId);
    if k.None? {
      return Err(400);
    }
    var o := ForRepairItem(partId);
    UndoValid(db.ledger, o, db.nextId);
    var l, items := ReturnLine(db.ledger, db.items, o);
    db.WriteLedger(l, items);
    db.RemovePartAt(k.value);
    r := Ok(());
  }

  /** Deleting a stock part after adding it gives the item back the units recorded on its own batches:
      all of the quantity taken off whenever every unit came from a batch of that item. */
  lemma AddThenDelete(l: Ledger, r: Ledger, items: map<int, Item>, itemId: int, qty: int, o: Owner)
    requires Extends(l.records, r.records) && itemId in items
    requires forall k :: |l.records| <= k < |r.records| ==> r.records[k].owner == o
    requires forall k :: 0 <= k < |l.records| ==> l.records[k].owner != o
    ensures var back := ReturnPart(Stock(r, Sales.Restocked(items, itemId, items[itemId].stockQuantity - qty)), o);
            back.items[itemId].stockQuantity
            == items[itemId].stockQuantity - qty + UnitsFor(r.batches, r.records[|l.records|..], itemId)
  {
    var added := r.records[|l.records|..];
    assert r.records == l.records + added;
    forall k | 0 <= k < |added| ensures added[k].owner == o {
      assert added[k] == r.records[|l.records| + k];
    }
    FilterAppend(l.records, added, o);
    FilterNone(l.records, o);
    FilterAll(added, o);
    assert Owned(r.records, o) == added;
    var items' := Sales.Restocked(items, itemId, items[itemId].stockQuantity - qty);
    RestockRecordsCount(items', r.batches, added, itemId);
  }

  // ---------------------------------------------------------------------------------------------------
  // Payments

  /** Record a payment for repair `id`: 400 without a payment method or a (non-zero) amount, 404 for an
      unknown repair, 400 for an unknown payment method (the foreign key). The repair's payment status is
      then recomputed from its direct payments against its service charge plus its lines' totals, with a
      tolerance of 0.01. */
  method CreatePayment(db: Db, id: int, methodId: Option<int>, amount: Option<real>, paymentDate: Option<int>,
                       now: int)
    returns (r: Result<int>)
    requires db.Valid()
    modifies db`repairs, db`payments, db`nextId
    ensures db.Valid()
    ensures !GivenId(methodId) || !Given(amount) ==> r == Err(400)
    ensures GivenId(methodId) && Given(amount) && id !in old(db.repairs) ==> r == Err(404)
    ensures r.Ok? <==> GivenId(methodId) && Given(amount) && id in old(db.repairs) && methodId.value in db.paymentMethods
    ensures r.Err? ==> db.repairs == old(db.repairs) && db.payments == old(db.payments) && db.nextId == old(db.nextId)
    ensures r.Ok? ==>
              var rep := old(db.repairs)[id];
              && r.value == old(db.nextId)
              && db.payments == old(db.payments)
                   + [Payment(r.value, None, None, Some(id), methodId.value, amount.value, paymentDate.GetOr(now), None)]
              && db.repairs == old(db.repairs)[id := rep.(paymentStatus :=
                   Classify(PaidTo(db.payments, ToRepair(id)), RepairOwed(rep.serviceCharge, db.repairItems, id), 0.01))]
  {
    if !GivenId(methodId) || !Given(amount) {
      return Err(400);
    }
    if id !in db.repairs {
      return Err(404);
    }
    if methodId.value !in db.paymentMethods {
      return Err(400);
    }
    var rep := db.repairs[id];
    var pid := db.AddPayment(None, None, Some(id), methodId.value, amount.value, paymentDate.GetOr(now), None);
    var owed := RepairOwed(rep.serviceCharge, db.repairItems, id);
    db.SetRepair(id, rep.(paymentStatus := Classify(PaidTo(db.payments, ToRepair(id)), owed, 0.01)));
    r := Ok(pid);
  }
}
