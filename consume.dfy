/** Stock consumption and its reversal on the store, shared by sale confirmation and repair parts.

    Each method is proved against the functions of `Fifo`: the serial pass equals `SerialLoop`, the batch
    pass `BatchLoop` and reversal `Undo`, and each keeps the store invariant. */
module Consume {
  import opened Wrappers
  import opened Entities
  import opened Fifo
  import opened Ordering
  import opened Store

  /** The serials of `itemId` still in stock. */
  function AvailableOf(ss: map<int, Serial>, itemId: int): set<int> {
    set s | s in ss && ss[s].itemId == itemId && ss[s].status == Available
  }

  /** Each serial's sort key: its batch's purchase date. */
  function SerialDates(ss: map<int, Serial>, bs: map<int, Batch>): map<int, int> {
    map s | s in ss && ss[s].batchId in bs :: bs[ss[s].batchId].purchaseDate
  }

  /** The batches of `itemId` with units left (`soldQuantity < totalQuantity`). */
  function OpenOf(bs: map<int, Batch>, itemId: int): set<int> {
    set b | b in bs && bs[b].itemId == Some(itemId) && bs[b].soldQuantity < bs[b].totalQuantity
  }

  function BatchDates(bs: map<int, Batch>): map<int, int> {
    map b | b in bs :: bs[b].purchaseDate
  }

  /** The available serials of an item, oldest batch first. */
  method SerialOrder(l: Ledger, itemId: int) returns (order: seq<int>)
    requires Grounded(l)
    ensures SortedListing(order, AvailableOf(l.serials, itemId), SerialDates(l.serials, l.batches))
  {
    var key := SerialDates(l.serials, l.batches);
    forall s | s in AvailableOf(l.serials, itemId) ensures s in key {
      assert l.serials[s].batchId in l.batches;
    }
    order := SortedIds(AvailableOf(l.serials, itemId), key);
  }

  /** The open batches of an item, oldest first. */
  method BatchOrder(l: Ledger, itemId: int) returns (order: seq<int>)
    ensures SortedListing(order, OpenOf(l.batches, itemId), BatchDates(l.batches))
  {
    order := SortedIds(OpenOf(l.batches, itemId), BatchDates(l.batches));
  }

  /** Sell one serial unit to `o`: mark the serial sold and linked, count the unit on its batch, record it
      and add the batch's unit cost. */
  method SellSerial(bs: map<int, Batch>, ss: map<int, Serial>, rs: seq<BatchRecord>, sid: int, o: Owner,
                    cogs: real, remaining: int)
    returns (bs': map<int, Batch>, ss': map<int, Serial>, rs': seq<BatchRecord>, cogs': real, remaining': int)
    requires Grounded(Ledger(bs, ss, rs)) && sid in ss
    ensures Draw(Ledger(bs', ss', rs'), cogs', remaining') == TakeSerial(Draw(Ledger(bs, ss, rs), cogs, remaining), sid, o)
  {
    var s := ss[sid];
    var b := bs[s.batchId];
    ss' := ss[sid := Link(s, o)];
    bs' := bs[s.batchId := b.(soldQuantity := b.soldQuantity + 1)];
    rs' := rs + [BatchRecord(o, s.batchId, 1)];
    cogs' := cogs + b.unitCost;
    remaining' := remaining - 1;
  }

  /** Take `min(remaining, total − sold)` units of batch `bid` for `o`, record them and add their cost. */
  method TakeFromBatch(bs: map<int, Batch>, ss: map<int, Serial>, rs: seq<BatchRecord>, bid: int, o: Owner,
                       cogs: real, remaining: int)
    returns (bs': map<int, Batch>, rs': seq<BatchRecord>, cogs': real, remaining': int)
    requires Grounded(Ledger(bs, ss, rs)) && bid in bs
    ensures Draw(Ledger(bs', ss, rs'), cogs', remaining') == TakeBatch(Draw(Ledger(bs, ss, rs), cogs, remaining), bid, o)
  {
    var b := bs[bid];
    var take := Min(remaining, b.totalQuantity - b.soldQuantity);
    bs' := bs[bid := b.(soldQuantity := b.soldQuantity + take)];
    rs' := rs + [BatchRecord(o, bid, take)];
    cogs' := cogs + b.unitCost * take as real;
    remaining' := remaining - take;
  }

  /** The serial pass: one unit per serial of `order` until `qty` units are found. */
  method DrawSerials(l: Ledger, order: seq<int>, o: Owner, qty: int) returns (r: Ledger, cogs: real, remaining: int)
    requires Grounded(l)
    requires forall i :: 0 <= i < |order| ==> order[i] in l.serials
    ensures Draw(r, cogs, remaining) == SerialLoop(Draw(l, 0.0, qty), order, o)
  {
    var bs, ss, rs := l.batches, l.serials, l.records;
    ghost var goal := SerialLoop(Draw(l, 0.0, qty), order, o);
    cogs, remaining := 0.0, qty;
    var rest := order;
    while rest != [] && remaining > 0
      invariant Grounded(Ledger(bs, ss, rs))
      invariant forall j :: 0 <= j < |rest| ==> rest[j] in ss
      invariant SerialLoop(Draw(Ledger(bs, ss, rs), cogs, remaining), rest, o) == goal
      decreases |rest|
    {
      var sid := rest[0];
      rest := rest[1..];
      bs, ss, rs, cogs, remaining := SellSerial(bs, ss, rs, sid, o, cogs, remaining);
    }
    r := Ledger(bs, ss, rs);
  }

  /** The batch pass: `min(remaining, total − sold)` from each batch of `order` until nothing remains. */
  method DrawBatches(l: Ledger, order: seq<int>, o: Owner, cogs0: real, remaining0: int)
    returns (r: Ledger, cogs: real, remaining: int)
    requires Grounded(l)
    requires forall i :: 0 <= i < |order| ==> order[i] in l.batches
    ensures Draw(r, cogs, remaining) == BatchLoop(Draw(l, cogs0, remaining0), order, o)
  {
    var bs, rs := l.batches, l.records;
    ghost var goal := BatchLoop(Draw(l, cogs0, remaining0), order, o);
    cogs, remaining := cogs0, remaining0;
    var rest := order;
    while rest != [] && remaining > 0
      invariant Grounded(Ledger(bs, l.serials, rs))
      invariant forall j :: 0 <= j < |rest| ==> rest[j] in bs
      invariant BatchLoop(Draw(Ledger(bs, l.serials, rs), cogs, remaining), rest, o) == goal
      decreases |rest|
    {
      var bid := rest[0];
      rest := rest[1..];
      bs, rs, cogs, remaining := TakeFromBatch(bs, l.serials, rs, bid, o, cogs, remaining);
    }
    r := Ledger(bs, l.serials, rs);
  }

  /** Marking serials sold to `o` keeps IMEIs unique and every link below `n`. */
  lemma MarksKeep(s0: map<int, Serial>, s1: map<int, Serial>, o: Owner, order: seq<int>, rs: seq<BatchRecord>, n: int)
    requires Marks(s0, s1, o, order) && UniqueImeis(s0) && RefsBelow(rs, s0, n) && OwnerId(o) < n
    ensures UniqueImeis(s1) && RefsBelow(rs, s1, n)
  {
    forall a | a in s1 ensures s1[a].imei == s0[a].imei {
    }
  }

  /** Records appended for `o` keep every owner below `n`. */
  lemma AccountsKeep(d: Draw, r: Draw, o: Owner, n: int)
    requires Accounts(d, r, o) && OwnerId(o) < n
    requires forall i :: 0 <= i < |d.ledger.records| ==> OwnerId(d.ledger.records[i].owner) < n
    ensures forall i :: 0 <= i < |r.ledger.records| ==> OwnerId(r.ledger.records[i].owner) < n
  {
    var rs := r.ledger.records;
    forall i | 0 <= i < |rs| ensures OwnerId(rs[i].owner) < n {
      if i < |d.ledger.records| {
        assert rs[i] == rs[..|d.ledger.records|][i];
      }
    }
  }

  /** The serial pass keeps the store invariant: the marked serials were available. */
  lemma SerialPassValid(d: Draw, order: seq<int>, o: Owner, itemId: int, n: int)
    requires LedgerValid(d.ledger, n) && OwnerId(o) < n
    requires forall i :: 0 <= i < |order| ==> order[i] in AvailableOf(d.ledger.serials, itemId)
    ensures forall i :: 0 <= i < |order| ==> order[i] in d.ledger.serials
    ensures LedgerValid(SerialLoop(d, order, o).ledger, n)
  {
    forall i | 0 <= i < |order|
      ensures order[i] in d.ledger.serials && d.ledger.serials[order[i]].status == Available
    {
      assert order[i] in AvailableOf(d.ledger.serials, itemId);
    }
    var r := SerialLoop(d, order, o);
    SerialLoopAccounts(d, order, o);
    SerialLoopMarks(d, order, o);
    SerialLoopUnits(d, order, o);
    DrawSound(d, r, o, order);
    AccountsKeep(d, r, o, n);
    MarksKeep(d.ledger.serials, r.ledger.serials, o, order, r.ledger.records, n);
  }

  /** The batch pass keeps the store invariant: it takes only from open batches. */
  lemma BatchPassValid(d: Draw, order: seq<int>, o: Owner, itemId: int, n: int)
    requires LedgerValid(d.ledger, n) && OwnerId(o) < n && Distinct(order)
    requires forall i :: 0 <= i < |order| ==> order[i] in OpenOf(d.ledger.batches, itemId)
    ensures forall i :: 0 <= i < |order| ==> order[i] in d.ledger.batches
    ensures LedgerValid(BatchLoop(d, order, o).ledger, n)
  {
    forall i | 0 <= i < |order| ensures order[i] in d.ledger.batches {
      assert order[i] in OpenOf(d.ledger.batches, itemId);
    }
    var r := BatchLoop(d, order, o);
    BatchLoopAccounts(d, order, o);
    BatchLoopPositive(d, order, o);
    DrawSound(d, r, o, []);
    AccountsKeep(d, r, o, n);
  }

  /** The whole consumption of `qty` units for `o`: the serial pass over `serialOrder`, then, if units
      are still missing, the batch pass over `batchOrder`. */
  function Consumption(l: Ledger, qty: int, o: Owner, serialOrder: seq<int>, batchOrder: seq<int>): Draw
    requires Grounded(l)
    requires forall i :: 0 <= i < |serialOrder| ==> serialOrder[i] in l.serials
    requires forall i :: 0 <= i < |batchOrder| ==> batchOrder[i] in l.batches
  {
    var m := SerialLoop(Draw(l, 0.0, qty), serialOrder, o);
    if m.remaining > 0 then BatchLoop(m, batchOrder, o) else m
  }

  /** What a consumption leaves behind (see `Fifo.Accounts`): records appended for `o` alone, whose units
      are on their batches, whose cost is the cost of goods and whose quantities add up to the units found. */
  lemma ConsumptionAccounts(l: Ledger, qty: int, o: Owner, serialOrder: seq<int>, batchOrder: seq<int>)
    requires Grounded(l)
    requires forall i :: 0 <= i < |serialOrder| ==> serialOrder[i] in l.serials
    requires forall i :: 0 <= i < |batchOrder| ==> batchOrder[i] in l.batches
    ensures var c := Consumption(l, qty, o, serialOrder, batchOrder);
            Accounts(Draw(l, 0.0, qty), c, o) && (qty >= 0 ==> 0 <= c.remaining)
  {
    var d := Draw(l, 0.0, qty);
    var m := SerialLoop(d, serialOrder, o);
    SerialLoopAccounts(d, serialOrder, o);
    if m.remaining > 0 {
      BatchLoopAccounts(m, batchOrder, o);
      AccountsTrans(d, m, BatchLoop(m, batchOrder, o), o);
    }
  }

  /** Units are only ever found, never given back: with positive records, a consumption records at most
      the units it was asked for. */
  lemma {:induction false} RecordedAtMost(d: Draw, r: Draw, o: Owner)
    requires Accounts(d, r, o) && 0 <= r.remaining && Positive(r.ledger.records)
    ensures 0 <= Quantity(Added(d, r)) <= d.remaining
  {
    var added := Added(d, r);
    forall i | 0 <= i < |added| ensures added[i].quantity > 0 {
      assert added[i] == r.ledger.records[|d.ledger.records| + i];
    }
    QuantityNonNegative(added);
  }

  lemma {:induction false} QuantityNonNegative(rs: seq<BatchRecord>)
    requires Positive(rs)
    ensures Quantity(rs) >= 0
    decreases |rs|
  {
    if rs != [] {
      QuantityNonNegative(rs[..|rs| - 1]);
    }
  }

  /** `r` and `cogs` are what consuming `qty` units of `itemId` for `o` makes of `l`: the serial pass over
      the item's available serials, oldest batch first, then, when the serials fell `short`, the batch pass
      over its open batches, oldest first. */
  predicate Consumed(l: Ledger, r: Ledger, cogs: real, short: bool, itemId: int, qty: int, o: Owner,
                     serialOrder: seq<int>, batchOrder: seq<int>)
  {
    && Grounded(l)
    && SortedListing(serialOrder, AvailableOf(l.serials, itemId), SerialDates(l.serials, l.batches))
    && (forall i :: 0 <= i < |serialOrder| ==> serialOrder[i] in l.serials)
    && (forall i :: 0 <= i < |batchOrder| ==> batchOrder[i] in l.batches)
    && var m := SerialLoop(Draw(l, 0.0, qty), serialOrder, o);
       && short == (m.remaining > 0)
       && (short ==> SortedListing(batchOrder, OpenOf(m.ledger.batches, itemId), BatchDates(m.ledger.batches)))
       && (!short ==> batchOrder == [])
       && r == Consumption(l, qty, o, serialOrder, batchOrder).ledger
       && cogs == Consumption(l, qty, o, serialOrder, batchOrder).cogs
  }

  /** The whole consumption of one line on the tables (see `Consumed`). */
  method ConsumeTables(l: Ledger, itemId: int, qty: int, o: Owner, n: int)
    returns (r: Ledger, cogs: real, short: bool, serialOrder: seq<int>, batchOrder: seq<int>)
    requires LedgerValid(l, n) && OwnerId(o) < n
    ensures LedgerValid(r, n)
    ensures Consumed(l, r, cogs, short, itemId, qty, o, serialOrder, batchOrder)
  {
    serialOrder := SerialOrder(l, itemId);
    SerialPassValid(Draw(l, 0.0, qty), serialOrder, o, itemId, n);
    var remaining;
    r, cogs, remaining := DrawSerials(l, serialOrder, o, qty);
    ghost var m := Draw(r, cogs, remaining);
    assert m == SerialLoop(Draw(l, 0.0, qty), serialOrder, o);
    short := remaining > 0;
    batchOrder := [];
    if short {
      batchOrder := BatchOrder(r, itemId);
      BatchPassValid(m, batchOrder, o, itemId, n);
      r, cogs, remaining := DrawBatches(r, batchOrder, o, cogs, remaining);
    }
    assert Draw(r, cogs, remaining) == Consumption(l, qty, o, serialOrder, batchOrder);
  }

  /** Consume `qty` units of `itemId` for `o` on the store (see `Consumed`). */
  method ConsumeLine(db: Db, itemId: int, qty: int, o: Owner)
    returns (cogs: real, short: bool, serialOrder: seq<int>, batchOrder: seq<int>)
    requires db.Valid() && OwnerId(o) < db.nextId
    modifies db`ledger
    ensures db.Valid()
    ensures Consumed(old(db.ledger), db.ledger, cogs, short, itemId, qty, o, serialOrder, batchOrder)
  {
    var r;
    r, cogs, short, serialOrder, batchOrder := ConsumeTables(db.ledger, itemId, qty, o, db.nextId);
    db.ledger := r;
  }

  /** Take one record's units back off its batch. */
  method ReturnUnits(bs: map<int, Batch>, r: BatchRecord) returns (bs': map<int, Batch>)
    requires r.batchId in bs
    ensures bs' == Moved(bs, r.batchId, -1 * r.quantity)
  {
    var b := bs[r.batchId];
    bs' := bs[r.batchId := b.(soldQuantity := b.soldQuantity - r.quantity)];
  }

  /** The reversal on the tables: every record of `o` taken back off its batch, `o`'s serials released and
      its records deleted. */
  method UndoTables(l: Ledger, o: Owner) returns (u: Ledger, taken: seq<BatchRecord>)
    requires Grounded(l)
    ensures taken == Owned(l.records, o) && u == Undo(l, o)
  {
    taken := Owned(l.records, o);
    var bs := l.batches;
    var i := 0;
    while i < |taken|
      invariant 0 <= i <= |taken|
      invariant bs == Shift(l.batches, taken[..i], -1)
    {
      var r := taken[i];
      assert r in l.records;
      assert taken[..i + 1] == taken[..i] + [r];
      ShiftSnoc(l.batches, taken[..i], r, -1);
      bs := ReturnUnits(bs, r);
      i := i + 1;
    }
    assert taken[..i] == taken;
    u := Ledger(bs, Release(l.serials, o), Disowned(l.records, o));
  }

  /** Reverse `o`'s consumption on the store. Returns the records that were reversed. */
  method Restore(db: Db, o: Owner) returns (taken: seq<BatchRecord>)
    requires db.Valid()
    modifies db`ledger
    ensures taken == Owned(old(db.ledger).records, o)
    ensures db.ledger == Undo(old(db.ledger), o)
    ensures db.Valid() && Untouched(db.ledger, o)
  {
    UndoValid(db.ledger, o, db.nextId);
    db.ledger, taken := UndoTables(db.ledger, o);
  }

  /** Reversal keeps the ledger valid: it only takes recorded units back, clears links and deletes records. */
  lemma UndoValid(l: Ledger, o: Owner, n: int)
    requires LedgerValid(l, n)
    ensures LedgerValid(Undo(l, o), n) && Untouched(Undo(l, o), o)
  {
    UndoSound(l, o);
    var u := Undo(l, o);
    forall a | a in u.serials ensures u.serials[a].imei == l.serials[a].imei {
    }
    forall i | 0 <= i < |u.records| ensures OwnerId(u.records[i].owner) < n {
      assert u.records[i] in l.records;
    }
  }

  /** Deleting a row keeps the ledger valid. */
  lemma DetachValid(l: Ledger, o: Owner, n: int)
    requires LedgerValid(l, n)
    ensures LedgerValid(Detach(l, o), n) && Untouched(Detach(l, o), o)
  {
    DetachSound(l, o);
    var d := Detach(l, o);
    forall a | a in d.serials ensures d.serials[a].imei == l.serials[a].imei {
    }
    forall i | 0 <= i < |d.records| ensures OwnerId(d.records[i].owner) < n {
      assert d.records[i] in l.records;
    }
  }
}
