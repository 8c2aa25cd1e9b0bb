/** The stock-consumption rule shared by sale confirmation and repair parts, and its inverse, as
    functions on a snapshot of the batch, serial and consumption-record tables.

    Consumption first takes available serials, one unit each, in the order the caller sorted them (by
    their batch's purchase date); then, for what is left, takes `min(remaining, total − sold)` from each
    aggregate batch in ascending purchase date. Every take appends a consumption record and adds its cost.
    Reversal subtracts the owner's records from their batches, frees the owner's serials and deletes the
    owner's records. */
module Fifo {
  import opened Wrappers
  import opened Entities

  /** The three tables that consumption reads and writes. */
  datatype Ledger = Ledger(batches: map<int, Batch>, serials: map<int, Serial>, records: seq<BatchRecord>)

  /** A consumption in progress: the tables, the cost of goods so far and the units still to find. */
  datatype Draw = Draw(ledger: Ledger, cogs: real, remaining: int)

  predicate LinkedTo(s: Serial, o: Owner) {
    match o
    case ForSaleItem(i) => s.saleItemId == Some(i)
    case ForRepairItem(i) => s.repairItemId == Some(i)
  }

  predicate NoLinks(s: Serial) {
    s.saleItemId == None && s.repairItemId == None
  }

  /** The serial marked sold to `o`. */
  function Link(s: Serial, o: Owner): (t: Serial)
    ensures t.status == Sold && LinkedTo(t, o)
    ensures t.imei == s.imei && t.itemId == s.itemId && t.batchId == s.batchId
  {
    match o
    case ForSaleItem(i) => s.(status := Sold, saleItemId := Some(i))
    case ForRepairItem(i) => s.(status := Sold, repairItemId := Some(i))
  }

  /** The serial returned to stock: available, and no longer pointing at `o`'s kind of line. */
  function Unlink(s: Serial, o: Owner): (t: Serial)
    ensures t.status == Available && !LinkedTo(t, o)
    ensures t.imei == s.imei && t.itemId == s.itemId && t.batchId == s.batchId
  {
    match o
    case ForSaleItem(_) => s.(status := Available, saleItemId := None)
    case ForRepairItem(_) => s.(status := Available, repairItemId := None)
  }

  lemma UnlinkLink(s: Serial, o: Owner)
    requires s.status == Available && NoLinks(s)
    ensures Unlink(Link(s, o), o) == s
  {
  }

  /** Every serial and every record points at an existing batch. */
  predicate Grounded(l: Ledger) {
    && (forall s :: s in l.serials ==> l.serials[s].batchId in l.batches)
    && (forall i :: 0 <= i < |l.records| ==> l.records[i].batchId in l.batches)
  }

  /** Units recorded against batch `b`. */
  function RecordedOn(rs: seq<BatchRecord>, b: int): int {
    if rs == [] then 0
    else RecordedOn(rs[..|rs| - 1], b) + (if rs[|rs| - 1].batchId == b then rs[|rs| - 1].quantity else 0)
  }

  /** Units recorded in total. */
  function Quantity(rs: seq<BatchRecord>): int {
    if rs == [] then 0 else Quantity(rs[..|rs| - 1]) + rs[|rs| - 1].quantity
  }

  /** Cost of the recorded units at their batches' unit costs. */
  function Cost(rs: seq<BatchRecord>, bs: map<int, Batch>): real {
    if rs == [] then 0.0
    else
      var r := rs[|rs| - 1];
      Cost(rs[..|rs| - 1], bs) + (if r.batchId in bs then bs[r.batchId].unitCost * r.quantity as real else 0.0)
  }

  lemma {:induction false} RecordedOnAppend(xs: seq<BatchRecord>, ys: seq<BatchRecord>, b: int)
    ensures RecordedOn(xs + ys, b) == RecordedOn(xs, b) + RecordedOn(ys, b)
    decreases |ys|
  {
    if ys == [] {
      assert xs + ys == xs;
    } else {
      var zs := ys[..|ys| - 1];
      assert (xs + ys)[..|xs + ys| - 1] == xs + zs;
      RecordedOnAppend(xs, zs, b);
    }
  }

  lemma {:induction false} QuantityAppend(xs: seq<BatchRecord>, ys: seq<BatchRecord>)
    ensures Quantity(xs + ys) == Quantity(xs) + Quantity(ys)
    decreases |ys|
  {
    if ys == [] {
      assert xs + ys == xs;
    } else {
      var zs := ys[..|ys| - 1];
      assert (xs + ys)[..|xs + ys| - 1] == xs + zs;
      QuantityAppend(xs, zs);
    }
  }

  lemma {:induction false} CostAppend(xs: seq<BatchRecord>, ys: seq<BatchRecord>, bs: map<int, Batch>)
    ensures Cost(xs + ys, bs) == Cost(xs, bs) + Cost(ys, bs)
    decreases |ys|
  {
    if ys == [] {
      assert xs + ys == xs;
    } else {
      var zs := ys[..|ys| - 1];
      assert (xs + ys)[..|xs + ys| - 1] == xs + zs;
      CostAppend(xs, zs, bs);
    }
  }

  /** Batches with the same ids and unit costs price every record alike. */
  predicate SameCosts(b1: map<int, Batch>, b2: map<int, Batch>) {
    b1.Keys == b2.Keys && forall b :: b in b1 ==> b1[b].unitCost == b2[b].unitCost
  }

  lemma {:induction false} CostOfSameCosts(rs: seq<BatchRecord>, b1: map<int, Batch>, b2: map<int, Batch>)
    requires SameCosts(b1, b2)
    ensures Cost(rs, b1) == Cost(rs, b2)
    decreases |rs|
  {
    if rs != [] {
      CostOfSameCosts(rs[..|rs| - 1], b1, b2);
    }
  }

  /** Every batch's sold count moved by `sign` times the units `rs` records against it. */
  function Shift(bs: map<int, Batch>, rs: seq<BatchRecord>, sign: int): (r: map<int, Batch>)
    ensures r.Keys == bs.Keys
    ensures SameCosts(bs, r)
  {
    map b | b in bs :: bs[b].(soldQuantity := bs[b].soldQuantity + sign * RecordedOn(rs, b))
  }

  lemma ShiftShift(bs: map<int, Batch>, r1: seq<BatchRecord>, r2: seq<BatchRecord>)
    ensures Shift(Shift(bs, r1, 1), r2, 1) == Shift(bs, r1 + r2, 1)
  {
    forall b | b in bs
      ensures Shift(Shift(bs, r1, 1), r2, 1)[b] == Shift(bs, r1 + r2, 1)[b]
    {
      RecordedOnAppend(r1, r2, b);
    }
  }

  lemma ShiftBack(bs: map<int, Batch>, rs: seq<BatchRecord>)
    ensures Shift(Shift(bs, rs, 1), rs, -1) == bs
  {
    forall b | b in bs
      ensures Shift(Shift(bs, rs, 1), rs, -1)[b] == bs[b]
    {
    }
  }

  lemma ShiftOne(bs: map<int, Batch>, o: Owner, bid: int, q: int)
    requires bid in bs
    ensures Shift(bs, [BatchRecord(o, bid, q)], 1)
         == bs[bid := bs[bid].(soldQuantity := bs[bid].soldQuantity + q)]
  {
    var rs := [BatchRecord(o, bid, q)];
    assert rs[..0] == [];
    forall b | b in bs
      ensures Shift(bs, rs, 1)[b] == bs[bid := bs[bid].(soldQuantity := bs[bid].soldQuantity + q)][b]
    {
      assert RecordedOn(rs, b) == (if b == bid then q else 0);
    }
  }

  /** Batch `bid` with `q` more units sold. */
  function Moved(bs: map<int, Batch>, bid: int, q: int): (r: map<int, Batch>)
    requires bid in bs
    ensures r.Keys == bs.Keys && r[bid].soldQuantity == bs[bid].soldQuantity + q
    ensures forall b :: b in bs && b != bid ==> r[b] == bs[b]
  {
    bs[bid := bs[bid].(soldQuantity := bs[bid].soldQuantity + q)]
  }

  lemma Distribute(k: int, a: int, b: int)
    ensures k * (a + b) == k * a + k * b
  {
  }

  /** Shifting by one more record moves only that record's batch. */
  lemma ShiftSnoc(bs: map<int, Batch>, rs: seq<BatchRecord>, r: BatchRecord, sign: int)
    requires r.batchId in bs
    ensures Shift(bs, rs + [r], sign) == Moved(Shift(bs, rs, sign), r.batchId, sign * r.quantity)
  {
    var s := Shift(bs, rs, sign);
    var t := Shift(bs, rs + [r], sign);
    var m := Moved(s, r.batchId, sign * r.quantity);
    assert (rs + [r])[..|rs|] == rs;
    forall b | b in bs ensures t[b] == m[b] {
      var a := RecordedOn(rs, b);
      if b == r.batchId {
        assert RecordedOn(rs + [r], b) == a + r.quantity;
        Distribute(sign, a, r.quantity);
      } else {
        assert RecordedOn(rs + [r], b) == a;
      }
    }
    assert t == m;
  }

  /** `b` is `a` with records appended. */
  predicate Extends(a: seq<BatchRecord>, b: seq<BatchRecord>) {
    |a| <= |b| && b[..|a|] == a
  }

  lemma ExtendsTrans(a: seq<BatchRecord>, b: seq<BatchRecord>, c: seq<BatchRecord>)
    requires Extends(a, b) && Extends(b, c)
    ensures Extends(a, c)
  {
    assert c[..|a|] == c[..|b|][..|a|];
  }

  /** Take one unit through serial `sid`: mark it sold to `o`, count it on its batch, record it and add
      its batch's unit cost. */
  function TakeSerial(d: Draw, sid: int, o: Owner): (r: Draw)
    requires Grounded(d.ledger) && sid in d.ledger.serials
    ensures r.ledger.serials.Keys == d.ledger.serials.Keys && r.ledger.batches.Keys == d.ledger.batches.Keys
    ensures Grounded(r.ledger)
  {
    var l := d.ledger;
    var s := l.serials[sid];
    var b := l.batches[s.batchId];
    Draw(Ledger(l.batches[s.batchId := b.(soldQuantity := b.soldQuantity + 1)],
                l.serials[sid := Link(s, o)],
                l.records + [BatchRecord(o, s.batchId, 1)]),
         d.cogs + b.unitCost,
         d.remaining - 1)
  }

  /** Take `min(remaining, total − sold)` units from batch `bid`. */
  function TakeBatch(d: Draw, bid: int, o: Owner): (r: Draw)
    requires Grounded(d.ledger) && bid in d.ledger.batches
    ensures r.ledger.serials == d.ledger.serials && r.ledger.batches.Keys == d.ledger.batches.Keys
    ensures Grounded(r.ledger)
  {
    var l := d.ledger;
    var b := l.batches[bid];
    var take := Min(d.remaining, b.totalQuantity - b.soldQuantity);
    Draw(Ledger(l.batches[bid := b.(soldQuantity := b.soldQuantity + take)],
                l.serials,
                l.records + [BatchRecord(o, bid, take)]),
         d.cogs + b.unitCost * take as real,
         d.remaining - take)
  }

  /** The serial pass: take serials in `order` until nothing remains. */
  function SerialLoop(d: Draw, order: seq<int>, o: Owner): (r: Draw)
    requires Grounded(d.ledger) && forall i :: 0 <= i < |order| ==> order[i] in d.ledger.serials
    ensures r.ledger.serials.Keys == d.ledger.serials.Keys && r.ledger.batches.Keys == d.ledger.batches.Keys
    ensures Grounded(r.ledger)
    ensures d.remaining >= 0 ==> r.remaining >= 0
    ensures Extends(d.ledger.records, r.ledger.records)
    decreases |order|
  {
    if order == [] || d.remaining <= 0 then d
    else
      var d' := TakeSerial(d, order[0], o);
      var r := SerialLoop(d', order[1..], o);
      ExtendsTrans(d.ledger.records, d'.ledger.records, r.ledger.records);
      r
  }

  /** The batch pass: take from the batches in `order` until nothing remains. */
  function BatchLoop(d: Draw, order: seq<int>, o: Owner): (r: Draw)
    requires Grounded(d.ledger) && forall i :: 0 <= i < |order| ==> order[i] in d.ledger.batches
    ensures r.ledger.serials == d.ledger.serials && r.ledger.batches.Keys == d.ledger.batches.Keys
    ensures Grounded(r.ledger)
    ensures d.remaining >= 0 ==> r.remaining >= 0
    ensures forall b :: b in d.ledger.batches && b !in order ==> r.ledger.batches[b] == d.ledger.batches[b]
    ensures Extends(d.ledger.records, r.ledger.records)
    decreases |order|
  {
    if order == [] || d.remaining <= 0 then d
    else
      var d' := TakeBatch(d, order[0], o);
      var r := BatchLoop(d', order[1..], o);
      ExtendsTrans(d.ledger.records, d'.ledger.records, r.ledger.records);
      r
  }

  /** The records `r` appended to `d`'s. */
  function Added(d: Draw, r: Draw): seq<BatchRecord>
    requires |d.ledger.records| <= |r.ledger.records|
  {
    r.ledger.records[|d.ledger.records|..]
  }

  /** `r` extends `d` with records owned by `o`; the batches carry exactly those records' units, the cost
      of goods grows by their cost and the units still to find shrink by their quantity. */
  predicate Accounts(d: Draw, r: Draw, o: Owner) {
    var n := |d.ledger.records|;
    && n <= |r.ledger.records|
    && r.ledger.records[..n] == d.ledger.records
    && (forall i :: n <= i < |r.ledger.records| ==> r.ledger.records[i].owner == o)
    && r.ledger.batches == Shift(d.ledger.batches, Added(d, r), 1)
    && r.cogs == d.cogs + Cost(Added(d, r), d.ledger.batches)
    && r.remaining == d.remaining - Quantity(Added(d, r))
  }

  lemma AccountsRefl(d: Draw, o: Owner)
    ensures Accounts(d, d, o)
  {
    assert Added(d, d) == [];
    assert Shift(d.ledger.batches, [], 1) == d.ledger.batches;
  }

  lemma AccountsTrans(a: Draw, b: Draw, c: Draw, o: Owner)
    requires Accounts(a, b, o) && Accounts(b, c, o)
    ensures Accounts(a, c, o)
  {
    var na, nb := |a.ledger.records|, |b.ledger.records|;
    var rc := c.ledger.records;
    var n1, n2 := Added(a, b), Added(b, c);
    assert rc[..na] == rc[..nb][..na];
    assert rc[na..] == rc[na..nb] + rc[nb..];
    assert rc[na..nb] == b.ledger.records[na..];
    assert Added(a, c) == n1 + n2;
    ShiftShift(a.ledger.batches, n1, n2);
    CostAppend(n1, n2, a.ledger.batches);
    CostOfSameCosts(n2, a.ledger.batches, b.ledger.batches);
    QuantityAppend(n1, n2);
  }

  lemma Singleton(d: Draw, r: Draw, rec: BatchRecord)
    requires r.ledger.records == d.ledger.records + [rec]
    ensures Added(d, r) == [rec]
    ensures Quantity([rec]) == rec.quantity
    ensures Cost([rec], d.ledger.batches)
         == if rec.batchId in d.ledger.batches then d.ledger.batches[rec.batchId].unitCost * rec.quantity as real
            else 0.0
  {
    assert [rec][..0] == [];
  }

  lemma TakeSerialAccounts(d: Draw, sid: int, o: Owner)
    requires Grounded(d.ledger) && sid in d.ledger.serials
    ensures Accounts(d, TakeSerial(d, sid, o), o)
  {
    var bid := d.ledger.serials[sid].batchId;
    Singleton(d, TakeSerial(d, sid, o), BatchRecord(o, bid, 1));
    ShiftOne(d.ledger.batches, o, bid, 1);
  }

  lemma TakeBatchAccounts(d: Draw, bid: int, o: Owner)
    requires Grounded(d.ledger) && bid in d.ledger.batches
    ensures Accounts(d, TakeBatch(d, bid, o), o)
  {
    var b := d.ledger.batches[bid];
    var take := Min(d.remaining, b.totalQuantity - b.soldQuantity);
    Singleton(d, TakeBatch(d, bid, o), BatchRecord(o, bid, take));
    ShiftOne(d.ledger.batches, o, bid, take);
  }

  lemma {:induction false} SerialLoopAccounts(d: Draw, order: seq<int>, o: Owner)
    requires Grounded(d.ledger) && forall i :: 0 <= i < |order| ==> order[i] in d.ledger.serials
    ensures Accounts(d, SerialLoop(d, order, o), o)
    decreases |order|
  {
    if order == [] || d.remaining <= 0 {
      AccountsRefl(d, o);
    } else {
      var d' := TakeSerial(d, order[0], o);
      TakeSerialAccounts(d, order[0], o);
      SerialLoopAccounts(d', order[1..], o);
      AccountsTrans(d, d', SerialLoop(d', order[1..], o), o);
    }
  }

  lemma {:induction false} BatchLoopAccounts(d: Draw, order: seq<int>, o: Owner)
    requires Grounded(d.ledger) && forall i :: 0 <= i < |order| ==> order[i] in d.ledger.batches
    ensures Accounts(d, BatchLoop(d, order, o), o)
    decreases |order|
  {
    if order == [] || d.remaining <= 0 {
      AccountsRefl(d, o);
    } else {
      var d' := TakeBatch(d, order[0], o);
      TakeBatchAccounts(d, order[0], o);
      BatchLoopAccounts(d', order[1..], o);
      AccountsTrans(d, d', BatchLoop(d', order[1..], o), o);
    }
  }

  /** `s1` differs from `s0` only in serials of `order` that were marked sold to `o`. */
  predicate Marks(s0: map<int, Serial>, s1: map<int, Serial>, o: Owner, order: seq<int>) {
    && s1.Keys == s0.Keys
    && forall s :: s in s0 ==> s1[s] == s0[s] || (s in order && s1[s] == Link(s0[s], o))
  }

  lemma {:induction false} SerialLoopMarks(d: Draw, order: seq<int>, o: Owner)
    requires Grounded(d.ledger) && forall i :: 0 <= i < |order| ==> order[i] in d.ledger.serials
    ensures Marks(d.ledger.serials, SerialLoop(d, order, o).ledger.serials, o, order)
    decreases |order|
  {
    if order != [] && d.remaining > 0 {
      var d' := TakeSerial(d, order[0], o);
      SerialLoopMarks(d', order[1..], o);
      var s0, s1, s2 := d.ledger.serials, d'.ledger.serials, SerialLoop(d', order[1..], o).ledger.serials;
      forall s | s in s0
        ensures s2[s] == s0[s] || (s in order && s2[s] == Link(s0[s], o))
      {
        if s == order[0] {
          assert s1[s] == Link(s0[s], o);
        }
      }
    }
  }

  /** The serial pass takes exactly the first `min(remaining, |order|)` serials of `order`, one unit each,
      and leaves the others as they were. */
  lemma {:induction false} SerialLoopPrefix(d: Draw, order: seq<int>, o: Owner)
    requires Grounded(d.ledger) && Distinct(order)
    requires forall i :: 0 <= i < |order| ==> order[i] in d.ledger.serials
    ensures var r := SerialLoop(d, order, o);
            var k := Min(Max(d.remaining, 0), |order|);
            && r.remaining == d.remaining - k
            && (forall i :: 0 <= i < k ==> r.ledger.serials[order[i]] == Link(d.ledger.serials[order[i]], o))
            && (forall i :: k <= i < |order| ==> r.ledger.serials[order[i]] == d.ledger.serials[order[i]])
    decreases |order|
  {
    if order != [] && d.remaining > 0 {
      var d' := TakeSerial(d, order[0], o);
      var tail := order[1..];
      assert Distinct(tail) by {
        forall i, j | 0 <= i < j < |tail| ensures tail[i] != tail[j] {
          assert tail[i] == order[i + 1] && tail[j] == order[j + 1];
        }
      }
      SerialLoopPrefix(d', tail, o);
      SerialLoopMarks(d', tail, o);
      var r := SerialLoop(d', tail, o);
      assert order[0] !in tail by {
        forall i | 0 <= i < |tail| ensures tail[i] != order[0] {
          assert tail[i] == order[i + 1];
        }
      }
      var k := Min(Max(d.remaining, 0), |order|);
      forall i | 1 <= i < |order|
        ensures i < k ==> r.ledger.serials[order[i]] == Link(d.ledger.serials[order[i]], o)
        ensures k <= i ==> r.ledger.serials[order[i]] == d.ledger.serials[order[i]]
      {
        assert tail[i - 1] == order[i];
      }
    }
  }

  predicate Exhausted(b: Batch) {
    b.soldQuantity == b.totalQuantity
  }

  /** Each batch of `order` still has units to give. */
  predicate OpenBatches(bs: map<int, Batch>, order: seq<int>) {
    forall i :: 0 <= i < |order| ==> order[i] in bs && bs[order[i]].soldQuantity < bs[order[i]].totalQuantity
  }

  lemma DistinctTail<T>(xs: seq<T>)
    requires Distinct(xs) && xs != []
    ensures Distinct(xs[1..]) && xs[0] !in xs[1..]
  {
    var tail := xs[1..];
    forall i, j | 0 <= i < j < |tail| ensures tail[i] != tail[j] {
      assert tail[i] == xs[i + 1] && tail[j] == xs[j + 1];
    }
    forall i | 0 <= i < |tail| ensures tail[i] != xs[0] {
      assert tail[i] == xs[i + 1];
    }
  }

  /** After the first take of a batch pass, the rest of `order` is still open and untouched. */
  lemma TakeBatchLeavesTail(d: Draw, order: seq<int>, o: Owner)
    requires Grounded(d.ledger) && Distinct(order) && OpenBatches(d.ledger.batches, order) && order != []
    ensures var d' := TakeBatch(d, order[0], o);
            && Distinct(order[1..]) && order[0] !in order[1..]
            && OpenBatches(d'.ledger.batches, order[1..])
            && forall i :: 1 <= i < |order| ==> d'.ledger.batches[order[i]] == d.ledger.batches[order[i]]
  {
    DistinctTail(order);
    var tail := order[1..];
    forall i | 1 <= i < |order| ensures order[i] == tail[i - 1] && order[i] != order[0] {
    }
  }

  /** The batch pass (the FIFO rule): a batch is drawn from only when every batch before it in `order` has
      been used up, and units are still missing only when all of them are used up. */
  lemma {:induction false} BatchLoopFifo(d: Draw, order: seq<int>, o: Owner)
    requires Grounded(d.ledger) && Distinct(order) && OpenBatches(d.ledger.batches, order)
    ensures var r := BatchLoop(d, order, o);
            && (forall i, j :: 0 <= j < i < |order| && r.ledger.batches[order[i]] != d.ledger.batches[order[i]]
                  ==> Exhausted(r.ledger.batches[order[j]]))
            && (r.remaining > 0 ==> forall i :: 0 <= i < |order| ==> Exhausted(r.ledger.batches[order[i]]))
    decreases |order|
  {
    if order != [] && d.remaining > 0 {
      var d' := TakeBatch(d, order[0], o);
      var tail := order[1..];
      TakeBatchLeavesTail(d, order, o);
      BatchLoopFifo(d', tail, o);
      var r := BatchLoop(d', tail, o);
      if d'.remaining > 0 {
        assert Exhausted(r.ledger.batches[order[0]]);
        forall i | 1 <= i < |order| ensures order[i] == tail[i - 1] {
        }
      } else {
        assert r == d';
      }
    }
  }

  /** Every take of a batch pass over open batches is positive. */
  lemma {:induction false} BatchLoopPositive(d: Draw, order: seq<int>, o: Owner)
    requires Grounded(d.ledger) && Distinct(order) && OpenBatches(d.ledger.batches, order)
    ensures var r := BatchLoop(d, order, o);
            && |d.ledger.records| <= |r.ledger.records|
            && forall i :: |d.ledger.records| <= i < |r.ledger.records| ==> r.ledger.records[i].quantity > 0
    decreases |order|
  {
    if order != [] && d.remaining > 0 {
      var d' := TakeBatch(d, order[0], o);
      TakeBatchLeavesTail(d, order, o);
      BatchLoopPositive(d', order[1..], o);
      var r := BatchLoop(d', order[1..], o);
      assert BatchLoop(d, order, o) == r;
      PositiveTail(d.ledger.records, d'.ledger.records, r.ledger.records);
    }
  }

  /** Records past `a` are positive in `c` when `b` adds one positive record to `a` and `c` extends `b`
      with positive records only. */
  lemma PositiveTail(a: seq<BatchRecord>, b: seq<BatchRecord>, c: seq<BatchRecord>)
    requires |b| == |a| + 1 && b[|a|].quantity > 0 && Extends(b, c)
    requires forall i :: |b| <= i < |c| ==> c[i].quantity > 0
    ensures forall i :: |a| <= i < |c| ==> c[i].quantity > 0
  {
    assert c[|a|] == c[..|b|][|a|];
  }

  /** A batch pass never pushes a batch's sold count past its total. */
  lemma {:induction false} BatchLoopBound(d: Draw, order: seq<int>, o: Owner)
    requires Grounded(d.ledger) && forall i :: 0 <= i < |order| ==> order[i] in d.ledger.batches
    ensures var r := BatchLoop(d, order, o);
            forall b :: b in d.ledger.batches && d.ledger.batches[b].soldQuantity <= d.ledger.batches[b].totalQuantity
              ==> r.ledger.batches[b].soldQuantity <= r.ledger.batches[b].totalQuantity
    decreases |order|
  {
    if order != [] && d.remaining > 0 {
      BatchLoopBound(TakeBatch(d, order[0], o), order[1..], o);
    }
  }

  predicate AllUnits(rs: seq<BatchRecord>, n: int) {
    forall i :: n <= i < |rs| ==> 0 <= i && rs[i].quantity == 1
  }

  /** Each record of a serial pass is one unit. */
  lemma {:induction false} SerialLoopUnits(d: Draw, order: seq<int>, o: Owner)
    requires Grounded(d.ledger) && forall i :: 0 <= i < |order| ==> order[i] in d.ledger.serials
    ensures AllUnits(SerialLoop(d, order, o).ledger.records, |d.ledger.records|)
    decreases |order|
  {
    if order != [] && d.remaining > 0 {
      var d' := TakeSerial(d, order[0], o);
      SerialLoopUnits(d', order[1..], o);
      var rs := SerialLoop(d', order[1..], o).ledger.records;
      assert SerialLoop(d, order, o).ledger.records == rs;
      var n := |d.ledger.records|;
      assert |d'.ledger.records| == n + 1 && d'.ledger.records[n].quantity == 1;
      assert rs[..n + 1] == d'.ledger.records;
      forall i | n <= i < |rs| ensures rs[i].quantity == 1 {
        if i == n {
          assert rs[n] == rs[..n + 1][n];
        } else {
          assert |d'.ledger.records| <= i < |rs|;
        }
      }
    }
  }

  /** Serials can overrun a batch: the serial pass counts one unit per serial on its batch without looking
      at the batch's total, so a one-unit batch holding two IMEIs ends with two sold. */
  lemma SerialPassCanOverrun()
    ensures var b := Batch("IMP-1", 1, Some(7), 0, 1, 0, 100.0, 100.0, None);
            var s := Serial("356000000000001", 7, 1, Available, None, None);
            var l := Ledger(map[1 := b], map[10 := s, 11 := s.(imei := "356000000000002")], []);
            var r := SerialLoop(Draw(l, 0.0, 2), [10, 11], ForSaleItem(5));
            r.ledger.batches[1].soldQuantity > r.ledger.batches[1].totalQuantity
  {
    var b := Batch("IMP-1", 1, Some(7), 0, 1, 0, 100.0, 100.0, None);
    var s := Serial("356000000000001", 7, 1, Available, None, None);
    var l := Ledger(map[1 := b], map[10 := s, 11 := s.(imei := "356000000000002")], []);
    var d0 := Draw(l, 0.0, 2);
    var d1 := TakeSerial(d0, 10, ForSaleItem(5));
    var d2 := TakeSerial(d1, 11, ForSaleItem(5));
    assert [10, 11][1..] == [11];
    assert [11][1..] == [];
    assert SerialLoop(d0, [10, 11], ForSaleItem(5)) == d2;
    assert d2.ledger.batches[1].soldQuantity == 2;
  }

  /** Records owned by `o`, in table order (the `findMany` by line id). */
  function Owned(rs: seq<BatchRecord>, o: Owner): (r: seq<BatchRecord>)
    ensures forall i :: 0 <= i < |r| ==> r[i].owner == o && r[i] in rs
  {
    if rs == [] then []
    else
      var init := Owned(rs[..|rs| - 1], o);
      assert forall x :: x in rs[..|rs| - 1] ==> x in rs;
      if rs[|rs| - 1].owner == o then init + [rs[|rs| - 1]] else init
  }

  /** The records left once `o`'s are deleted (the `deleteMany` by line id). */
  function Disowned(rs: seq<BatchRecord>, o: Owner): (r: seq<BatchRecord>)
    ensures forall i :: 0 <= i < |r| ==> r[i].owner != o && r[i] in rs
  {
    if rs == [] then []
    else
      var init := Disowned(rs[..|rs| - 1], o);
      assert forall x :: x in rs[..|rs| - 1] ==> x in rs;
      if rs[|rs| - 1].owner != o then init + [rs[|rs| - 1]] else init
  }

  lemma {:induction false} FilterAppend(xs: seq<BatchRecord>, ys: seq<BatchRecord>, o: Owner)
    ensures Owned(xs + ys, o) == Owned(xs, o) + Owned(ys, o)
    ensures Disowned(xs + ys, o) == Disowned(xs, o) + Disowned(ys, o)
    decreases |ys|
  {
    if ys == [] {
      assert xs + ys == xs;
    } else {
      var zs := ys[..|ys| - 1];
      assert (xs + ys)[..|xs + ys| - 1] == xs + zs;
      FilterAppend(xs, zs, o);
    }
  }

  /** With no record of `o`, none is owned and none is deleted. */
  lemma FilterNone(rs: seq<BatchRecord>, o: Owner)
    requires forall i :: 0 <= i < |rs| ==> rs[i].owner != o
    ensures Owned(rs, o) == [] && Disowned(rs, o) == rs
  {
    OwnedNone(rs, o);
    DisownedNone(rs, o);
  }

  lemma {:induction false} OwnedNone(rs: seq<BatchRecord>, o: Owner)
    requires forall i :: 0 <= i < |rs| ==> rs[i].owner != o
    ensures Owned(rs, o) == []
    decreases |rs|
  {
    if rs != [] {
      var init := rs[..|rs| - 1];
      assert forall i :: 0 <= i < |init| ==> init[i] == rs[i];
      OwnedNone(init, o);
    }
  }

  lemma {:induction false} DisownedNone(rs: seq<BatchRecord>, o: Owner)
    requires forall i :: 0 <= i < |rs| ==> rs[i].owner != o
    ensures Disowned(rs, o) == rs
    decreases |rs|
  {
    if rs != [] {
      var init := rs[..|rs| - 1];
      assert forall i :: 0 <= i < |init| ==> init[i] == rs[i];
      DisownedNone(init, o);
      InitLast(rs);
      DisownedKeepsLast(init, rs[|rs| - 1], o);
    }
  }

  /** With every record of `o`, all are owned and all are deleted. */
  lemma FilterAll(rs: seq<BatchRecord>, o: Owner)
    requires forall i :: 0 <= i < |rs| ==> rs[i].owner == o
    ensures Owned(rs, o) == rs && Disowned(rs, o) == []
  {
    OwnedAll(rs, o);
    DisownedAll(rs, o);
  }

  lemma {:induction false} OwnedAll(rs: seq<BatchRecord>, o: Owner)
    requires forall i :: 0 <= i < |rs| ==> rs[i].owner == o
    ensures Owned(rs, o) == rs
    decreases |rs|
  {
    if rs != [] {
      var init := rs[..|rs| - 1];
      assert forall i :: 0 <= i < |init| ==> init[i] == rs[i];
      OwnedAll(init, o);
      InitLast(rs);
      OwnedKeepsLast(init, rs[|rs| - 1], o);
    }
  }

  /** A record of `o` after records that `o` owns entirely is owned as well. */
  lemma OwnedKeepsLast(init: seq<BatchRecord>, last: BatchRecord, o: Owner)
    requires Owned(init, o) == init && last.owner == o
    ensures Owned(init + [last], o) == init + [last]
  {
    assert (init + [last])[..|init|] == init;
  }

  /** A record not of `o` after records none of which `o` owns is kept as well. */
  lemma DisownedKeepsLast(init: seq<BatchRecord>, last: BatchRecord, o: Owner)
    requires Disowned(init, o) == init && last.owner != o
    ensures Disowned(init + [last], o) == init + [last]
  {
    assert (init + [last])[..|init|] == init;
  }

  /** A non-empty sequence is its front followed by its last element. */
  lemma InitLast<T>(s: seq<T>)
    requires s != []
    ensures s[..|s| - 1] + [s[|s| - 1]] == s
  {
  }

  lemma {:induction false} DisownedAll(rs: seq<BatchRecord>, o: Owner)
    requires forall i :: 0 <= i < |rs| ==> rs[i].owner == o
    ensures Disowned(rs, o) == []
    decreases |rs|
  {
    if rs != [] {
      var init := rs[..|rs| - 1];
      assert forall i :: 0 <= i < |init| ==> init[i] == rs[i];
      DisownedAll(init, o);
    }
  }

  /** Splitting by owner splits every batch's recorded units. */
  lemma {:induction false} RecordedOnSplit(rs: seq<BatchRecord>, o: Owner, b: int)
    ensures RecordedOn(rs, b) == RecordedOn(Owned(rs, o), b) + RecordedOn(Disowned(rs, o), b)
    decreases |rs|
  {
    if rs != [] {
      var init := rs[..|rs| - 1];
      var last := rs[|rs| - 1];
      RecordedOnSplit(init, o, b);
      if last.owner == o {
        RecordedOnAppend(Owned(init, o), [last], b);
      } else {
        RecordedOnAppend(Disowned(init, o), [last], b);
      }
      assert [last][..0] == [];
    }
  }

  /** Every serial linked to `o` returned to stock (the `updateMany` by line id). */
  function Release(ss: map<int, Serial>, o: Owner): (r: map<int, Serial>)
    ensures r.Keys == ss.Keys
    ensures forall s :: s in ss ==> !LinkedTo(r[s], o)
  {
    map s | s in ss :: if LinkedTo(ss[s], o) then Unlink(ss[s], o) else ss[s]
  }

  /** Reverse `o`'s consumption: its records come off their batches, its serials are freed and its
      records are deleted. */
  function Undo(l: Ledger, o: Owner): Ledger {
    Ledger(Shift(l.batches, Owned(l.records, o), -1), Release(l.serials, o), Disowned(l.records, o))
  }

  /** `o` has consumed nothing in `l`. */
  predicate Untouched(l: Ledger, o: Owner) {
    && (forall i :: 0 <= i < |l.records| ==> l.records[i].owner != o)
    && (forall s :: s in l.serials ==> !LinkedTo(l.serials[s], o))
  }

  /** Each batch has sold at least the units its records account for. */
  predicate Covered(l: Ledger) {
    forall b :: b in l.batches ==> l.batches[b].soldQuantity >= RecordedOn(l.records, b)
  }

  predicate Positive(rs: seq<BatchRecord>) {
    forall i :: 0 <= i < |rs| ==> rs[i].quantity > 0
  }

  /** An available serial belongs to no line; a sold one to at most one (deleting a sale line clears its
      link but leaves the serial sold). */
  predicate Linked(ss: map<int, Serial>) {
    forall s :: s in ss ==>
      && (ss[s].status == Available ==> NoLinks(ss[s]))
      && (ss[s].status == Sold ==> !(ss[s].saleItemId.Some? && ss[s].repairItemId.Some?))
  }

  predicate Sound(l: Ledger) {
    Grounded(l) && Covered(l) && Positive(l.records) && Linked(l.serials)
  }

  /** Reversal leaves nothing of `o` behind and keeps the tables sound. */
  lemma UndoSound(l: Ledger, o: Owner)
    requires Sound(l)
    ensures Sound(Undo(l, o)) && Untouched(Undo(l, o), o)
    ensures Undo(l, o).serials.Keys == l.serials.Keys && Undo(l, o).batches.Keys == l.batches.Keys
  {
    var u := Undo(l, o);
    forall b | b in l.batches ensures u.batches[b].soldQuantity >= RecordedOn(u.records, b) {
      RecordedOnSplit(l.records, o, b);
    }
  }

  /** Reversal is idempotent: once nothing of `o` is left, reversing again changes nothing. */
  lemma UndoIdle(l: Ledger, o: Owner)
    requires Untouched(l, o)
    ensures Undo(l, o) == l
  {
    FilterNone(l.records, o);
    ShiftNothing(l.batches, -1);
    ReleaseIdle(l.serials, o);
  }

  /** Shifting by no records changes no batch. */
  lemma ShiftNothing(bs: map<int, Batch>, sign: int)
    ensures Shift(bs, [], sign) == bs
  {
    assert forall b :: b in bs ==> RecordedOn([], b) == 0;
  }

  /** Freeing the serials of an owner none is linked to changes none. */
  lemma ReleaseIdle(ss: map<int, Serial>, o: Owner)
    requires forall s :: s in ss ==> !LinkedTo(ss[s], o)
    ensures Release(ss, o) == ss
  {
    forall s | s in ss ensures Release(ss, o)[s] == ss[s] {
      assert !LinkedTo(ss[s], o);
    }
  }

  lemma UndoTwice(l: Ledger, o: Owner)
    requires Sound(l)
    ensures Undo(Undo(l, o), o) == Undo(l, o)
  {
    UndoSound(l, o);
    UndoIdle(Undo(l, o), o);
  }

  /** A serial that no longer names `o`'s line; its status stays (the link column set to null). */
  function Unlinked(s: Serial, o: Owner): (t: Serial)
    ensures !LinkedTo(t, o) && t.status == s.status
    ensures t.imei == s.imei && t.itemId == s.itemId && t.batchId == s.batchId
  {
    match o
    case ForSaleItem(_) => s.(saleItemId := None)
    case ForRepairItem(_) => s.(repairItemId := None)
  }

  /** What deleting `o`'s row does to the consumption tables: its records go with it and serials that
      named it lose the link, but no batch count and no serial status changes. */
  function Detach(l: Ledger, o: Owner): Ledger {
    Ledger(l.batches, map s | s in l.serials :: if LinkedTo(l.serials[s], o) then Unlinked(l.serials[s], o) else l.serials[s],
           Disowned(l.records, o))
  }

  lemma {:induction false} RecordedOnNonNegative(rs: seq<BatchRecord>, b: int)
    requires Positive(rs)
    ensures RecordedOn(rs, b) >= 0
    decreases |rs|
  {
    if rs != [] {
      RecordedOnNonNegative(rs[..|rs| - 1], b);
    }
  }

  /** A batch no record names has nothing recorded on it. */
  lemma {:induction false} RecordedOnNone(rs: seq<BatchRecord>, b: int)
    requires forall i :: 0 <= i < |rs| ==> rs[i].batchId != b
    ensures RecordedOn(rs, b) == 0
    decreases |rs|
  {
    if rs != [] {
      RecordedOnNone(rs[..|rs| - 1], b);
    }
  }

  /** With positive record quantities, a batch with nothing recorded on it is named by no record. */
  lemma {:induction false} RecordedOnZero(rs: seq<BatchRecord>, b: int)
    requires Positive(rs) && RecordedOn(rs, b) <= 0
    ensures forall i :: 0 <= i < |rs| ==> rs[i].batchId != b
    decreases |rs|
  {
    if rs != [] {
      var init := rs[..|rs| - 1];
      assert Positive(init) by {
        forall i | 0 <= i < |init| ensures init[i].quantity > 0 {
          assert init[i] == rs[i];
        }
      }
      RecordedOnNonNegative(init, b);
      RecordedOnZero(init, b);
      forall i | 0 <= i < |rs| ensures rs[i].batchId != b {
        if i < |init| {
          assert rs[i] == init[i];
        }
      }
    }
  }

  /** Deleting a row keeps the tables sound and leaves nothing of it behind. */
  lemma DetachSound(l: Ledger, o: Owner)
    requires Sound(l)
    ensures Sound(Detach(l, o)) && Untouched(Detach(l, o), o)
    ensures Detach(l, o).serials.Keys == l.serials.Keys && Detach(l, o).batches == l.batches
  {
    var d := Detach(l, o);
    forall b | b in l.batches ensures d.batches[b].soldQuantity >= RecordedOn(d.records, b) {
      RecordedOnSplit(l.records, o, b);
      assert Positive(Owned(l.records, o)) by {
        var ow := Owned(l.records, o);
        forall i | 0 <= i < |ow| ensures ow[i].quantity > 0 {
          assert ow[i] in l.records;
        }
      }
      RecordedOnNonNegative(Owned(l.records, o), b);
    }
    forall i | 0 <= i < |d.records| ensures d.records[i].batchId in d.batches && d.records[i].quantity > 0 {
      assert d.records[i] in l.records;
    }
  }

  /** Deleting a row that consumed nothing leaves the tables as they were. */
  lemma DetachIdle(l: Ledger, o: Owner)
    requires Untouched(l, o)
    ensures Detach(l, o) == l
  {
    FilterNone(l.records, o);
    var d := Detach(l, o);
    forall s | s in l.serials ensures d.serials[s] == l.serials[s] {
      assert !LinkedTo(l.serials[s], o);
    }
  }

  /** Consumption keeps the tables sound when the serials it marks were available. */
  lemma DrawSound(d: Draw, r: Draw, o: Owner, order: seq<int>)
    requires Sound(d.ledger) && Grounded(r.ledger) && Accounts(d, r, o)
    requires Marks(d.ledger.serials, r.ledger.serials, o, order)
    requires forall i :: 0 <= i < |order| ==>
               order[i] in d.ledger.serials && d.ledger.serials[order[i]].status == Available
    requires forall i :: |d.ledger.records| <= i < |r.ledger.records| ==> r.ledger.records[i].quantity > 0
    ensures Sound(r.ledger)
  {
    var rs := r.ledger.records;
    var n := |d.ledger.records|;
    assert rs == rs[..n] + rs[n..];
    forall b | b in r.ledger.batches ensures r.ledger.batches[b].soldQuantity >= RecordedOn(rs, b) {
      RecordedOnAppend(d.ledger.records, Added(d, r), b);
    }
    forall i | 0 <= i < |rs| ensures rs[i].quantity > 0 {
      if i < n {
        assert rs[i] == rs[..n][i];
      }
    }
  }

  lemma UndoRecords(d: Draw, r: Draw, o: Owner)
    requires Untouched(d.ledger, o) && Accounts(d, r, o)
    ensures Owned(r.ledger.records, o) == Added(d, r)
    ensures Disowned(r.ledger.records, o) == d.ledger.records
  {
    var added := Added(d, r);
    assert r.ledger.records == d.ledger.records + added;
    AddedOwnedBy(d, r, o);
    FilterAppend(d.ledger.records, added, o);
    FilterNone(d.ledger.records, o);
    FilterAll(added, o);
  }

  lemma AddedOwnedBy(d: Draw, r: Draw, o: Owner)
    requires Accounts(d, r, o)
    ensures forall i :: 0 <= i < |Added(d, r)| ==> Added(d, r)[i].owner == o
  {
    forall i | 0 <= i < |Added(d, r)| ensures Added(d, r)[i].owner == o {
      assert Added(d, r)[i] == r.ledger.records[|d.ledger.records| + i];
    }
  }

  lemma UndoSerials(s0: map<int, Serial>, s1: map<int, Serial>, o: Owner, order: seq<int>)
    requires Linked(s0) && Marks(s0, s1, o, order)
    requires forall s :: s in s0 ==> !LinkedTo(s0[s], o)
    requires forall i :: 0 <= i < |order| ==> order[i] in s0 && s0[order[i]].status == Available
    ensures Release(s1, o) == s0
  {
    var u := Release(s1, o);
    forall s | s in s0 ensures u[s] == s0[s] {
      if s1[s] != s0[s] {
        assert s in order;
        UnlinkLink(s0[s], o);
      }
    }
  }

  /** Consume-then-reverse round trip for one pass: if `o` had consumed nothing, undoing what a pass
      recorded and marked gives back the tables exactly. */
  lemma UndoRestores(d: Draw, r: Draw, o: Owner, order: seq<int>)
    requires Linked(d.ledger.serials) && Untouched(d.ledger, o)
    requires Accounts(d, r, o) && Marks(d.ledger.serials, r.ledger.serials, o, order)
    requires forall i :: 0 <= i < |order| ==>
               order[i] in d.ledger.serials && d.ledger.serials[order[i]].status == Available
    ensures Undo(r.ledger, o) == d.ledger
  {
    UndoRecords(d, r, o);
    ShiftBack(d.ledger.batches, Added(d, r));
    UndoSerials(d.ledger.serials, r.ledger.serials, o, order);
  }

  /** The whole consumption of one line — the serial pass, then the batch pass — round-trips with `Undo`. */
  lemma ConsumeThenUndo(d: Draw, serialOrder: seq<int>, batchOrder: seq<int>, o: Owner)
    requires Linked(d.ledger.serials) && Untouched(d.ledger, o) && Grounded(d.ledger)
    requires forall i :: 0 <= i < |serialOrder| ==>
               serialOrder[i] in d.ledger.serials && d.ledger.serials[serialOrder[i]].status == Available
    requires forall i :: 0 <= i < |batchOrder| ==> batchOrder[i] in d.ledger.batches
    ensures var m := SerialLoop(d, serialOrder, o);
            Undo(BatchLoop(m, batchOrder, o).ledger, o) == d.ledger
  {
    var m := SerialLoop(d, serialOrder, o);
    var f := BatchLoop(m, batchOrder, o);
    SerialLoopAccounts(d, serialOrder, o);
    SerialLoopMarks(d, serialOrder, o);
    BatchLoopAccounts(m, batchOrder, o);
    AccountsTrans(d, m, f, o);
    UndoRestores(d, f, o, serialOrder);
  }
}
