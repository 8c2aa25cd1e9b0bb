/** The batch handlers: the stock metrics reported beside every batch, and creating, updating and
    deleting a purchase lot under the guards that keep its sold count meaningful. */
module Batches {
  import opened Wrappers
  import opened Entities
  import opened Store

  // ---------------------------------------------------------------------------------------------------
  // Stock metrics

  /** Units not yet sold, never below zero. */
  function Remaining(b: Batch): (r: int)
    ensures r >= 0
    ensures r == 0 <==> IsOutOfStock(b)
    ensures r > 0 ==> r == b.totalQuantity - b.soldQuantity
  {
    Max(0, b.totalQuantity - b.soldQuantity)
  }

  /** Nothing is left to sell. */
  predicate IsOutOfStock(b: Batch) {
    b.totalQuantity - b.soldQuantity <= 0
  }

  /** The share of the lot still unsold, in percent; 0 for a lot of no units. */
  function StockPercentage(b: Batch): real {
    if b.totalQuantity > 0 then
      ((b.totalQuantity - b.soldQuantity) as real / b.totalQuantity as real) * 100.0
    else 0.0
  }

  /** Less than a fifth of a non-empty lot is left. */
  predicate IsLowStock(b: Batch) {
    b.totalQuantity > 0 && StockPercentage(b) < 20.0
  }

  /** For a non-empty lot the percentage is exactly the unsold units scaled to 100. */
  lemma PercentageScaled(b: Batch)
    requires b.totalQuantity > 0
    ensures StockPercentage(b) * b.totalQuantity as real == 100.0 * (b.totalQuantity - b.soldQuantity) as real
  {
    var t := b.totalQuantity as real;
    var q := (b.totalQuantity - b.soldQuantity) as real / t;
    assert q * t == (b.totalQuantity - b.soldQuantity) as real;
    assert (q * 100.0) * t == 100.0 * (q * t);
  }

  /** Multiplying by a positive factor keeps the order of two reals. */
  lemma Scale(x: real, y: real, t: real)
    requires t > 0.0
    ensures x * t <= y * t <==> x <= y
  {
    assert x * t - y * t == (x - y) * t;
  }

  /** An empty lot reports 0 percent and is never low; one whose sold count is within its total reports
      between 0 and 100 percent. */
  lemma PercentageBounds(b: Batch)
    ensures b.totalQuantity <= 0 ==> StockPercentage(b) == 0.0 && !IsLowStock(b)
    ensures 0 <= b.soldQuantity <= b.totalQuantity && b.totalQuantity > 0 ==>
              0.0 <= StockPercentage(b) <= 100.0
  {
    if 0 <= b.soldQuantity <= b.totalQuantity && b.totalQuantity > 0 {
      PercentageScaled(b);
      var p, t := StockPercentage(b), b.totalQuantity as real;
      Scale(p, 100.0, t);
      Scale(0.0, p, t);
    }
  }

  /** The low-stock test on the percentage is the integer test `5·(total − sold) < total` on a non-empty
      lot. */
  lemma LowStockExact(b: Batch)
    ensures IsLowStock(b) <==> b.totalQuantity > 0 && 5 * (b.totalQuantity - b.soldQuantity) < b.totalQuantity
  {
    if b.totalQuantity > 0 {
      PercentageScaled(b);
      var p := StockPercentage(b);
      var t, u := b.totalQuantity as real, (b.totalQuantity - b.soldQuantity) as real;
      Scale(20.0, p, t);
      assert p < 20.0 <==> 100.0 * u < 20.0 * t;
      assert (5 * (b.totalQuantity - b.soldQuantity)) as real == 5.0 * u;
    }
  }

  /** A non-empty lot that is out of stock is also reported low. */
  lemma OutOfStockIsLow(b: Batch)
    requires b.totalQuantity > 0 && IsOutOfStock(b)
    ensures IsLowStock(b)
  {
    LowStockExact(b);
  }

  // ---------------------------------------------------------------------------------------------------
  // Creating, updating and deleting a lot

  /** Register a lot bought from a supplier. The batch number, supplier, quantity and both costs are
      required; the purchase date defaults to now, nothing is sold yet and the lot names no item. A
      supplier id that names no customer breaks the foreign key. */
  method Create(db: Db, batchNumber: Option<string>, supplierId: Option<int>, purchaseDate: Option<int>,
                totalQuantity: Option<int>, totalCost: Option<real>, unitCost: Option<real>,
                notes: Option<string>, now: int)
    returns (r: Result<int>)
    requires db.Valid()
    modifies db`ledger, db`nextId
    ensures db.Valid()
    ensures (!GivenText(batchNumber) || totalQuantity.None? || totalCost.None? || unitCost.None? ||
             !GivenId(supplierId)) ==> r == Err(400)
    ensures r.Ok? <==>
              && GivenText(batchNumber) && totalQuantity.Some? && totalCost.Some? && unitCost.Some?
              && GivenId(supplierId) && supplierId.value in db.customers
    ensures r.Err? ==> r.code == 400 && db.ledger == old(db.ledger) && db.nextId == old(db.nextId)
    ensures r.Ok? ==>
              && r.value == old(db.nextId) && r.value !in old(db.ledger.batches)
              && db.ledger == old(db.ledger).(batches := old(db.ledger.batches)[r.value :=
                   Batch(batchNumber.value, supplierId.value, None, purchaseDate.GetOr(now), totalQuantity.value,
                         0, totalCost.value, unitCost.value, notes)])
  {
    if !GivenText(batchNumber) || totalQuantity.None? || totalCost.None? || unitCost.None? ||
       !GivenId(supplierId) {
      return Err(400);
    }
    if supplierId.value !in db.customers {
      return Err(400);
    }
    var id := db.AddBatch(Batch(batchNumber.value, supplierId.value, None, purchaseDate.GetOr(now),
                                totalQuantity.value, 0, totalCost.value, unitCost.value, notes));
    r := Ok(id);
  }

  /** `b` with every supplied field replaced and every other field kept. */
  function Patched(b: Batch, batchNumber: Option<string>, supplierId: Option<int>, purchaseDate: Option<int>,
                   totalQuantity: Option<int>, totalCost: Option<real>, unitCost: Option<real>,
                   notes: Option<Option<string>>): (r: Batch)
    ensures r.batchNumber == batchNumber.GetOr(b.batchNumber) && r.supplierId == supplierId.GetOr(b.supplierId)
    ensures r.purchaseDate == purchaseDate.GetOr(b.purchaseDate)
    ensures r.totalQuantity == totalQuantity.GetOr(b.totalQuantity)
    ensures r.totalCost == totalCost.GetOr(b.totalCost) && r.unitCost == unitCost.GetOr(b.unitCost)
    ensures r.notes == notes.GetOr(b.notes)
    ensures r.itemId == b.itemId && r.soldQuantity == b.soldQuantity
  {
    b.(batchNumber := batchNumber.GetOr(b.batchNumber), supplierId := supplierId.GetOr(b.supplierId),
       purchaseDate := purchaseDate.GetOr(b.purchaseDate), totalQuantity := totalQuantity.GetOr(b.totalQuantity),
       totalCost := totalCost.GetOr(b.totalCost), unitCost := unitCost.GetOr(b.unitCost),
       notes := notes.GetOr(b.notes))
  }

  /** A patch that supplies nothing changes nothing. */
  lemma PatchedNothing(b: Batch)
    ensures Patched(b, None, None, None, None, None, None, None) == b
  {
  }

  /** The update's quantity guard keeps `sold ≤ total`: either the total is kept or it is at least the
      sold count. */
  lemma PatchedKeepsBound(b: Batch, batchNumber: Option<string>, supplierId: Option<int>, purchaseDate: Option<int>,
                          totalQuantity: Option<int>, totalCost: Option<real>, unitCost: Option<real>,
                          notes: Option<Option<string>>)
    requires b.soldQuantity <= b.totalQuantity
    requires totalQuantity.Some? ==> totalQuantity.value >= b.soldQuantity
    ensures
      var p := Patched(b, batchNumber, supplierId, purchaseDate, totalQuantity, totalCost, unitCost, notes);
      p.soldQuantity <= p.totalQuantity && Remaining(p) == p.totalQuantity - p.soldQuantity
  {
  }

  /** Change the supplied fields of lot `id`. A new total below the units already sold is refused; a
      supplied supplier id that names no customer breaks the foreign key. */
  method Update(db: Db, id: int, batchNumber: Option<string>, supplierId: Option<int>, purchaseDate: Option<int>,
                totalQuantity: Option<int>, totalCost: Option<real>, unitCost: Option<real>,
                notes: Option<Option<string>>)
    returns (r: Result<()>)
    requires db.Valid()
    modifies db`ledger
    ensures db.Valid()
    ensures id !in old(db.ledger.batches) ==> r == Err(404)
    ensures (id in old(db.ledger.batches) && totalQuantity.Some? &&
             totalQuantity.value < old(db.ledger.batches)[id].soldQuantity) ==> r == Err(400)
    ensures r.Ok? <==>
              && id in old(db.ledger.batches)
              && (totalQuantity.Some? ==> totalQuantity.value >= old(db.ledger.batches)[id].soldQuantity)
              && (supplierId.Some? ==> supplierId.value in db.customers)
    ensures r.Err? ==> db.ledger == old(db.ledger)
    ensures r.Ok? ==>
              db.ledger == old(db.ledger).(batches := old(db.ledger.batches)[id :=
                Patched(old(db.ledger.batches)[id], batchNumber, supplierId, purchaseDate, totalQuantity, totalCost,
                        unitCost, notes)])
  {
    if id !in db.ledger.batches {
      return Err(404);
    }
    var b := db.ledger.batches[id];
    if totalQuantity.Some? && totalQuantity.value < b.soldQuantity {
      return Err(400);
    }
    if supplierId.Some? && supplierId.value !in db.customers {
      return Err(400);
    }
    db.SetBatch(id, Patched(b, batchNumber, supplierId, purchaseDate, totalQuantity, totalCost, unitCost, notes));
    r := Ok(());
  }

  /** Some serial was bought in lot `id`. */
  predicate HasSerials(ss: map<int, Serial>, id: int) {
    exists s :: s in ss && ss[s].batchId == id
  }

  /** Delete lot `id`: refused once anything was sold from it or while serials belong to it. */
  method Delete(db: Db, id: int) returns (r: Result<()>)
    requires db.Valid()
    modifies db`ledger
    ensures db.Valid()
    ensures id !in old(db.ledger.batches) ==> r == Err(404)
    ensures (id in old(db.ledger.batches) &&
             (old(db.ledger.batches)[id].soldQuantity > 0 || HasSerials(old(db.ledger.serials), id))) ==> r == Err(400)
    ensures r.Ok? <==>
              id in old(db.ledger.batches) && old(db.ledger.batches)[id].soldQuantity <= 0 &&
              !HasSerials(old(db.ledger.serials), id)
    ensures r.Err? ==> db.ledger == old(db.ledger)
    ensures r.Ok? ==> db.ledger == old(db.ledger).(batches := old(db.ledger.batches) - {id})
  {
    if id !in db.ledger.batches {
      return Err(404);
    }
    if db.ledger.batches[id].soldQuantity > 0 {
      return Err(400);
    }
    if HasSerials(db.ledger.serials, id) {
      return Err(400);
    }
    db.RemoveBatch(id);
    r := Ok(());
  }

  /** Once a lot is deleted no consumption record and no serial names it. */
  lemma DeletedLeavesNoTrace(l: Fifo.Ledger, n: int, id: int)
    requires LedgerValid(l, n) && id in l.batches && l.batches[id].soldQuantity <= 0 && !HasSerials(l.serials, id)
    ensures forall i :: 0 <= i < |l.records| ==> l.records[i].batchId != id
    ensures forall s :: s in l.serials ==> l.serials[s].batchId != id
  {
    Fifo.RecordedOnZero(l.records, id);
  }
}
