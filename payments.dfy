/** Allocated payments: one customer payment split across several sales and repairs, each share recorded
    as an allocation and each sale or repair it touches re-classified from everything paid to it. */
module Payments {
  import opened Wrappers
  import opened Entities
  import opened Store
  import opened Billing

  /** One entry of the request's `allocations`: the sale and/or repair it pays and how much. */
  datatype Share = Share(saleId: Option<int>, repairId: Option<int>, amount: real)

  /** The sum of the shares' amounts. */
  function Shares(xs: seq<Share>): real {
    if xs == [] then 0.0 else Shares(xs[..|xs| - 1]) + xs[|xs| - 1].amount
  }

  function Abs(x: real): real {
    if x < 0.0 then -x else x
  }

  /** No shares, or shares whose sum is within 0.01 of the payment. */
  predicate SumMatches(xs: seq<Share>, amount: real) {
    xs == [] || Abs(Shares(xs) - amount) <= 0.01
  }

  /** The check in words: with shares, they add up to the payment give or take a cent. */
  lemma SumMatchesWithin(xs: seq<Share>, amount: real)
    ensures SumMatches(xs, amount) <==> xs == [] || amount - 0.01 <= Shares(xs) <= amount + 0.01
  {
  }

  /** The allocation rows the shares become, all pointing at payment `pid`. */
  function Records(pid: int, xs: seq<Share>): (r: seq<Allocation>)
    ensures |r| == |xs|
    ensures forall i :: 0 <= i < |xs| ==>
              r[i].paymentId == pid && r[i].saleId == xs[i].saleId && r[i].repairId == xs[i].repairId &&
              r[i].amount == xs[i].amount
  {
    if xs == [] then []
    else
      var x := xs[|xs| - 1];
      Records(pid, xs[..|xs| - 1]) + [Allocation(pid, x.saleId, x.repairId, x.amount)]
  }

  lemma RecordsSnoc(pid: int, xs: seq<Share>, x: Share)
    ensures Records(pid, xs + [x]) == Records(pid, xs) + [Allocation(pid, x.saleId, x.repairId, x.amount)]
  {
    assert (xs + [x])[..|xs|] == xs;
  }

  predicate ShareAllocates(x: Share, t: Target) {
    match t
    case ToSale(s) => x.saleId == Some(s)
    case ToRepair(r) => x.repairId == Some(r)
  }

  /** The part of the shares that goes to `t`. */
  function SharesTo(xs: seq<Share>, t: Target): real {
    if xs == [] then 0.0
    else SharesTo(xs[..|xs| - 1], t) + (if ShareAllocates(xs[|xs| - 1], t) then xs[|xs| - 1].amount else 0.0)
  }

  /** Recording the shares adds to each target exactly the shares that name it. */
  lemma {:induction false} RecordsAllocated(als: seq<Allocation>, pid: int, xs: seq<Share>, t: Target)
    ensures AllocatedTo(als + Records(pid, xs), t) == AllocatedTo(als, t) + SharesTo(xs, t)
    decreases |xs|
  {
    if xs == [] {
      assert als + Records(pid, xs) == als;
    } else {
      var init, x := xs[..|xs| - 1], xs[|xs| - 1];
      RecordsAllocated(als, pid, init, t);
      assert init + [x] == xs;
      RecordsSnoc(pid, init, x);
      var a := Allocation(pid, x.saleId, x.repairId, x.amount);
      assert als + Records(pid, xs) == (als + Records(pid, init)) + [a];
      AllocatedToSnoc(als + Records(pid, init), a, t);
    }
  }

  lemma {:induction false} SharesToNonNegative(xs: seq<Share>, t: Target)
    requires forall i :: 0 <= i < |xs| ==> xs[i].amount >= 0.0
    ensures SharesTo(xs, t) >= 0.0
    decreases |xs|
  {
    if xs != [] {
      SharesToNonNegative(xs[..|xs| - 1], t);
    }
  }

  /** The truthy `saleId` of some share is `s`. */
  predicate TargetsSale(xs: seq<Share>, s: int) {
    exists k :: 0 <= k < |xs| && xs[k].saleId == Some(s) && s != 0
  }

  predicate TargetsRepair(xs: seq<Share>, r: int) {
    exists k :: 0 <= k < |xs| && xs[k].repairId == Some(r) && r != 0
  }

  /** A sale's status from everything paid directly and allocated to it. */
  function SaleStatus(ps: seq<Payment>, als: seq<Allocation>, id: int, total: real): PaymentStatus {
    Classify(PaidTo(ps, ToSale(id)) + AllocatedTo(als, ToSale(id)), total, 0.01)
  }

  /** A repair's status from everything paid directly and allocated to it, against its service charge
      plus line totals. */
  function RepairStatus(ps: seq<Payment>, als: seq<Allocation>, parts: seq<RepairItem>, id: int,
                        serviceCharge: Option<real>): PaymentStatus {
    Classify(PaidTo(ps, ToRepair(id)) + AllocatedTo(als, ToRepair(id)), RepairOwed(serviceCharge, parts, id), 0.01)
  }

  /** The sales after allocating: each sale a share names carries its status recomputed from the final
      payment and allocation tables, and every other sale is as it was. */
  function SettledSales(sales: map<int, Sale>, ps: seq<Payment>, als: seq<Allocation>, xs: seq<Share>)
    : (r: map<int, Sale>)
    ensures r.Keys == sales.Keys && forall s :: s in sales ==> r[s].items == sales[s].items
  {
    map s | s in sales :: if TargetsSale(xs, s) then sales[s].(paymentStatus := SaleStatus(ps, als, s, sales[s].totalAmount))
                          else sales[s]
  }

  function SettledRepairs(repairs: map<int, Repair>, ps: seq<Payment>, als: seq<Allocation>, parts: seq<RepairItem>,
                          xs: seq<Share>): (r: map<int, Repair>)
    ensures r.Keys == repairs.Keys
  {
    map k | k in repairs :: if TargetsRepair(xs, k)
                            then repairs[k].(paymentStatus := RepairStatus(ps, als, parts, k, repairs[k].serviceCharge))
                            else repairs[k]
  }

  /** With no shares nothing is re-classified. */
  lemma SettledNothing(sales: map<int, Sale>, repairs: map<int, Repair>, ps: seq<Payment>, als: seq<Allocation>,
                       parts: seq<RepairItem>)
    ensures SettledSales(sales, ps, als, []) == sales
    ensures SettledRepairs(repairs, ps, als, parts, []) == repairs
  {
  }

  /** Allocating non-negative shares never moves a sale's computed status back. */
  lemma AllocationAdvancesSale(ps: seq<Payment>, als: seq<Allocation>, pid: int, xs: seq<Share>, s: int, total: real)
    requires forall i :: 0 <= i < |xs| ==> xs[i].amount >= 0.0
    ensures Rank(SaleStatus(ps, als, s, total)) <= Rank(SaleStatus(ps, als + Records(pid, xs), s, total))
  {
    RecordsAllocated(als, pid, xs, ToSale(s));
    SharesToNonNegative(xs, ToSale(s));
    ClassifyMonotone(PaidTo(ps, ToSale(s)) + AllocatedTo(als, ToSale(s)),
                     PaidTo(ps, ToSale(s)) + AllocatedTo(als + Records(pid, xs), ToSale(s)), total, 0.01);
  }

  /** The same for a repair. */
  lemma AllocationAdvancesRepair(ps: seq<Payment>, als: seq<Allocation>, pid: int, xs: seq<Share>,
                                 parts: seq<RepairItem>, k: int, serviceCharge: Option<real>)
    requires forall i :: 0 <= i < |xs| ==> xs[i].amount >= 0.0
    ensures Rank(RepairStatus(ps, als, parts, k, serviceCharge))
         <= Rank(RepairStatus(ps, als + Records(pid, xs), parts, k, serviceCharge))
  {
    RecordsAllocated(als, pid, xs, ToRepair(k));
    SharesToNonNegative(xs, ToRepair(k));
    ClassifyMonotone(PaidTo(ps, ToRepair(k)) + AllocatedTo(als, ToRepair(k)),
                     PaidTo(ps, ToRepair(k)) + AllocatedTo(als + Records(pid, xs), ToRepair(k)),
                     RepairOwed(serviceCharge, parts, k), 0.01);
  }

  /** One more share: the sale it names (when that id is truthy and the sale exists) is re-classified
      with the new allocation counted; the others keep their status, since the new allocation does not
      count for them. */
  lemma SettledSalesStep(sales: map<int, Sale>, ps: seq<Payment>, als: seq<Allocation>, xs: seq<Share>, x: Share,
                         a: Allocation)
    requires a.saleId == x.saleId
    ensures
      var before := SettledSales(sales, ps, als, xs);
      SettledSales(sales, ps, als + [a], xs + [x]) ==
        if GivenId(x.saleId) && x.saleId.value in sales
        then before[x.saleId.value := before[x.saleId.value].(paymentStatus :=
               SaleStatus(ps, als + [a], x.saleId.value, before[x.saleId.value].totalAmount))]
        else before
  {
    var before := SettledSales(sales, ps, als, xs);
    var after := SettledSales(sales, ps, als + [a], xs + [x]);
    forall s | s in sales && !(GivenId(x.saleId) && x.saleId.value == s)
      ensures after[s] == before[s]
    {
      AllocatedToSnoc(als, a, ToSale(s));
      if TargetsSale(xs + [x], s) {
        var k :| 0 <= k < |xs + [x]| && (xs + [x])[k].saleId == Some(s) && s != 0;
        assert k < |xs| && xs[k] == (xs + [x])[k];
      }
      if TargetsSale(xs, s) {
        var k :| 0 <= k < |xs| && xs[k].saleId == Some(s) && s != 0;
        assert (xs + [x])[k] == xs[k];
      }
    }
    if GivenId(x.saleId) && x.saleId.value in sales {
      assert (xs + [x])[|xs|] == x;
    }
  }

  lemma SettledRepairsStep(repairs: map<int, Repair>, ps: seq<Payment>, als: seq<Allocation>, parts: seq<RepairItem>,
                           xs: seq<Share>, x: Share, a: Allocation)
    requires a.repairId == x.repairId
    ensures
      var before := SettledRepairs(repairs, ps, als, parts, xs);
      SettledRepairs(repairs, ps, als + [a], parts, xs + [x]) ==
        if GivenId(x.repairId) && x.repairId.value in repairs
        then before[x.repairId.value := before[x.repairId.value].(paymentStatus :=
               RepairStatus(ps, als + [a], parts, x.repairId.value, before[x.repairId.value].serviceCharge))]
        else before
  {
    var before := SettledRepairs(repairs, ps, als, parts, xs);
    var after := SettledRepairs(repairs, ps, als + [a], parts, xs + [x]);
    forall k | k in repairs && !(GivenId(x.repairId) && x.repairId.value == k)
      ensures after[k] == before[k]
    {
      AllocatedToSnoc(als, a, ToRepair(k));
      if TargetsRepair(xs + [x], k) {
        var j :| 0 <= j < |xs + [x]| && (xs + [x])[j].repairId == Some(k) && k != 0;
        assert j < |xs| && xs[j] == (xs + [x])[j];
      }
      if TargetsRepair(xs, k) {
        var j :| 0 <= j < |xs| && xs[j].repairId == Some(k) && k != 0;
        assert (xs + [x])[j] == xs[j];
      }
    }
    if GivenId(x.repairId) && x.repairId.value in repairs {
      assert (xs + [x])[|xs|] == x;
    }
  }

  /** The sales after allocation `a`'s share `x` is recorded: the sale it names, when that id is truthy and
      the sale exists, is re-classified from the allocations `als` that include it. */
  function SaleReclassified(sales: map<int, Sale>, ps: seq<Payment>, als: seq<Allocation>, x: Share): (r: map<int, Sale>)
    ensures r.Keys == sales.Keys
  {
    if GivenId(x.saleId) && x.saleId.value in sales
    then sales[x.saleId.value := sales[x.saleId.value].(paymentStatus :=
           SaleStatus(ps, als, x.saleId.value, sales[x.saleId.value].totalAmount))]
    else sales
  }

  /** The repairs after share `x` is recorded, in the same way. */
  function RepairReclassified(repairs: map<int, Repair>, ps: seq<Payment>, als: seq<Allocation>, parts: seq<RepairItem>,
                              x: Share): (r: map<int, Repair>)
    ensures r.Keys == repairs.Keys
  {
    if GivenId(x.repairId) && x.repairId.value in repairs
    then repairs[x.repairId.value := repairs[x.repairId.value].(paymentStatus :=
           RepairStatus(ps, als, parts, x.repairId.value, repairs[x.repairId.value].serviceCharge))]
    else repairs
  }

  /** What holds after the first `i` shares: their allocations are appended and the sales and repairs they
      name are re-classified. */
  predicate Applied(sales: map<int, Sale>, repairs: map<int, Repair>, parts: seq<RepairItem>, ps: seq<Payment>,
                    als: seq<Allocation>, pid: int, xs: seq<Share>, i: nat,
                    sales': map<int, Sale>, repairs': map<int, Repair>, als': seq<Allocation>)
    requires i <= |xs|
  {
    && als' == als + Records(pid, xs[..i])
    && sales' == SettledSales(sales, ps, als', xs[..i])
    && repairs' == SettledRepairs(repairs, ps, als', parts, xs[..i])
  }

  /** Recording share `i` keeps `Applied`. */
  lemma AppliedStep(sales: map<int, Sale>, repairs: map<int, Repair>, parts: seq<RepairItem>, ps: seq<Payment>,
                    als: seq<Allocation>, pid: int, xs: seq<Share>, i: nat,
                    sales': map<int, Sale>, repairs': map<int, Repair>, als': seq<Allocation>)
    requires i < |xs| && Applied(sales, repairs, parts, ps, als, pid, xs, i, sales', repairs', als')
    ensures
      var x := xs[i];
      var als'' := als' + [Allocation(pid, x.saleId, x.repairId, x.amount)];
      Applied(sales, repairs, parts, ps, als, pid, xs, i + 1,
              SaleReclassified(sales', ps, als'', x), RepairReclassified(repairs', ps, als'', parts, x), als'')
  {
    var x := xs[i];
    var a := Allocation(pid, x.saleId, x.repairId, x.amount);
    assert xs[..i + 1] == xs[..i] + [x];
    RecordsSnoc(pid, xs[..i], x);
    SettledSalesStep(sales, ps, als', xs[..i], x, a);
    SettledRepairsStep(repairs, ps, als', parts, xs[..i], x, a);
  }

  /** The allocation loop: record each share and re-classify the sale and the repair it names. */
  method ApplyShares(sales: map<int, Sale>, repairs: map<int, Repair>, parts: seq<RepairItem>, ps: seq<Payment>,
                     als: seq<Allocation>, pid: int, xs: seq<Share>)
    returns (sales': map<int, Sale>, repairs': map<int, Repair>, als': seq<Allocation>)
    ensures als' == als + Records(pid, xs)
    ensures sales' == SettledSales(sales, ps, als', xs)
    ensures repairs' == SettledRepairs(repairs, ps, als', parts, xs)
  {
    sales', repairs', als' := sales, repairs, als;
    SettledNothing(sales, repairs, ps, als, parts);
    var i := 0;
    while i < |xs|
      invariant 0 <= i <= |xs|
      invariant Applied(sales, repairs, parts, ps, als, pid, xs, i, sales', repairs', als')
    {
      AppliedStep(sales, repairs, parts, ps, als, pid, xs, i, sales', repairs', als');
      var x := xs[i];
      als' := als' + [Allocation(pid, x.saleId, x.repairId, x.amount)];
      sales' := SaleReclassified(sales', ps, als', x);
      repairs' := RepairReclassified(repairs', ps, als', parts, x);
      i := i + 1;
    }
    assert xs[..i] == xs;
  }

  /** Every share names only existing sales and repairs (the allocation rows' foreign keys). */
  predicate SharesGrounded(xs: seq<Share>, sales: map<int, Sale>, repairs: map<int, Repair>) {
    forall i :: 0 <= i < |xs| ==>
      (xs[i].saleId.Some? ==> xs[i].saleId.value in sales) && (xs[i].repairId.Some? ==> xs[i].repairId.value in repairs)
  }

  /** Take a completed payment from a customer and split it over sales and repairs. Customer, method and a
      non-zero amount are required and the shares must add up to the amount; a customer, method, sale or
      repair that does not exist aborts the whole transaction. */
  method Allocate(db: Db, customerId: Option<int>, methodId: Option<int>, amount: Option<real>, xs: seq<Share>,
                  now: int)
    returns (r: Result<int>)
    requires db.Valid()
    modifies db`payments, db`nextId, db`sales, db`repairs, db`allocations
    ensures db.Valid()
    ensures (!GivenId(customerId) || !GivenId(methodId) || !Given(amount)) ==> r == Err(400)
    ensures (GivenId(customerId) && GivenId(methodId) && Given(amount) && !SumMatches(xs, amount.value)) ==> r == Err(400)
    ensures r.Ok? ==>
              && GivenId(customerId) && GivenId(methodId) && Given(amount) && SumMatches(xs, amount.value)
              && customerId.value in db.customers && methodId.value in db.paymentMethods
              && SharesGrounded(xs, old(db.sales), old(db.repairs))
    ensures (&& GivenId(customerId) && GivenId(methodId) && Given(amount) && SumMatches(xs, amount.value)
             && customerId.value in db.customers && methodId.value in db.paymentMethods
             && SharesGrounded(xs, old(db.sales), old(db.repairs))) ==> r.Ok?
    ensures r.Err? ==>
              && r.code == 400 && db.payments == old(db.payments) && db.allocations == old(db.allocations)
              && db.sales == old(db.sales) && db.repairs == old(db.repairs) && db.nextId == old(db.nextId)
    ensures r.Ok? ==>
              && r.value == old(db.nextId)
              && db.payments == old(db.payments) +
                   [Payment(r.value, customerId, None, None, methodId.value, amount.value, now, Some("completed"))]
              && db.allocations == old(db.allocations) + Records(r.value, xs)
              && db.sales == SettledSales(old(db.sales), db.payments, db.allocations, xs)
              && db.repairs == SettledRepairs(old(db.repairs), db.payments, db.allocations, db.repairItems, xs)
  {
    if !GivenId(customerId) || !GivenId(methodId) || !Given(amount) {
      return Err(400);
    }
    if !SumMatches(xs, amount.value) {
      return Err(400);
    }
    if customerId.value !in db.customers || methodId.value !in db.paymentMethods {
      return Err(400);
    }
    if !SharesGrounded(xs, db.sales, db.repairs) {
      return Err(400);
    }
    var pid := Book(db, customerId, methodId.value, amount.value, xs, now);
    r := Ok(pid);
  }

  /** The accepted path of `Allocate`: insert the payment, then record the shares and re-classify. */
  method Book(db: Db, customerId: Option<int>, methodId: int, amount: real, xs: seq<Share>, now: int)
    returns (pid: int)
    requires db.Valid()
    modifies db`payments, db`nextId, db`sales, db`repairs, db`allocations
    ensures db.Valid() && pid == old(db.nextId)
    ensures db.payments == old(db.payments) + [Payment(pid, customerId, None, None, methodId, amount, now, Some("completed"))]
    ensures db.allocations == old(db.allocations) + Records(pid, xs)
    ensures db.sales == SettledSales(old(db.sales), db.payments, db.allocations, xs)
    ensures db.repairs == SettledRepairs(old(db.repairs), db.payments, db.allocations, db.repairItems, xs)
  {
    pid := db.AddPayment(customerId, None, None, methodId, amount, now, Some("completed"));
    var sales', repairs', als' := ApplyShares(db.sales, db.repairs, db.repairItems, db.payments, db.allocations, pid, xs);
    db.Settle(sales', repairs', als');
  }
}
