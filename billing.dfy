/** Payment-status classification, shared by sale payments, repair payments and allocated payments, and
    the sums of what has been paid towards, or is owed for, a sale or a repair. */
module Billing {
  import opened Wrappers
  import opened Entities

  /** What a payment or an allocation is for. */
  datatype Target = ToSale(saleId: int) | ToRepair(repairId: int)

  /** `paid` once at least `owed − tolerance` is paid, `partial` once anything is paid, else `pending`. */
  function Classify(paid: real, owed: real, tolerance: real): PaymentStatus {
    if paid >= owed - tolerance then Paid else if paid > 0.0 then Partial else Pending
  }

  function Rank(s: PaymentStatus): int {
    match s
    case Pending => 0
    case Partial => 1
    case Paid => 2
  }

  /** Paying more never moves the status back. */
  lemma ClassifyMonotone(p1: real, p2: real, owed: real, tolerance: real)
    requires p1 <= p2
    ensures Rank(Classify(p1, owed, tolerance)) <= Rank(Classify(p2, owed, tolerance))
  {
  }

  /** A wider tolerance never turns a paid status into an unpaid one. */
  lemma ClassifyTolerance(paid: real, owed: real, t1: real, t2: real)
    requires t1 <= t2 && Classify(paid, owed, t1) == Paid
    ensures Classify(paid, owed, t2) == Paid
  {
  }

  predicate Pays(p: Payment, t: Target) {
    match t
    case ToSale(s) => p.saleId == Some(s)
    case ToRepair(r) => p.repairId == Some(r)
  }

  predicate Allocates(a: Allocation, t: Target) {
    match t
    case ToSale(s) => a.saleId == Some(s)
    case ToRepair(r) => a.repairId == Some(r)
  }

  /** The sum of the payments made directly to `t` (the `payment.aggregate` by sale or repair id). */
  function PaidTo(ps: seq<Payment>, t: Target): real {
    if ps == [] then 0.0
    else PaidTo(ps[..|ps| - 1], t) + (if Pays(ps[|ps| - 1], t) then ps[|ps| - 1].amount else 0.0)
  }

  /** A payment to `t` that covers what was still owed, less the tolerance, leaves `t` paid. */
  lemma SettlingPayment(ps: seq<Payment>, p: Payment, t: Target, owed: real, tolerance: real)
    requires Pays(p, t) && p.amount >= owed - tolerance - PaidTo(ps, t)
    ensures Classify(PaidTo(ps + [p], t), owed, tolerance) == Paid
  {
    PaidToSnoc(ps, p, t);
  }

  /** The sum of the allocations to `t` (the `paymentAllocation.aggregate`). */
  function AllocatedTo(als: seq<Allocation>, t: Target): real {
    if als == [] then 0.0
    else AllocatedTo(als[..|als| - 1], t) + (if Allocates(als[|als| - 1], t) then als[|als| - 1].amount else 0.0)
  }

  /** A new payment counts towards its own target and no other. */
  lemma PaidToSnoc(ps: seq<Payment>, p: Payment, t: Target)
    ensures PaidTo(ps + [p], t) == PaidTo(ps, t) + (if Pays(p, t) then p.amount else 0.0)
  {
    assert (ps + [p])[..|ps|] == ps;
  }

  lemma AllocatedToSnoc(als: seq<Allocation>, a: Allocation, t: Target)
    ensures AllocatedTo(als + [a], t) == AllocatedTo(als, t) + (if Allocates(a, t) then a.amount else 0.0)
  {
    assert (als + [a])[..|als|] == als;
  }

  /** The sum of the totals of repair `repairId`'s lines. */
  function PartsCost(parts: seq<RepairItem>, repairId: int): real {
    if parts == [] then 0.0
    else
      var p := parts[|parts| - 1];
      PartsCost(parts[..|parts| - 1], repairId) + (if p.repairId == repairId then p.totalPrice else 0.0)
  }

  /** What a repair costs: its service charge (0 when unset) plus the totals of its lines. */
  function RepairOwed(serviceCharge: Option<real>, parts: seq<RepairItem>, repairId: int): real {
    serviceCharge.GetOr(0.0) + PartsCost(parts, repairId)
  }

  lemma PartsCostSnoc(parts: seq<RepairItem>, p: RepairItem, repairId: int)
    ensures PartsCost(parts + [p], repairId)
         == PartsCost(parts, repairId) + (if p.repairId == repairId then p.totalPrice else 0.0)
  {
    assert (parts + [p])[..|parts|] == parts;
  }

  /** The payments that are not made to `t` (what is left once the target's payments are deleted). */
  function WithoutPayments(ps: seq<Payment>, t: Target): (r: seq<Payment>)
    ensures forall i :: 0 <= i < |r| ==> !Pays(r[i], t) && r[i] in ps
    ensures forall j :: 0 <= j < |ps| && !Pays(ps[j], t) ==> ps[j] in r
    ensures |r| <= |ps|
  {
    if ps == [] then []
    else
      var init := WithoutPayments(ps[..|ps| - 1], t);
      assert forall x :: x in ps[..|ps| - 1] ==> x in ps;
      if Pays(ps[|ps| - 1], t) then init else init + [ps[|ps| - 1]]
  }

  /** The allocations that are not made to `t` (what is left once the target's allocations are deleted). */
  function WithoutAllocations(als: seq<Allocation>, t: Target): (r: seq<Allocation>)
    ensures forall i :: 0 <= i < |r| ==> !Allocates(r[i], t) && r[i] in als
    ensures forall j :: 0 <= j < |als| && !Allocates(als[j], t) ==> als[j] in r
    ensures |r| <= |als|
  {
    if als == [] then []
    else
      var init := WithoutAllocations(als[..|als| - 1], t);
      assert forall x :: x in als[..|als| - 1] ==> x in als;
      if Allocates(als[|als| - 1], t) then init else init + [als[|als| - 1]]
  }

  /** Deleting `t`'s payments from a table split in two deletes them from each part in turn: the
      payments kept stay in table order. */
  lemma {:induction false} WithoutPaymentsAppend(xs: seq<Payment>, ys: seq<Payment>, t: Target)
    ensures WithoutPayments(xs + ys, t) == WithoutPayments(xs, t) + WithoutPayments(ys, t)
    decreases |ys|
  {
    if ys != [] {
      var init := ys[..|ys| - 1];
      assert (xs + ys)[..|xs + ys| - 1] == xs + init;
      assert (xs + ys)[|xs + ys| - 1] == ys[|ys| - 1];
      WithoutPaymentsAppend(xs, init, t);
    } else {
      assert xs + ys == xs;
    }
  }

  /** The same for `t`'s allocations. */
  lemma {:induction false} WithoutAllocationsAppend(xs: seq<Allocation>, ys: seq<Allocation>, t: Target)
    ensures WithoutAllocations(xs + ys, t) == WithoutAllocations(xs, t) + WithoutAllocations(ys, t)
    decreases |ys|
  {
    if ys != [] {
      var init := ys[..|ys| - 1];
      assert (xs + ys)[..|xs + ys| - 1] == xs + init;
      assert (xs + ys)[|xs + ys| - 1] == ys[|ys| - 1];
      WithoutAllocationsAppend(xs, init, t);
    } else {
      assert xs + ys == xs;
    }
  }

  /** Once `t`'s payments are deleted nothing is paid to it, and a target that shares no payment with `t`
      keeps its total. */
  lemma {:induction false} WithoutPaymentsPaid(ps: seq<Payment>, t: Target, u: Target)
    requires forall i :: 0 <= i < |ps| ==> !(Pays(ps[i], t) && Pays(ps[i], u)) || t == u
    ensures PaidTo(WithoutPayments(ps, t), t) == 0.0
    ensures t != u ==> PaidTo(WithoutPayments(ps, t), u) == PaidTo(ps, u)
    decreases |ps|
  {
    if ps != [] {
      var init := ps[..|ps| - 1];
      var last := ps[|ps| - 1];
      assert forall i :: 0 <= i < |init| ==> init[i] == ps[i];
      WithoutPaymentsPaid(init, t, u);
      assert WithoutPayments(ps, t) == if Pays(last, t) then WithoutPayments(init, t) else WithoutPayments(init, t) + [last];
      if !Pays(last, t) {
        PaidToSnoc(WithoutPayments(init, t), last, t);
        PaidToSnoc(WithoutPayments(init, t), last, u);
      }
    }
  }

  /** Once `t`'s allocations are deleted nothing is allocated to it, and a target that shares no
      allocation with `t` keeps its total. */
  lemma {:induction false} WithoutAllocationsAllocated(als: seq<Allocation>, t: Target, u: Target)
    requires forall i :: 0 <= i < |als| ==> !(Allocates(als[i], t) && Allocates(als[i], u)) || t == u
    ensures AllocatedTo(WithoutAllocations(als, t), t) == 0.0
    ensures t != u ==> AllocatedTo(WithoutAllocations(als, t), u) == AllocatedTo(als, u)
    decreases |als|
  {
    if als != [] {
      var init := als[..|als| - 1];
      var last := als[|als| - 1];
      assert forall i :: 0 <= i < |init| ==> init[i] == als[i];
      WithoutAllocationsAllocated(init, t, u);
      assert WithoutAllocations(als, t)
          == if Allocates(last, t) then WithoutAllocations(init, t) else WithoutAllocations(init, t) + [last];
      if !Allocates(last, t) {
        AllocatedToSnoc(WithoutAllocations(init, t), last, t);
        AllocatedToSnoc(WithoutAllocations(init, t), last, u);
      }
    }
  }

  /** A new payment to `t` never moves `t`'s status back. */
  lemma PaymentAdvancesStatus(ps: seq<Payment>, p: Payment, t: Target, owed: real, tolerance: real)
    requires Pays(p, t) && p.amount > 0.0
    ensures PaidTo(ps + [p], t) == PaidTo(ps, t) + p.amount
    ensures Rank(Classify(PaidTo(ps, t), owed, tolerance)) <= Rank(Classify(PaidTo(ps + [p], t), owed, tolerance))
  {
    PaidToSnoc(ps, p, t);
    ClassifyMonotone(PaidTo(ps, t), PaidTo(ps + [p], t), owed, tolerance);
  }
}
