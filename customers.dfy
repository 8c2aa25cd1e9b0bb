/** The customer handlers: creating and updating a customer under the unique phone number, deleting one
    without history, and the customer ledger (every repair, counted sale and payment of a customer by
    date, with a running balance). */
module Customers {
  import opened Wrappers
  import opened Entities
  import opened Store
  import opened Billing

  // ---------------------------------------------------------------------------------------------------
  // Creating, updating and deleting

  /** Some customer has phone number `phone`. */
  predicate PhoneTaken(cs: map<int, Customer>, phone: string) {
    exists k :: k in cs && cs[k].phone == phone
  }

  /** Create a customer. Name and phone are required, a phone in use is a conflict (409), and the party
      type defaults to "customer". */
  method Create(db: Db, name: Option<string>, phone: Option<string>, email: Option<string>, address: Option<string>,
                companyName: Option<string>, kind: Option<string>, locationLink: Option<string>,
                taxNumber: Option<string>)
    returns (r: Result<int>)
    requires db.Valid()
    modifies db`customers, db`nextId
    ensures db.Valid()
    ensures (!GivenText(name) || !GivenText(phone)) ==> r == Err(400)
    ensures (GivenText(name) && GivenText(phone) && PhoneTaken(old(db.customers), phone.value)) ==> r == Err(409)
    ensures r.Ok? <==> GivenText(name) && GivenText(phone) && !PhoneTaken(old(db.customers), phone.value)
    ensures r.Err? ==> db.customers == old(db.customers) && db.nextId == old(db.nextId)
    ensures r.Ok? ==>
              && r.value == old(db.nextId) && r.value !in old(db.customers)
              && db.customers == old(db.customers)[r.value := Customer(name.value, phone.value, email, address,
                   companyName, if GivenText(kind) then kind.value else "customer", locationLink, taxNumber)]
  {
    if !GivenText(name) || !GivenText(phone) {
      return Err(400);
    }
    if PhoneTaken(db.customers, phone.value) {
      return Err(409);
    }
    var id := db.AddCustomer(Customer(name.value, phone.value, email, address, companyName,
                                      if GivenText(kind) then kind.value else "customer", locationLink, taxNumber));
    r := Ok(id);
  }

  /** `c` with every supplied field replaced; the tax number cannot be changed here. */
  function Patched(c: Customer, name: Option<string>, phone: Option<string>, email: Option<Option<string>>,
                   address: Option<Option<string>>, companyName: Option<Option<string>>, kind: Option<string>,
                   locationLink: Option<Option<string>>): (r: Customer)
    ensures r.name == name.GetOr(c.name) && r.phone == phone.GetOr(c.phone) && r.kind == kind.GetOr(c.kind)
    ensures r.email == email.GetOr(c.email) && r.address == address.GetOr(c.address)
    ensures r.companyName == companyName.GetOr(c.companyName) && r.locationLink == locationLink.GetOr(c.locationLink)
    ensures r.taxNumber == c.taxNumber
  {
    c.(name := name.GetOr(c.name), phone := phone.GetOr(c.phone), email := email.GetOr(c.email),
       address := address.GetOr(c.address), companyName := companyName.GetOr(c.companyName),
       kind := kind.GetOr(c.kind), locationLink := locationLink.GetOr(c.locationLink))
  }

  /** Another customer than `id` has phone number `phone`. */
  predicate PhoneTakenByOther(cs: map<int, Customer>, id: int, phone: string) {
    exists k :: k in cs && k != id && cs[k].phone == phone
  }

  /** Change the supplied fields of customer `id`. A new non-empty phone that another customer has is a
      conflict (409); an empty phone skips that check, and the unique index then refuses it (400) when
      another customer already has the empty phone. */
  method Update(db: Db, id: int, name: Option<string>, phone: Option<string>, email: Option<Option<string>>,
                address: Option<Option<string>>, companyName: Option<Option<string>>, kind: Option<string>,
                locationLink: Option<Option<string>>)
    returns (r: Result<()>)
    requires db.Valid()
    modifies db`customers
    ensures db.Valid()
    ensures id !in old(db.customers) ==> r == Err(404)
    ensures (id in old(db.customers) && GivenText(phone) && PhoneTakenByOther(old(db.customers), id, phone.value))
            ==> r == Err(409)
    ensures r == Err(400) ==> phone == Some("")
    ensures r.Ok? <==>
              id in old(db.customers) && !(phone.Some? && PhoneTakenByOther(old(db.customers), id, phone.value))
    ensures r.Err? ==> db.customers == old(db.customers)
    ensures r.Ok? ==>
              db.customers == old(db.customers)[id := Patched(old(db.customers)[id], name, phone, email, address,
                                                              companyName, kind, locationLink)]
  {
    if id !in db.customers {
      return Err(404);
    }
    var c := db.customers[id];
    OtherPhoneConflicts(db.customers, id, phone);
    if GivenText(phone) && phone.value != c.phone && PhoneTaken(db.customers, phone.value) {
      return Err(409);
    }
    // A non-empty phone another customer has was caught above (see `OtherPhoneConflicts`), so only the
    // empty phone is left for the unique index to refuse.
    if phone.Some? && phone.value == "" && PhoneTakenByOther(db.customers, id, phone.value) {
      return Err(400);
    }
    db.SetCustomer(id, Patched(c, name, phone, email, address, companyName, kind, locationLink));
    r := Ok(());
  }

  /** With unique phones, a non-empty phone that another customer has is not customer `id`'s own and is
      taken, so the conflict check catches it. */
  lemma OtherPhoneConflicts(cs: map<int, Customer>, id: int, phone: Option<string>)
    requires UniquePhones(cs) && id in cs
    ensures GivenText(phone) && PhoneTakenByOther(cs, id, phone.value) ==>
              phone.value != cs[id].phone && PhoneTaken(cs, phone.value)
  {
    if GivenText(phone) && PhoneTakenByOther(cs, id, phone.value) {
      var k :| k in cs && k != id && cs[k].phone == phone.value;
    }
  }

  /** Some repair was brought in by customer `id`. */
  predicate HasRepairs(repairs: map<int, Repair>, id: int) {
    exists k :: k in repairs && repairs[k].customerId == id
  }

  /** Some sale was made to customer `id`. */
  predicate HasSales(sales: map<int, Sale>, id: int) {
    exists k :: k in sales && sales[k].customerId == Some(id)
  }

  /** Some batch was bought from customer `id` (the required `Batch.supplierId`). */
  predicate HasBatches(bs: map<int, Batch>, id: int) {
    exists k :: k in bs && bs[k].supplierId == id
  }

  /** Delete customer `id`, refused while any repair or sale belongs to it. A batch bought from the
      customer makes the foreign key refuse the deletion (400); its payments lose their link to it. */
  method Delete(db: Db, id: int) returns (r: Result<()>)
    requires db.Valid()
    modifies db`customers, db`payments
    ensures db.Valid()
    ensures id !in old(db.customers) ==> r == Err(404)
    ensures (id in old(db.customers) && (HasRepairs(db.repairs, id) || HasSales(db.sales, id))) ==> r == Err(400)
    ensures id in old(db.customers) && HasBatches(db.ledger.batches, id) ==> r == Err(400)
    ensures r.Ok? <==> && id in old(db.customers) && !HasRepairs(db.repairs, id) && !HasSales(db.sales, id)
                       && !HasBatches(db.ledger.batches, id)
    ensures r.Err? ==> db.customers == old(db.customers) && db.payments == old(db.payments)
    ensures r.Ok? ==> db.customers == old(db.customers) - {id}
    ensures r.Ok? ==> db.payments == CustomerUnlinked(old(db.payments), id)
  {
    if id !in db.customers {
      return Err(404);
    }
    if HasRepairs(db.repairs, id) || HasSales(db.sales, id) {
      return Err(400);
    }
    if HasBatches(db.ledger.batches, id) {
      return Err(400);
    }
    db.RemoveCustomer(id);
    r := Ok(());
  }

  // ---------------------------------------------------------------------------------------------------
  // The ledger

  datatype EntryKind = RepairEntry | SaleEntry | PaymentEntry

  /** One ledger transaction: what it is, the row it comes from, its date and the amounts it charges
      (debit) or pays (credit). */
  datatype Entry = Entry(kind: EntryKind, rowId: int, date: int, debit: real, credit: real)

  /** What a repair charges: its final cost when set, otherwise its service charge plus line totals. */
  function RepairDebit(r: Repair, id: int, parts: seq<RepairItem>): (d: real)
    ensures r.finalCost.Some? ==> d == r.finalCost.value
    ensures r.finalCost.None? ==> d == RepairOwed(r.serviceCharge, parts, id)
  {
    match r.finalCost
    case Some(c) => c
    case None => RepairOwed(r.serviceCharge, parts, id)
  }

  /** A debit entry for each repair of customer `cid`, in the order the repairs are listed. */
  function RepairEntries(order: seq<int>, repairs: map<int, Repair>, parts: seq<RepairItem>, cid: int)
    : (r: seq<Entry>)
    ensures forall i :: 0 <= i < |r| ==>
              && r[i].kind == RepairEntry && r[i].rowId in repairs && r[i].rowId in order
              && repairs[r[i].rowId].customerId == cid && r[i].date == repairs[r[i].rowId].createdAt
              && r[i].debit == RepairDebit(repairs[r[i].rowId], r[i].rowId, parts) && r[i].credit == 0.0
    ensures forall k :: k in order && k in repairs && repairs[k].customerId == cid ==>
              exists i :: 0 <= i < |r| && r[i].rowId == k
  {
    if order == [] then []
    else
      var init := RepairEntries(order[..|order| - 1], repairs, parts, cid);
      var k := order[|order| - 1];
      assert forall x :: x in order[..|order| - 1] ==> x in order;
      assert forall x :: x in order ==> x in order[..|order| - 1] || x == k;
      if k in repairs && repairs[k].customerId == cid then
        var e := Entry(RepairEntry, k, repairs[k].createdAt, RepairDebit(repairs[k], k, parts), 0.0);
        assert (init + [e])[|init|] == e;
        assert forall i :: 0 <= i < |init| ==> (init + [e])[i] == init[i];
        init + [e]
      else init
  }

  /** A sale counts towards the ledger unless it is a draft or cancelled. */
  predicate Counted(s: Sale) {
    s.status != "draft" && s.status != "cancelled"
  }

  /** A debit entry for each counted sale to customer `cid`, in the order the sales are listed. */
  function SaleEntries(order: seq<int>, sales: map<int, Sale>, cid: int): (r: seq<Entry>)
    ensures forall i :: 0 <= i < |r| ==>
              && r[i].kind == SaleEntry && r[i].rowId in sales && r[i].rowId in order
              && sales[r[i].rowId].customerId == Some(cid) && Counted(sales[r[i].rowId])
              && r[i].date == sales[r[i].rowId].saleDate && r[i].debit == sales[r[i].rowId].totalAmount
              && r[i].credit == 0.0
    ensures forall k :: k in order && k in sales && sales[k].customerId == Some(cid) && Counted(sales[k]) ==>
              exists i :: 0 <= i < |r| && r[i].rowId == k
  {
    if order == [] then []
    else
      var init := SaleEntries(order[..|order| - 1], sales, cid);
      var k := order[|order| - 1];
      assert forall x :: x in order[..|order| - 1] ==> x in order;
      assert forall x :: x in order ==> x in order[..|order| - 1] || x == k;
      if k in sales && sales[k].customerId == Some(cid) && Counted(sales[k]) then
        var e := Entry(SaleEntry, k, sales[k].saleDate, sales[k].totalAmount, 0.0);
        assert (init + [e])[|init|] == e;
        assert forall i :: 0 <= i < |init| ==> (init + [e])[i] == init[i];
        init + [e]
      else init
  }

  /** The payment belongs to customer `cid`: made by it, or to one of its sales or repairs. */
  predicate PaymentOf(p: Payment, sales: map<int, Sale>, repairs: map<int, Repair>, cid: int) {
    || p.customerId == Some(cid)
    || (p.saleId.Some? && p.saleId.value in sales && sales[p.saleId.value].customerId == Some(cid))
    || (p.repairId.Some? && p.repairId.value in repairs && repairs[p.repairId.value].customerId == cid)
  }

  /** A credit entry for each payment of customer `cid`, in table order. */
  function PaymentEntries(ps: seq<Payment>, sales: map<int, Sale>, repairs: map<int, Repair>, cid: int)
    : (r: seq<Entry>)
    ensures forall i :: 0 <= i < |r| ==>
              && r[i].kind == PaymentEntry && r[i].debit == 0.0
              && exists j :: 0 <= j < |ps| && PaymentOf(ps[j], sales, repairs, cid) && r[i].rowId == ps[j].id
                           && r[i].date == ps[j].paymentDate && r[i].credit == ps[j].amount
    ensures forall j :: 0 <= j < |ps| && PaymentOf(ps[j], sales, repairs, cid) ==>
              Entry(PaymentEntry, ps[j].id, ps[j].paymentDate, 0.0, ps[j].amount) in r
    ensures |r| <= |ps|
  {
    if ps == [] then []
    else
      var init := PaymentEntries(ps[..|ps| - 1], sales, repairs, cid);
      var p := ps[|ps| - 1];
      assert forall j :: 0 <= j < |ps| - 1 ==> ps[..|ps| - 1][j] == ps[j];
      if PaymentOf(p, sales, repairs, cid) then
        var e := Entry(PaymentEntry, p.id, p.paymentDate, 0.0, p.amount);
        assert (init + [e])[|init|] == e;
        assert forall i :: 0 <= i < |init| ==> (init + [e])[i] == init[i];
        init + [e]
      else init
  }

  /** The credit entries of a table split in two are those of each part in turn: table order is kept. */
  lemma {:induction false} PaymentEntriesAppend(xs: seq<Payment>, ys: seq<Payment>, sales: map<int, Sale>,
                                                repairs: map<int, Repair>, cid: int)
    ensures PaymentEntries(xs + ys, sales, repairs, cid)
         == PaymentEntries(xs, sales, repairs, cid) + PaymentEntries(ys, sales, repairs, cid)
    decreases |ys|
  {
    if ys != [] {
      var init := ys[..|ys| - 1];
      assert (xs + ys)[..|xs + ys| - 1] == xs + init;
      assert (xs + ys)[|xs + ys| - 1] == ys[|ys| - 1];
      PaymentEntriesAppend(xs, init, sales, repairs, cid);
    } else {
      assert xs + ys == xs;
    }
  }

  /** Every transaction of customer `cid`: its repairs, then its counted sales, then its payments. */
  function Transactions(repairOrder: seq<int>, saleOrder: seq<int>, repairs: map<int, Repair>,
                        parts: seq<RepairItem>, sales: map<int, Sale>, ps: seq<Payment>, cid: int): seq<Entry> {
    RepairEntries(repairOrder, repairs, parts, cid) + SaleEntries(saleOrder, sales, cid) +
    PaymentEntries(ps, sales, repairs, cid)
  }

  predicate ByDate(ts: seq<Entry>) {
    forall i, j :: 0 <= i < j < |ts| ==> ts[i].date <= ts[j].date
  }

  /** `e` placed after every entry dated at or before it. */
  function InsertByDate(e: Entry, ys: seq<Entry>): (r: seq<Entry>)
    ensures multiset(r) == multiset(ys) + multiset{e} && |r| == |ys| + 1
    decreases |ys|
  {
    if ys == [] || ys[|ys| - 1].date <= e.date then ys + [e]
    else
      var init := ys[..|ys| - 1];
      assert ys == init + [ys[|ys| - 1]];
      InsertByDate(e, init) + [ys[|ys| - 1]]
  }

  /** A stable insertion sort by date (the comparator `a.date − b.date`). */
  function SortByDate(ts: seq<Entry>): (r: seq<Entry>)
    ensures multiset(r) == multiset(ts) && |r| == |ts|
    decreases |ts|
  {
    if ts == [] then []
    else
      var init := ts[..|ts| - 1];
      assert ts == init + [ts[|ts| - 1]];
      InsertByDate(ts[|ts| - 1], SortByDate(init))
  }

  lemma {:induction false} InsertByDateSorted(e: Entry, ys: seq<Entry>)
    requires ByDate(ys)
    ensures ByDate(InsertByDate(e, ys))
    ensures forall i :: 0 <= i < |ys| + 1 ==>
              InsertByDate(e, ys)[i].date <= Max(e.date, if ys == [] then e.date else ys[|ys| - 1].date)
    decreases |ys|
  {
    var r := InsertByDate(e, ys);
    if ys == [] || ys[|ys| - 1].date <= e.date {
      assert r == ys + [e];
      forall i | 0 <= i < |r| ensures r[i].date <= e.date {
        if i < |ys| && ys != [] {
          assert ys[i].date <= ys[|ys| - 1].date;
        }
      }
    } else {
      var init := ys[..|ys| - 1];
      var last := ys[|ys| - 1];
      assert ByDate(init);
      InsertByDateSorted(e, init);
      var r' := InsertByDate(e, init);
      assert r == r' + [last];
      forall i | 0 <= i < |r'| ensures r'[i].date <= last.date {
        if init != [] {
          assert init[|init| - 1].date <= last.date;
        }
      }
    }
  }

  /** The ledger is in date order. */
  lemma {:induction false} SortByDateSorted(ts: seq<Entry>)
    ensures ByDate(SortByDate(ts))
    decreases |ts|
  {
    if ts != [] {
      SortByDateSorted(ts[..|ts| - 1]);
      InsertByDateSorted(ts[|ts| - 1], SortByDate(ts[..|ts| - 1]));
    }
  }

  /** Sum of the debits. */
  function Debits(ts: seq<Entry>): real {
    if ts == [] then 0.0 else Debits(ts[..|ts| - 1]) + ts[|ts| - 1].debit
  }

  /** Sum of the credits. */
  function Credits(ts: seq<Entry>): real {
    if ts == [] then 0.0 else Credits(ts[..|ts| - 1]) + ts[|ts| - 1].credit
  }

  /** The balance after the entries: the running sum of debit − credit. */
  function Net(ts: seq<Entry>): real {
    if ts == [] then 0.0 else Net(ts[..|ts| - 1]) + (ts[|ts| - 1].debit - ts[|ts| - 1].credit)
  }

  /** The final balance is what was charged less what was paid. */
  lemma {:induction false} NetTotals(ts: seq<Entry>)
    ensures Net(ts) == Debits(ts) - Credits(ts)
    decreases |ts|
  {
    if ts != [] {
      NetTotals(ts[..|ts| - 1]);
    }
  }

  lemma {:induction false} TotalsAppend(xs: seq<Entry>, ys: seq<Entry>)
    ensures Debits(xs + ys) == Debits(xs) + Debits(ys) && Credits(xs + ys) == Credits(xs) + Credits(ys)
    decreases |ys|
  {
    if ys == [] {
      assert xs + ys == xs;
    } else {
      assert (xs + ys)[..|xs + ys| - 1] == xs + ys[..|ys| - 1];
      TotalsAppend(xs, ys[..|ys| - 1]);
    }
  }

  lemma {:induction false} InsertByDateTotals(e: Entry, ys: seq<Entry>)
    ensures Debits(InsertByDate(e, ys)) == Debits(ys) + e.debit
    ensures Credits(InsertByDate(e, ys)) == Credits(ys) + e.credit
    decreases |ys|
  {
    if ys == [] || ys[|ys| - 1].date <= e.date {
      TotalsAppend(ys, [e]);
      assert Debits([e]) == e.debit && Credits([e]) == e.credit by {
        assert [e][..0] == [];
      }
    } else {
      var init := ys[..|ys| - 1];
      InsertByDateTotals(e, init);
      assert InsertByDate(e, ys)[..|InsertByDate(e, ys)| - 1] == InsertByDate(e, init);
    }
  }

  /** Sorting neither adds nor drops an amount: the totals of the sorted ledger are those of the
      transactions. */
  lemma {:induction false} SortByDateTotals(ts: seq<Entry>)
    ensures Debits(SortByDate(ts)) == Debits(ts) && Credits(SortByDate(ts)) == Credits(ts)
    decreases |ts|
  {
    if ts != [] {
      var init := ts[..|ts| - 1];
      SortByDateTotals(init);
      InsertByDateTotals(ts[|ts| - 1], SortByDate(init));
    }
  }

  /** A ledger line: the entry and the balance after it. */
  datatype Row = Row(entry: Entry, balance: real)

  /** Each entry with the running balance up to and including it. */
  function Balances(ts: seq<Entry>): seq<Row> {
    seq(|ts|, i requires 0 <= i < |ts| => Row(ts[i], Net(ts[..i + 1])))
  }

  /** Thread the balance through the entries (the `map` with a mutable `balance`). */
  method RunningBalance(ts: seq<Entry>) returns (rows: seq<Row>, balance: real)
    ensures rows == Balances(ts) && balance == Net(ts)
  {
    rows, balance := [], 0.0;
    var i := 0;
    while i < |ts|
      invariant 0 <= i <= |ts|
      invariant balance == Net(ts[..i])
      invariant |rows| == i && forall k :: 0 <= k < i ==> rows[k] == Row(ts[k], Net(ts[..k + 1]))
    {
      assert ts[..i + 1][..i] == ts[..i];
      balance := balance + (ts[i].debit - ts[i].credit);
      rows := rows + [Row(ts[i], balance)];
      i := i + 1;
    }
    assert ts[..i] == ts;
  }

  predicate InRange(date: int, startDate: Option<int>, endDate: Option<int>) {
    (startDate.Some? ==> date >= startDate.value) && (endDate.Some? ==> date <= endDate.value)
  }

  /** The rows dated within the optional bounds, in order. */
  function Window(rows: seq<Row>, startDate: Option<int>, endDate: Option<int>): (r: seq<Row>)
    ensures forall i :: 0 <= i < |r| ==> r[i] in rows && InRange(r[i].entry.date, startDate, endDate)
    ensures forall i :: 0 <= i < |rows| && InRange(rows[i].entry.date, startDate, endDate) ==> rows[i] in r
  {
    if rows == [] then []
    else
      var init := Window(rows[..|rows| - 1], startDate, endDate);
      var last := rows[|rows| - 1];
      assert forall x :: x in rows[..|rows| - 1] ==> x in rows;
      assert forall i :: 0 <= i < |rows| - 1 ==> rows[i] == rows[..|rows| - 1][i];
      if InRange(last.entry.date, startDate, endDate) then init + [last] else init
  }

  /** Date filtering drops rows but never changes a balance: each row shown carries the running balance
      of the whole ledger up to that row. */
  lemma WindowKeepsBalances(ts: seq<Entry>, startDate: Option<int>, endDate: Option<int>)
    ensures forall i :: 0 <= i < |Window(Balances(ts), startDate, endDate)| ==>
              exists j :: 0 <= j < |ts| && Window(Balances(ts), startDate, endDate)[i] == Row(ts[j], Net(ts[..j + 1]))
  {
    var b := Balances(ts);
    var w := Window(b, startDate, endDate);
    forall i | 0 <= i < |w| ensures exists j :: 0 <= j < |ts| && w[i] == Row(ts[j], Net(ts[..j + 1])) {
      var j :| 0 <= j < |b| && b[j] == w[i];
      assert b[j] == Row(ts[j], Net(ts[..j + 1]));
    }
  }

  /** The ledger of customer `cid` given the order the repair and sale queries list their rows in: the
      rows within the date bounds with their running balances, the totals over all transactions and the
      final balance. Nothing changes. */
  method GetLedger(db: Db, cid: int, repairOrder: seq<int>, saleOrder: seq<int>, startDate: Option<int>,
                   endDate: Option<int>)
    returns (rows: seq<Row>, totalDebit: real, totalCredit: real, finalBalance: real)
    ensures
      var ts := Transactions(repairOrder, saleOrder, db.repairs, db.repairItems, db.sales, db.payments, cid);
      && rows == Window(Balances(SortByDate(ts)), startDate, endDate)
      && totalDebit == Debits(ts) && totalCredit == Credits(ts)
      && finalBalance == totalDebit - totalCredit
  {
    var ts := Transactions(repairOrder, saleOrder, db.repairs, db.repairItems, db.sales, db.payments, cid);
    var sorted := SortByDate(ts);
    var all;
    all, finalBalance := RunningBalance(sorted);
    rows := Window(all, startDate, endDate);
    totalDebit, totalCredit := Debits(sorted), Credits(sorted);
    SortByDateTotals(ts);
    NetTotals(sorted);
  }
}
