/** The shop database as one mutable store: every table the controllers touch is a field, and each
    handler is a method that updates those fields in place. */
module Store {
  import opened Wrappers
  import opened Entities
  import Fifo

  /** No two serials share an IMEI (the unique index on `Serial.imei`). */
  predicate UniqueImeis(ss: map<int, Serial>) {
    forall a, b :: a in ss && b in ss && ss[a].imei == ss[b].imei ==> a == b
  }

  /** No two customers share a phone number (the unique index on `Customer.phone`). */
  predicate UniquePhones(cs: map<int, Customer>) {
    forall a, b :: a in cs && b in cs && cs[a].phone == cs[b].phone ==> a == b
  }

  /** No two categories share a name (the unique `Category.name` column the import looks names up by). */
  predicate UniqueCategoryNames(cs: map<int, Category>) {
    forall a, b :: a in cs && b in cs && cs[a].name == cs[b].name ==> a == b
  }

  /** No two rows of a name table share a name (the unique `name` columns of conditions and qualities). */
  predicate UniqueNames(ns: map<int, string>) {
    forall a, b :: a in ns && b in ns && ns[a] == ns[b] ==> a == b
  }

  /** Some category other than `id` is called `name`. */
  predicate NamedElsewhere(cs: map<int, Category>, name: string, id: int) {
    exists k :: k in cs && k != id && cs[k].name == name
  }

  predicate CategoryNamed(cs: map<int, Category>, name: string) {
    exists k :: k in cs && cs[k].name == name
  }

  predicate ConditionNamed(ns: map<int, string>, name: string) {
    exists k :: k in ns && ns[k] == name
  }

  /** The batches with their link to item `id` cleared: deleting an item sets the optional `Batch.itemId`
      of its batches to null. */
  function ItemUnlinked(bs: map<int, Batch>, id: int): (r: map<int, Batch>)
    ensures r.Keys == bs.Keys
    ensures forall b :: b in bs ==> r[b].itemId != Some(id) && r[b] == bs[b].(itemId := r[b].itemId)
    ensures forall b :: b in bs && bs[b].itemId != Some(id) ==> r[b] == bs[b]
  {
    map b | b in bs :: if bs[b].itemId == Some(id) then bs[b].(itemId := None) else bs[b]
  }

  /** The payments with their link to customer `id` cleared: deleting a customer sets the optional
      `Payment.customerId` of its payments to null. */
  function CustomerUnlinked(ps: seq<Payment>, id: int): (r: seq<Payment>)
    ensures |r| == |ps|
    ensures forall i :: 0 <= i < |ps| ==> r[i].customerId != Some(id) && r[i] == ps[i].(customerId := r[i].customerId)
    ensures forall i :: 0 <= i < |ps| && ps[i].customerId != Some(id) ==> r[i] == ps[i]
  {
    seq(|ps|, i requires 0 <= i < |ps| => if ps[i].customerId == Some(id) then ps[i].(customerId := None) else ps[i])
  }

  function OwnerId(o: Owner): int {
    match o
    case ForSaleItem(i) => i
    case ForRepairItem(i) => i
  }

  predicate Below(ids: set<int>, n: int) {
    forall k :: k in ids ==> k < n
  }

  /** Every id a consumption record or a serial refers to was handed out before `n`. */
  predicate RefsBelow(rs: seq<BatchRecord>, ss: map<int, Serial>, n: int) {
    && (forall i :: 0 <= i < |rs| ==> OwnerId(rs[i].owner) < n)
    && (forall s :: s in ss && ss[s].saleItemId.Some? ==> ss[s].saleItemId.value < n)
    && (forall s :: s in ss && ss[s].repairItemId.Some? ==> ss[s].repairItemId.value < n)
  }

  predicate SaleLinesBelow(sales: map<int, Sale>, n: int) {
    forall s, i :: s in sales && 0 <= i < |sales[s].items| ==> sales[s].items[i].id < n
  }

  /** Repair lines carry distinct ids below `n`. */
  predicate PartIdsBelow(ps: seq<RepairItem>, n: int) {
    && (forall i :: 0 <= i < |ps| ==> ps[i].id < n)
    && (forall i, j :: 0 <= i < j < |ps| ==> ps[i].id != ps[j].id)
  }

  /** The consumption tables are sound (see `Fifo.Sound`), IMEIs are unique, and every batch, serial,
      record owner and serial link is below `n`. */
  predicate LedgerValid(l: Fifo.Ledger, n: int) {
    && Fifo.Sound(l) && UniqueImeis(l.serials)
    && Below(l.batches.Keys, n) && Below(l.serials.Keys, n)
    && RefsBelow(l.records, l.serials, n)
  }

  /** Every sale line refers to an existing item: sale creation checks it and item deletion refuses an item
      that has sale lines. */
  predicate SaleLinesGrounded(sales: map<int, Sale>, items: map<int, Item>) {
    forall s, i :: s in sales && 0 <= i < |sales[s].items| ==> sales[s].items[i].itemId in items
  }

  /** Handing out more ids keeps the consumption tables valid. */
  lemma LedgerValidGrows(l: Fifo.Ledger, n: int, m: int)
    requires LedgerValid(l, n) && n <= m
    ensures LedgerValid(l, m)
  {
  }

  /** The lines of repair `repairId`, in table order. */
  function PartsOf(ps: seq<RepairItem>, repairId: int): (r: seq<RepairItem>)
    ensures |r| <= |ps|
    ensures forall i :: 0 <= i < |r| ==> r[i].repairId == repairId && r[i] in ps
    ensures forall p :: p in ps && p.repairId == repairId ==> p in r
  {
    if ps == [] then []
    else
      var init := PartsOf(ps[..|ps| - 1], repairId);
      assert forall x :: x in ps[..|ps| - 1] ==> x in ps;
      assert forall x :: x in ps ==> x in ps[..|ps| - 1] || x == ps[|ps| - 1];
      if ps[|ps| - 1].repairId == repairId then init + [ps[|ps| - 1]] else init
  }

  /** Filtering keeps table order: the lines of a table built from two parts are the first part's lines
      followed by the second's. */
  lemma {:induction false} PartsOfAppend(xs: seq<RepairItem>, ys: seq<RepairItem>, repairId: int)
    ensures PartsOf(xs + ys, repairId) == PartsOf(xs, repairId) + PartsOf(ys, repairId)
    decreases |ys|
  {
    if ys != [] {
      var init := ys[..|ys| - 1];
      assert (xs + ys)[..|xs + ys| - 1] == xs + init;
      assert (xs + ys)[|xs + ys| - 1] == ys[|ys| - 1];
      PartsOfAppend(xs, init, repairId);
    } else {
      assert xs + ys == xs;
    }
  }

  /** Where the line with id `id` sits in the table, if anywhere (the `findUnique` by id). */
  function PartIndex(ps: seq<RepairItem>, id: int): (r: Option<nat>)
    ensures r.Some? ==> r.value < |ps| && ps[r.value].id == id
    ensures r.None? ==> forall i :: 0 <= i < |ps| ==> ps[i].id != id
  {
    if ps == [] then None
    else if ps[|ps| - 1].id == id then Some(|ps| - 1)
    else PartIndex(ps[..|ps| - 1], id)
  }

  class Db {
    var items: map<int, Item>
    /** The consumption tables: batches, serials and the batch records of sale lines and repair parts. */
    var ledger: Fifo.Ledger
    var usages: seq<StockUsage>
    var sales: map<int, Sale>
    var repairs: map<int, Repair>
    /** Repair lines in table (id) order. */
    var repairItems: seq<RepairItem>
    var repairStates: map<int, string>
    var customers: map<int, Customer>
    var categories: map<int, Category>
    var conditions: map<int, string>
    var qualities: map<int, string>
    var payments: seq<Payment>
    var paymentMethods: map<int, string>
    var allocations: seq<Allocation>
    /** Barcode text to item id (the unique `Barcode.barcode` column). */
    var barcodes: map<string, int>
    /** The next id the database hands out; ids of all tables come from this one sequence. */
    var nextId: int

    /** An empty shop whose only rows are the seeded repair states and payment methods. */
    constructor (states: map<int, string>, methods: map<int, string>)
      ensures Valid()
      ensures items == map[] && ledger == Fifo.Ledger(map[], map[], []) && usages == []
      ensures sales == map[] && repairs == map[] && repairItems == [] && repairStates == states
      ensures customers == map[] && categories == map[] && conditions == map[] && qualities == map[]
      ensures payments == [] && paymentMethods == methods && allocations == [] && barcodes == map[]
    {
      items, ledger, usages := map[], Fifo.Ledger(map[], map[], []), [];
      sales, repairs, repairItems, repairStates := map[], map[], [], states;
      customers, categories, conditions, qualities := map[], map[], map[], map[];
      payments, paymentMethods, allocations, barcodes := [], methods, [], map[];
      nextId := 1;
    }

    /** The tables other than the consumption tables: phones and category, condition and quality names
        are unique, every key and line id is below
        `nextId`, repair line ids are distinct and every sale line names an existing item. */
    predicate TablesValid()
      reads this`items, this`sales, this`repairs, this`repairItems, this`customers, this`categories
      reads this`conditions, this`qualities, this`nextId
    {
      && 0 < nextId
      && UniquePhones(customers)
      && UniqueCategoryNames(categories) && UniqueNames(conditions) && UniqueNames(qualities)
      && Below(items.Keys, nextId)
      && Below(sales.Keys, nextId) && Below(repairs.Keys, nextId) && PartIdsBelow(repairItems, nextId)
      && Below(customers.Keys, nextId) && Below(categories.Keys, nextId)
      && Below(conditions.Keys, nextId) && Below(qualities.Keys, nextId)
      && SaleLinesBelow(sales, nextId) && SaleLinesGrounded(sales, items)
    }

    /** The store invariant. */
    predicate Valid()
      reads this
    {
      LedgerValid(ledger, nextId) && TablesValid()
    }

    /** Hand out a fresh id. */
    method NewId() returns (id: int)
      requires Valid()
      modifies this`nextId
      ensures id == old(nextId) && nextId == id + 1
      ensures Valid()
    {
      id := nextId;
      nextId := nextId + 1;
    }

    /** Overwrite an item's cached stock count and log the movement. */
    method Restock(itemId: int, stock: int, u: StockUsage)
      requires Valid() && itemId in items
      modifies this`items, this`usages
      ensures Valid()
      ensures items == old(items)[itemId := old(items)[itemId].(stockQuantity := stock)]
      ensures usages == old(usages) + [u]
    {
      items := items[itemId := items[itemId].(stockQuantity := stock)];
      assert items.Keys == old(items).Keys;
      usages := usages + [u];
    }

    /** Write new consumption tables, item stock counts and usage log at once; every item stays. */
    method WriteStock(l: Fifo.Ledger, items': map<int, Item>, usages': seq<StockUsage>)
      requires Valid() && LedgerValid(l, nextId) && items'.Keys == items.Keys
      modifies this`ledger, this`items, this`usages
      ensures Valid() && ledger == l && items == items' && usages == usages'
    {
      ledger, items, usages := l, items', usages';
    }

    /** Write new consumption tables and item stock counts at once; every item stays. */
    method WriteLedger(l: Fifo.Ledger, items': map<int, Item>)
      requires Valid() && LedgerValid(l, nextId) && items'.Keys == items.Keys
      modifies this`ledger, this`items
      ensures Valid() && ledger == l && items == items'
    {
      ledger, items := l, items';
    }

    /** Overwrite an item's cached stock count. */
    method SetStock(itemId: int, stock: int)
      requires Valid() && itemId in items
      modifies this`items
      ensures Valid()
      ensures items == old(items)[itemId := old(items)[itemId].(stockQuantity := stock)]
    {
      items := items[itemId := items[itemId].(stockQuantity := stock)];
      assert items.Keys == old(items).Keys;
    }

    /** Append a row to the stock-usage log. */
    method LogUsage(u: StockUsage)
      requires Valid()
      modifies this`usages
      ensures Valid() && usages == old(usages) + [u]
    {
      usages := usages + [u];
    }

    /** Delete sale `id`, leaving the payments and allocations its deletion leaves. */
    method RemoveSale(id: int, payments': seq<Payment>, allocations': seq<Allocation>)
      requires Valid()
      modifies this`sales, this`payments, this`allocations
      ensures Valid() && sales == old(sales) - {id}
      ensures payments == payments' && allocations == allocations'
    {
      sales := sales - {id};
      assert forall k :: k in sales ==> k in old(sales) && sales[k] == old(sales)[k];
      payments, allocations := payments', allocations';
    }

    /** Insert a payment under the next id. */
    method AddPayment(customerId: Option<int>, saleId: Option<int>, repairId: Option<int>, methodId: int,
                      amount: real, date: int, status: Option<string>)
      returns (id: int)
      requires Valid()
      modifies this`payments, this`nextId
      ensures Valid() && id == old(nextId) && nextId == id + 1
      ensures payments == old(payments) + [Payment(id, customerId, saleId, repairId, methodId, amount, date, status)]
    {
      id := nextId;
      LedgerValidGrows(ledger, nextId, nextId + 1);
      payments := payments + [Payment(id, customerId, saleId, repairId, methodId, amount, date, status)];
      nextId := nextId + 1;
    }

    /** Replace a sale's header fields, keeping its lines. */
    method SetSale(id: int, s: Sale)
      requires Valid() && id in sales && s.items == sales[id].items
      modifies this`sales
      ensures Valid() && sales == old(sales)[id := s]
    {
      sales := sales[id := s];
      assert sales.Keys == old(sales).Keys;
    }

    /** Insert a repair under the next id; its lines, which must carry the `|parts|` ids after it and name
        it, are appended to the line table. */
    method AddRepair(r: Repair, parts: seq<RepairItem>) returns (id: int)
      requires Valid()
      requires forall i :: 0 <= i < |parts| ==> parts[i].id == nextId + 1 + i && parts[i].repairId == nextId
      modifies this`repairs, this`repairItems, this`nextId
      ensures Valid()
      ensures id == old(nextId) && id !in old(repairs) && nextId == id + 1 + |parts|
      ensures repairs == old(repairs)[id := r] && repairItems == old(repairItems) + parts
    {
      id := nextId;
      LedgerValidGrows(ledger, nextId, nextId + 1 + |parts|);
      repairs := repairs[id := r];
      repairItems := repairItems + parts;
      nextId := nextId + 1 + |parts|;
    }

    /** Replace a repair's row. */
    method SetRepair(id: int, r: Repair)
      requires Valid() && id in repairs
      modifies this`repairs
      ensures Valid() && repairs == old(repairs)[id := r]
    {
      repairs := repairs[id := r];
      assert repairs.Keys == old(repairs).Keys;
    }

    /** Append a repair line under the next id. */
    method AddPart(p: RepairItem) returns (id: int)
      requires Valid()
      modifies this`repairItems, this`nextId
      ensures Valid() && id == old(nextId) && nextId == id + 1
      ensures repairItems == old(repairItems) + [p.(id := id)]
    {
      id := nextId;
      LedgerValidGrows(ledger, nextId, nextId + 1);
      repairItems := repairItems + [p.(id := id)];
      nextId := nextId + 1;
    }

    /** Delete the repair line at position `k`. */
    method RemovePartAt(k: nat)
      requires Valid() && k < |repairItems|
      modifies this`repairItems
      ensures Valid() && repairItems == old(repairItems)[..k] + old(repairItems)[k + 1..]
    {
      ghost var ps := repairItems;
      repairItems := repairItems[..k] + repairItems[k + 1..];
      forall i, j | 0 <= i < j < |repairItems| ensures repairItems[i].id != repairItems[j].id {
        var i' := if i < k then i else i + 1;
        var j' := if j < k then j else j + 1;
        assert repairItems[i] == ps[i'] && repairItems[j] == ps[j'];
      }
      forall i | 0 <= i < |repairItems| ensures repairItems[i].id < nextId {
        assert repairItems[i] == ps[if i < k then i else i + 1];
      }
    }

    /** Insert a batch under the next id; no record or serial names it yet. */
    method AddBatch(b: Batch) returns (id: int)
      requires Valid() && b.soldQuantity >= 0
      modifies this`ledger, this`nextId
      ensures Valid() && id == old(nextId) && id !in old(ledger.batches) && nextId == id + 1
      ensures ledger == old(ledger).(batches := old(ledger.batches)[id := b])
    {
      id := nextId;
      Fifo.RecordedOnNone(ledger.records, id);
      ledger := ledger.(batches := ledger.batches[id := b]);
      nextId := nextId + 1;
    }

    /** Replace a batch's row, keeping its sold count. */
    method SetBatch(id: int, b: Batch)
      requires Valid() && id in ledger.batches && b.soldQuantity == ledger.batches[id].soldQuantity
      modifies this`ledger
      ensures Valid() && ledger == old(ledger).(batches := old(ledger.batches)[id := b])
    {
      ledger := ledger.(batches := ledger.batches[id := b]);
    }

    /** Delete a batch that has sold nothing and that no serial belongs to. */
    method RemoveBatch(id: int)
      requires Valid() && id in ledger.batches && ledger.batches[id].soldQuantity <= 0
      requires forall s :: s in ledger.serials ==> ledger.serials[s].batchId != id
      modifies this`ledger
      ensures Valid() && ledger == old(ledger).(batches := old(ledger.batches) - {id})
    {
      Fifo.RecordedOnZero(ledger.records, id);
      ledger := ledger.(batches := ledger.batches - {id});
    }

    /** Insert an item under the next id. */
    method AddItem(it: Item) returns (id: int)
      requires Valid()
      modifies this`items, this`nextId
      ensures Valid() && id == old(nextId) && id !in old(items) && nextId == id + 1
      ensures items == old(items)[id := it]
    {
      id := nextId;
      LedgerValidGrows(ledger, nextId, nextId + 1);
      items := items[id := it];
      nextId := nextId + 1;
    }

    /** Replace an item's row. */
    method SetItem(id: int, it: Item)
      requires Valid() && id in items
      modifies this`items
      ensures Valid() && items == old(items)[id := it]
    {
      items := items[id := it];
      assert items.Keys == old(items).Keys;
    }

    /** Replace the rows of the item table, keeping its ids. */
    method ReplaceItems(items': map<int, Item>)
      requires Valid() && items'.Keys == items.Keys
      modifies this`items
      ensures Valid() && items == items'
    {
      items := items';
    }

    /** Insert a condition under the next id. */
    method AddCondition(name: string) returns (id: int)
      requires Valid() && !ConditionNamed(conditions, name)
      modifies this`conditions, this`nextId
      ensures Valid() && id == old(nextId) && id !in old(conditions) && nextId == id + 1
      ensures conditions == old(conditions)[id := name]
    {
      id := nextId;
      LedgerValidGrows(ledger, nextId, nextId + 1);
      conditions := conditions[id := name];
      nextId := nextId + 1;
    }

    /** Insert a quality grade under the next id. */
    method AddQuality(name: string) returns (id: int)
      requires Valid() && !ConditionNamed(qualities, name)
      modifies this`qualities, this`nextId
      ensures Valid() && id == old(nextId) && id !in old(qualities) && nextId == id + 1
      ensures qualities == old(qualities)[id := name]
    {
      id := nextId;
      LedgerValidGrows(ledger, nextId, nextId + 1);
      qualities := qualities[id := name];
      nextId := nextId + 1;
    }

    /** Register an alternate barcode for an item. */
    method AddBarcode(code: string, itemId: int)
      requires Valid()
      modifies this`barcodes
      ensures Valid() && barcodes == old(barcodes)[code := itemId]
    {
      barcodes := barcodes[code := itemId];
    }

    /** Delete an item that no sale line names; its batches lose the link to it. */
    method RemoveItem(id: int)
      requires Valid() && id in items
      requires forall s, i :: s in sales && 0 <= i < |sales[s].items| ==> sales[s].items[i].itemId != id
      modifies this`items, this`ledger
      ensures Valid() && items == old(items) - {id}
      ensures ledger == old(ledger).(batches := ItemUnlinked(old(ledger).batches, id))
    {
      items := items - {id};
      ledger := ledger.(batches := ItemUnlinked(ledger.batches, id));
    }

    /** Replace the sale and repair rows and the allocation table; every sale keeps its lines and no sale
        or repair is added or removed. */
    method Settle(sales': map<int, Sale>, repairs': map<int, Repair>, allocations': seq<Allocation>)
      requires Valid() && sales'.Keys == sales.Keys && repairs'.Keys == repairs.Keys
      requires forall s :: s in sales ==> sales'[s].items == sales[s].items
      modifies this`sales, this`repairs, this`allocations
      ensures Valid() && sales == sales' && repairs == repairs' && allocations == allocations'
    {
      sales, repairs, allocations := sales', repairs', allocations';
    }

    /** Insert a customer under the next id; no other customer has its phone. */
    method AddCustomer(c: Customer) returns (id: int)
      requires Valid() && forall k :: k in customers ==> customers[k].phone != c.phone
      modifies this`customers, this`nextId
      ensures Valid() && id == old(nextId) && id !in old(customers) && nextId == id + 1
      ensures customers == old(customers)[id := c]
    {
      id := nextId;
      LedgerValidGrows(ledger, nextId, nextId + 1);
      customers := customers[id := c];
      nextId := nextId + 1;
    }

    /** Replace a customer's row; no other customer has its phone. */
    method SetCustomer(id: int, c: Customer)
      requires Valid() && id in customers
      requires forall k :: k in customers && k != id ==> customers[k].phone != c.phone
      modifies this`customers
      ensures Valid() && customers == old(customers)[id := c]
    {
      customers := customers[id := c];
      assert customers.Keys == old(customers).Keys;
    }

    /** Delete a customer; its payments lose the link to it. */
    method RemoveCustomer(id: int)
      requires Valid()
      modifies this`customers, this`payments
      ensures Valid() && customers == old(customers) - {id}
      ensures payments == CustomerUnlinked(old(payments), id)
    {
      customers := customers - {id};
      payments := CustomerUnlinked(payments, id);
    }

    /** Insert an available, unlinked serial of an existing batch under the next id; no other serial has
        its IMEI. */
    method AddSerial(s: Serial) returns (id: int)
      requires Valid() && s.batchId in ledger.batches && s.status == Available && Fifo.NoLinks(s)
      requires forall k :: k in ledger.serials ==> ledger.serials[k].imei != s.imei
      modifies this`ledger, this`nextId
      ensures Valid() && id == old(nextId) && id !in old(ledger.serials) && nextId == id + 1
      ensures ledger == old(ledger).(serials := old(ledger.serials)[id := s])
    {
      id := nextId;
      ledger := ledger.(serials := ledger.serials[id := s]);
      nextId := nextId + 1;
    }

    /** Replace a serial's row, keeping its status and links; its batch exists and no other serial has its
        IMEI. */
    method SetSerial(id: int, s: Serial)
      requires Valid() && id in ledger.serials && s.batchId in ledger.batches
      requires s.status == ledger.serials[id].status && s.saleItemId == ledger.serials[id].saleItemId
      requires s.repairItemId == ledger.serials[id].repairItemId
      requires forall k :: k in ledger.serials && k != id ==> ledger.serials[k].imei != s.imei
      modifies this`ledger
      ensures Valid() && ledger == old(ledger).(serials := old(ledger.serials)[id := s])
    {
      ledger := ledger.(serials := ledger.serials[id := s]);
    }

    method RemoveSerial(id: int)
      requires Valid()
      modifies this`ledger
      ensures Valid() && ledger == old(ledger).(serials := old(ledger.serials) - {id})
    {
      ledger := ledger.(serials := ledger.serials - {id});
    }

    /** Insert a category under the next id. */
    method AddCategory(c: Category) returns (id: int)
      requires Valid() && !CategoryNamed(categories, c.name)
      modifies this`categories, this`nextId
      ensures Valid() && id == old(nextId) && id !in old(categories) && nextId == id + 1
      ensures categories == old(categories)[id := c]
    {
      id := nextId;
      LedgerValidGrows(ledger, nextId, nextId + 1);
      categories := categories[id := c];
      nextId := nextId + 1;
    }

    method SetCategory(id: int, c: Category)
      requires Valid() && id in categories && !NamedElsewhere(categories, c.name, id)
      modifies this`categories
      ensures Valid() && categories == old(categories)[id := c]
    {
      categories := categories[id := c];
      assert categories.Keys == old(categories).Keys;
    }

    method RemoveCategory(id: int)
      requires Valid()
      modifies this`categories
      ensures Valid() && categories == old(categories) - {id}
    {
      categories := categories - {id};
    }

    /** Insert a sale under the next id; its lines take the `|s.items|` ids after it. */
    method AddSale(s: Sale) returns (id: int)
      requires Valid()
      requires forall i :: 0 <= i < |s.items| ==> s.items[i].id == nextId + 1 + i && s.items[i].itemId in items
      modifies this`sales, this`nextId
      ensures Valid()
      ensures id == old(nextId) && id !in old(sales) && nextId == id + 1 + |s.items|
      ensures sales == old(sales)[id := s]
    {
      id := nextId;
      LedgerValidGrows(ledger, nextId, nextId + 1 + |s.items|);
      sales := sales[id := s];
      nextId := nextId + 1 + |s.items|;
    }
  }
}
