/** The inventory import script: a list of records (one per purchased lot, produced by the cleaning
    script) becomes items, batches, serials and barcodes, with categories, conditions, quality grades and
    suppliers resolved through get-or-create caches. The clock and the random numbers it uses are
    parameters; reading the JSON file is left out. */
module InventoryImport {
  import opened Wrappers
  import opened Entities
  import opened Ordering
  import opened Text
  import opened Store
  import Fifo

  datatype SupplierInfo = SupplierInfo(name: string, phone: string)

  /** One record of the import file. `supplier` is absent when the record has no supplier object. */
  datatype ImportRecord = ImportRecord(
    name: string,
    brand: string,
    model: string,
    category: string,
    description: string,
    condition: string,
    quality: string,
    itemType: string,
    sellingPrice: real,
    stockQuantity: int,
    barcode: string,
    supplier: Option<SupplierInfo>,
    quantity: int,
    unitCost: real,
    serials: seq<string>)

  /** What the environment supplies to one record: the clock (`new Date()`), the batch number built from
      `Date.now()` and a random number, and the random number a made-up supplier phone ends in. */
  datatype Stamp = Stamp(now: int, batchNumber: string, phoneNoise: nat)

  /** The name-to-id caches the script keeps while it runs. */
  class Caches {
    var categories: map<string, int>
    var conditions: map<string, int>
    var qualities: map<string, int>
    var suppliers: map<string, int>

    constructor ()
      ensures categories == map[] && conditions == map[] && qualities == map[] && suppliers == map[]
    {
      categories, conditions, qualities, suppliers := map[], map[], map[], map[];
    }

    /** Every cached id names a row of the right table, and a cached category, condition or grade has
        the name it is cached under. */
    predicate Agrees(db: Db)
      reads this, db`categories, db`conditions, db`qualities, db`customers
    {
      && (forall n :: n in categories ==> categories[n] in db.categories && db.categories[categories[n]].name == n)
      && (forall n :: n in conditions ==> conditions[n] in db.conditions && db.conditions[conditions[n]] == n)
      && (forall n :: n in qualities ==> qualities[n] in db.qualities && db.qualities[qualities[n]] == n)
      && (forall n :: n in suppliers ==> suppliers[n] in db.customers)
    }
  }

  /** The category id for `name`: from the cache, else the category of that name, else a new one. */
  method CategoryId(db: Db, c: Caches, name: string) returns (id: int)
    requires db.Valid() && c.Agrees(db)
    modifies db`categories, db`nextId, c`categories
    ensures db.Valid() && c.Agrees(db)
    ensures id in db.categories && db.categories[id].name == name
    ensures c.categories == old(c.categories)[name := id]
    ensures name in old(c.categories) ==> id == old(c.categories)[name]
    ensures (db.categories == old(db.categories) && db.nextId == old(db.nextId))
            || (&& name !in old(c.categories) && !CategoryNamed(old(db.categories), name)
                && id == old(db.nextId) && db.nextId == id + 1
                && db.categories == old(db.categories)[id := Category(name, None, None)])
  {
    if name in c.categories {
      return c.categories[name];
    }
    if CategoryNamed(db.categories, name) {
      id :| id in db.categories && db.categories[id].name == name;
    } else {
      id := db.AddCategory(Category(name, None, None));
    }
    c.categories := c.categories[name := id];
  }

  /** The condition id for `name`, resolved like a category. */
  method ConditionId(db: Db, c: Caches, name: string) returns (id: int)
    requires db.Valid() && c.Agrees(db)
    modifies db`conditions, db`nextId, c`conditions
    ensures db.Valid() && c.Agrees(db)
    ensures id in db.conditions && db.conditions[id] == name
    ensures c.conditions == old(c.conditions)[name := id]
    ensures name in old(c.conditions) ==> id == old(c.conditions)[name]
    ensures (db.conditions == old(db.conditions) && db.nextId == old(db.nextId))
            || (&& name !in old(c.conditions) && !ConditionNamed(old(db.conditions), name)
                && id == old(db.nextId) && db.nextId == id + 1
                && db.conditions == old(db.conditions)[id := name])
  {
    if name in c.conditions {
      return c.conditions[name];
    }
    if ConditionNamed(db.conditions, name) {
      id :| id in db.conditions && db.conditions[id] == name;
    } else {
      id := db.AddCondition(name);
    }
    c.conditions := c.conditions[name := id];
  }

  /** The quality id for `name`, resolved like a category. */
  method QualityId(db: Db, c: Caches, name: string) returns (id: int)
    requires db.Valid() && c.Agrees(db)
    modifies db`qualities, db`nextId, c`qualities
    ensures db.Valid() && c.Agrees(db)
    ensures id in db.qualities && db.qualities[id] == name
    ensures c.qualities == old(c.qualities)[name := id]
    ensures name in old(c.qualities) ==> id == old(c.qualities)[name]
    ensures (db.qualities == old(db.qualities) && db.nextId == old(db.nextId))
            || (&& name !in old(c.qualities) && !ConditionNamed(old(db.qualities), name)
                && id == old(db.nextId) && db.nextId == id + 1
                && db.qualities == old(db.qualities)[id := name])
  {
    if name in c.qualities {
      return c.qualities[name];
    }
    if ConditionNamed(db.qualities, name) {
      id :| id in db.qualities && db.qualities[id] == name;
    } else {
      id := db.AddQuality(name);
    }
    c.qualities := c.qualities[name := id];
  }

  /** The cache key of a supplier: its name, or "Unknown" when it has none. */
  function SupplierKey(name: string): string {
    if name == "" then "Unknown" else name
  }

  /** The phone is used for the lookup only when it is longer than five characters. */
  predicate UsablePhone(phone: string) {
    |phone| > 5
  }

  predicate PhoneHeld(cs: map<int, Customer>, phone: string) {
    exists k :: k in cs && cs[k].phone == phone
  }

  function SuppliersNamed(cs: map<int, Customer>, name: string): set<int> {
    set k | k in cs && cs[k].name == name && cs[k].kind == "supplier"
  }

  function HoldersOf(cs: map<int, Customer>, phone: string): set<int> {
    set k | k in cs && cs[k].phone == phone
  }

  lemma NobodyHolds(cs: map<int, Customer>, phone: string)
    requires HoldersOf(cs, phone) == {}
    ensures forall k :: k in cs ==> cs[k].phone != phone
  {
    forall k | k in cs ensures cs[k].phone != phone {
      assert k !in HoldersOf(cs, phone);
    }
  }

  /** The phone a supplier is created with: its own when usable, else `000000` and a random number. */
  function SafePhone(phone: string, noise: nat): string {
    if UsablePhone(phone) then phone else "000000" + Decimal(noise)
  }

  /** The row a made-up supplier gets. */
  function NewSupplier(name: string, phone: string, noise: nat): Customer {
    Customer(if name == "" then "Unknown Supplier" else name, SafePhone(phone, noise), None, None, None,
             "supplier", None, None)
  }

  /** The supplier id for a record: from the cache under its key; else the customer with a usable phone;
      else the first supplier of that name; else a new supplier. When the made-up phone is already taken
      the creation fails and the first customer with that phone is used instead. */
  method SupplierId(db: Db, c: Caches, name: string, phone: string, noise: nat) returns (id: int)
    requires db.Valid() && c.Agrees(db)
    modifies db`customers, db`nextId, c`suppliers
    ensures db.Valid() && c.Agrees(db)
    ensures id in db.customers
    ensures c.suppliers == old(c.suppliers)[SupplierKey(name) := id]
    ensures SupplierKey(name) in old(c.suppliers) ==>
              id == old(c.suppliers)[SupplierKey(name)] && db.customers == old(db.customers)
    ensures SupplierKey(name) !in old(c.suppliers) && UsablePhone(phone) && PhoneHeld(old(db.customers), phone) ==>
              db.customers == old(db.customers) && db.customers[id].phone == phone
    ensures && SupplierKey(name) !in old(c.suppliers) && !(UsablePhone(phone) && PhoneHeld(old(db.customers), phone))
            && name != "" && SuppliersNamed(old(db.customers), name) != {} ==>
              db.customers == old(db.customers) && id in SuppliersNamed(db.customers, name)
              && forall k :: k in SuppliersNamed(db.customers, name) ==> id <= k
    ensures (db.customers == old(db.customers) && db.nextId == old(db.nextId))
            || (&& SupplierKey(name) !in old(c.suppliers)
                && !(UsablePhone(phone) && PhoneHeld(old(db.customers), phone))
                && (name == "" || SuppliersNamed(old(db.customers), name) == {})
                && id == old(db.nextId) && db.nextId == id + 1
                && db.customers == old(db.customers)[id := NewSupplier(name, phone, noise)])
  {
    var key := SupplierKey(name);
    if key in c.suppliers {
      return c.suppliers[key];
    }
    var found: Option<int> := None;
    if UsablePhone(phone) && PhoneHeld(db.customers, phone) {
      var k :| k in db.customers && db.customers[k].phone == phone;
      found := Some(k);
    }
    if found.None? && name != "" {
      found := LeastOf(SuppliersNamed(db.customers, name));
    }
    if found.Some? {
      id := found.value;
    } else {
      var safePhone := SafePhone(phone, noise);
      var holder := LeastOf(HoldersOf(db.customers, safePhone));
      if holder.Some? {
        // The unique phone index refuses the new row; the first customer with that phone is taken.
        id := holder.value;
      } else {
        NobodyHolds(db.customers, safePhone);
        id := db.AddCustomer(NewSupplier(name, phone, noise));
      }
    }
    c.suppliers := c.suppliers[key := id];
  }

  /** The row of an item the import creates: no stock yet, a minimum stock level of 1. */
  function NewItem(rec: ImportRecord, categoryId: int, conditionId: int, qualityId: int): Item {
    Item(rec.name, categoryId, conditionId, qualityId, Some(rec.brand), Some(rec.model), Some(rec.description),
         rec.itemType, 0, 1, rec.sellingPrice)
  }

  /** An existing item after the import: only brand, model, selling price and description are rewritten. */
  function Refreshed(it: Item, rec: ImportRecord): Item {
    it.(brand := Some(rec.brand), model := Some(rec.model), sellingPrice := rec.sellingPrice,
        description := Some(rec.description))
  }

  /** The items the import treats as the record's item: same name, same category. */
  function ItemsMatching(items: map<int, Item>, name: string, categoryId: int): set<int> {
    set k | k in items && items[k].name == name && items[k].categoryId == categoryId
  }

  /** The record's item once its stock has grown by `quantity`. */
  function Received(it: Item, quantity: int): Item {
    it.(stockQuantity := it.stockQuantity + quantity)
  }

  /** Find the record's item by name and category (the first match) and refresh it, or create it; then
      add the record's quantity to its stock. */
  method ReceiveItem(db: Db, rec: ImportRecord, categoryId: int, conditionId: int, qualityId: int)
    returns (id: int)
    requires db.Valid()
    modifies db`items, db`nextId
    ensures db.Valid()
    ensures ItemsMatching(old(db.items), rec.name, categoryId) != {} ==>
              && id in ItemsMatching(old(db.items), rec.name, categoryId)
              && (forall k :: k in ItemsMatching(old(db.items), rec.name, categoryId) ==> id <= k)
              && db.items == old(db.items)[id := Received(Refreshed(old(db.items)[id], rec), rec.quantity)]
              && db.nextId == old(db.nextId)
    ensures ItemsMatching(old(db.items), rec.name, categoryId) == {} ==>
              && id == old(db.nextId) && id !in old(db.items) && db.nextId == id + 1
              && db.items == old(db.items)[id := Received(NewItem(rec, categoryId, conditionId, qualityId), rec.quantity)]
  {
    var matching := ItemsMatching(db.items, rec.name, categoryId);
    var first := LeastOf(matching);
    var it: Item;
    if first.Some? {
      id := first.value;
      it := Refreshed(db.items[id], rec);
      db.SetItem(id, it);
    } else {
      it := NewItem(rec, categoryId, conditionId, qualityId);
      id := db.AddItem(it);
    }
    AddToStock(db, id, rec.quantity);
  }

  /** `UPDATE items SET stock_quantity = stock_quantity + ?`: the item's stock grows by `quantity`. */
  method AddToStock(db: Db, id: int, quantity: int)
    requires db.Valid() && id in db.items
    modifies db`items
    ensures db.Valid() && db.items == old(db.items)[id := Received(old(db.items)[id], quantity)]
  {
    db.SetStock(id, db.items[id].stockQuantity + quantity);
  }

  /** The batch a record creates: nothing sold yet, bought now, total cost unit cost times quantity. */
  function ImportBatch(rec: ImportRecord, supplierId: int, itemId: int, st: Stamp): Batch {
    Batch(st.batchNumber, supplierId, Some(itemId), st.now, rec.quantity, 0, rec.unitCost * rec.quantity as real,
          rec.unitCost, Some("Initial Import"))
  }

  predicate ImeiTaken(ss: map<int, Serial>, imei: string) {
    exists k :: k in ss && ss[k].imei == imei
  }

  /** Every serial of `s0` is still in `s1`, unchanged. */
  predicate SerialsKept(s0: map<int, Serial>, s1: map<int, Serial>) {
    forall k :: k in s0 ==> k in s1 && s1[k] == s0[k]
  }

  /** Every serial of `s1` that `s0` lacks is an available unit of `itemId` from `batchId` whose IMEI is
      one of `imeis` and was unknown in `s0`. */
  predicate SerialsAdded(s0: map<int, Serial>, s1: map<int, Serial>, itemId: int, batchId: int, imeis: seq<string>) {
    forall k :: k in s1 && k !in s0 ==>
      && s1[k] == Serial(s1[k].imei, itemId, batchId, Available, None, None)
      && s1[k].imei in imeis && !ImeiTaken(s0, s1[k].imei)
  }

  lemma TakenKept(s0: map<int, Serial>, s1: map<int, Serial>, imei: string)
    requires SerialsKept(s0, s1)
    ensures ImeiTaken(s0, imei) ==> ImeiTaken(s1, imei)
  {
    if ImeiTaken(s0, imei) {
      var k :| k in s0 && s0[k].imei == imei;
      assert s1[k] == s0[k];
    }
  }

  /** Register each IMEI of the record as an available serial of the new batch, skipping any IMEI that is
      already registered (an earlier record's, or a repeat within this record). */
  method AddSerials(db: Db, itemId: int, batchId: int, imeis: seq<string>)
    requires db.Valid() && batchId in db.ledger.batches
    modifies db`ledger, db`nextId
    ensures db.Valid()
    ensures db.ledger.batches == old(db.ledger.batches) && db.ledger.records == old(db.ledger.records)
    ensures SerialsKept(old(db.ledger.serials), db.ledger.serials)
    ensures SerialsAdded(old(db.ledger.serials), db.ledger.serials, itemId, batchId, imeis)
    ensures forall i :: 0 <= i < |imeis| ==> ImeiTaken(db.ledger.serials, imeis[i])
  {
    var i := 0;
    while i < |imeis|
      invariant 0 <= i <= |imeis| && db.Valid()
      invariant db.ledger.batches == old(db.ledger.batches) && db.ledger.records == old(db.ledger.records)
      invariant SerialsGrown(old(db.ledger.serials), db.ledger.serials, itemId, batchId, imeis, i)
    {
      var imei := imeis[i];
      ghost var before := db.ledger.serials;
      if !ImeiTaken(db.ledger.serials, imei) {
        var id := db.AddSerial(Serial(imei, itemId, batchId, Available, None, None));
        SerialAdded(old(db.ledger.serials), before, db.ledger.serials, itemId, batchId, imeis, i, id);
      } else {
        SerialKnown(old(db.ledger.serials), before, itemId, batchId, imeis, i);
      }
      i := i + 1;
    }
  }

  /** The serials after registering the first `i` IMEIs: the old ones kept, the new ones fresh units of
      the batch, and each of those IMEIs registered. */
  predicate SerialsGrown(s0: map<int, Serial>, s1: map<int, Serial>, itemId: int, batchId: int,
                         imeis: seq<string>, i: nat)
    requires i <= |imeis|
  {
    && SerialsKept(s0, s1)
    && SerialsAdded(s0, s1, itemId, batchId, imeis)
    && forall j :: 0 <= j < i ==> ImeiTaken(s1, imeis[j])
  }

  /** Registering IMEI `i`, unknown so far, under the fresh id `id` keeps the loop's invariant. */
  lemma SerialAdded(s0: map<int, Serial>, before: map<int, Serial>, after: map<int, Serial>, itemId: int,
                    batchId: int, imeis: seq<string>, i: nat, id: int)
    requires i < |imeis| && SerialsGrown(s0, before, itemId, batchId, imeis, i)
    requires !ImeiTaken(before, imeis[i]) && id !in before
    requires after == before[id := Serial(imeis[i], itemId, batchId, Available, None, None)]
    ensures SerialsGrown(s0, after, itemId, batchId, imeis, i + 1)
  {
    TakenKept(s0, before, imeis[i]);
    assert after[id].imei == imeis[i];
    forall j | 0 <= j <= i ensures ImeiTaken(after, imeis[j]) {
      if j < i {
        var k :| k in before && before[k].imei == imeis[j];
        assert after[k] == before[k];
      }
    }
    forall k | k in after && k !in s0 ensures !ImeiTaken(s0, after[k].imei) {
      if k != id {
        assert k in before && after[k] == before[k];
      }
    }
  }

  /** Skipping IMEI `i`, already registered, keeps the loop's invariant. */
  lemma SerialKnown(s0: map<int, Serial>, ss: map<int, Serial>, itemId: int, batchId: int, imeis: seq<string>, i: nat)
    requires i < |imeis| && SerialsGrown(s0, ss, itemId, batchId, imeis, i) && ImeiTaken(ss, imeis[i])
    ensures SerialsGrown(s0, ss, itemId, batchId, imeis, i + 1)
  {
  }

  /** A barcode is registered for a record without serials that has one, is of type "other", and names a
      barcode not registered yet. */
  predicate TakesBarcode(rec: ImportRecord, codes: map<string, int>) {
    rec.serials == [] && rec.barcode != "" && rec.itemType == "other" && rec.barcode !in codes
  }

  /** The writes of one record once its references are resolved: the record's item is found or created,
      a new batch holds the record's quantity, the item's stock grows by exactly that quantity, and the
      IMEIs become serials of the batch, or, for a record without IMEIs, its barcode is registered. */
  method ImportLot(db: Db, rec: ImportRecord, categoryId: int, conditionId: int, qualityId: int, supplierId: int,
                   st: Stamp)
    returns (itemId: int, batchId: int)
    requires db.Valid()
    modifies db`items, db`ledger, db`nextId, db`barcodes
    ensures db.Valid()
    ensures itemId in old(db.items) ==>
              && itemId in ItemsMatching(old(db.items), rec.name, categoryId)
              && db.items == old(db.items)[itemId := Received(Refreshed(old(db.items)[itemId], rec), rec.quantity)]
    ensures itemId !in old(db.items) ==>
              && ItemsMatching(old(db.items), rec.name, categoryId) == {}
              && db.items == old(db.items)[itemId := Received(NewItem(rec, categoryId, conditionId, qualityId), rec.quantity)]
    ensures itemId in db.items && db.items[itemId].categoryId == categoryId
    ensures db.items[itemId].stockQuantity
            == (if itemId in old(db.items) then old(db.items)[itemId].stockQuantity else 0) + rec.quantity
    ensures batchId !in old(db.ledger.batches)
    ensures db.ledger.batches == old(db.ledger.batches)[batchId := ImportBatch(rec, supplierId, itemId, st)]
    ensures db.ledger.records == old(db.ledger.records)
    ensures SerialsKept(old(db.ledger.serials), db.ledger.serials)
    ensures SerialsAdded(old(db.ledger.serials), db.ledger.serials, itemId, batchId, rec.serials)
    ensures forall i :: 0 <= i < |rec.serials| ==> ImeiTaken(db.ledger.serials, rec.serials[i])
    ensures db.barcodes == if TakesBarcode(rec, old(db.barcodes)) then old(db.barcodes)[rec.barcode := itemId]
                           else old(db.barcodes)
  {
    itemId := ReceiveItem(db, rec, categoryId, conditionId, qualityId);
    batchId := db.AddBatch(ImportBatch(rec, supplierId, itemId, st));
    RegisterCodes(db, rec, itemId, batchId);
  }

  /** The IMEIs of the record become serials of its batch; a record without IMEIs registers its barcode
      instead when `TakesBarcode` allows it. */
  method RegisterCodes(db: Db, rec: ImportRecord, itemId: int, batchId: int)
    requires db.Valid() && batchId in db.ledger.batches
    modifies db`ledger, db`nextId, db`barcodes
    ensures db.Valid()
    ensures db.ledger.batches == old(db.ledger.batches) && db.ledger.records == old(db.ledger.records)
    ensures SerialsKept(old(db.ledger.serials), db.ledger.serials)
    ensures SerialsAdded(old(db.ledger.serials), db.ledger.serials, itemId, batchId, rec.serials)
    ensures forall i :: 0 <= i < |rec.serials| ==> ImeiTaken(db.ledger.serials, rec.serials[i])
    ensures db.barcodes == if TakesBarcode(rec, old(db.barcodes)) then old(db.barcodes)[rec.barcode := itemId]
                           else old(db.barcodes)
  {
    if rec.serials != [] {
      AddSerials(db, itemId, batchId, rec.serials);
    } else if TakesBarcode(rec, db.barcodes) {
      db.AddBarcode(rec.barcode, itemId);
    }
  }

  /** Import one record. A record without a supplier object fails once the category, condition and grade
      have been resolved (those lookups may already have created rows), and nothing else changes; otherwise
      the supplier is resolved and the lot is written (`ImportLot`) under the resolved ids. */
  method ImportOne(db: Db, c: Caches, rec: ImportRecord, st: Stamp) returns (ok: bool, itemId: int, batchId: int)
    requires db.Valid() && c.Agrees(db)
    modifies db`categories, db`conditions, db`qualities, db`customers, db`items, db`ledger, db`nextId, db`barcodes
    modifies c
    ensures db.Valid() && c.Agrees(db)
    ensures ok <==> rec.supplier.Some?
    ensures !ok ==> && db.items == old(db.items) && db.ledger == old(db.ledger)
                    && db.customers == old(db.customers) && db.barcodes == old(db.barcodes)
    ensures ok ==>
              && itemId in db.items && db.items[itemId].categoryId in db.categories
              && db.categories[db.items[itemId].categoryId].name == rec.category
              && batchId in db.ledger.batches && db.ledger.batches[batchId].supplierId in db.customers
              && db.ledger.batches == old(db.ledger.batches)[batchId := ImportBatch(rec,
                   db.ledger.batches[batchId].supplierId, itemId, st)]
              && db.items[itemId].stockQuantity
                 == (if itemId in old(db.items) then old(db.items)[itemId].stockQuantity else 0) + rec.quantity
    ensures SerialsKept(old(db.ledger.serials), db.ledger.serials)
    ensures ok ==> forall i :: 0 <= i < |rec.serials| ==> ImeiTaken(db.ledger.serials, rec.serials[i])
  {
    var categoryId, conditionId, qualityId := ResolveRefs(db, c, rec);
    if rec.supplier.None? {
      return false, 0, 0;
    }
    itemId, batchId := ImportSupplied(db, c, rec, categoryId, conditionId, qualityId, st);
    ok := true;
  }

  /** A record with a supplier object, its category, condition and grade resolved: the supplier is resolved
      and the lot is written under the resolved ids. */
  method ImportSupplied(db: Db, c: Caches, rec: ImportRecord, categoryId: int, conditionId: int, qualityId: int,
                        st: Stamp)
    returns (itemId: int, batchId: int)
    requires db.Valid() && c.Agrees(db) && rec.supplier.Some?
    requires categoryId in db.categories && db.categories[categoryId].name == rec.category
    modifies db`customers, db`items, db`ledger, db`nextId, db`barcodes, c`suppliers
    ensures db.Valid() && c.Agrees(db)
    ensures itemId in db.items && db.items[itemId].categoryId in db.categories
    ensures db.categories[db.items[itemId].categoryId].name == rec.category
    ensures batchId in db.ledger.batches && db.ledger.batches[batchId].supplierId in db.customers
    ensures db.ledger.batches == old(db.ledger.batches)[batchId := ImportBatch(rec,
              db.ledger.batches[batchId].supplierId, itemId, st)]
    ensures db.items[itemId].stockQuantity
            == (if itemId in old(db.items) then old(db.items)[itemId].stockQuantity else 0) + rec.quantity
    ensures SerialsKept(old(db.ledger.serials), db.ledger.serials)
    ensures forall i :: 0 <= i < |rec.serials| ==> ImeiTaken(db.ledger.serials, rec.serials[i])
  {
    var supplierId := SupplierId(db, c, rec.supplier.value.name, rec.supplier.value.phone, st.phoneNoise);
    ghost var customers := db.customers;
    ghost var serials := db.ledger.serials;
    itemId, batchId := ImportLot(db, rec, categoryId, conditionId, qualityId, supplierId, st);
    assert db.customers == customers;
    KeptTrans(old(db.ledger.serials), serials, db.ledger.serials);
  }

  /** Resolve the record's category, condition and quality grade through the caches. */
  method ResolveRefs(db: Db, c: Caches, rec: ImportRecord) returns (categoryId: int, conditionId: int, qualityId: int)
    requires db.Valid() && c.Agrees(db)
    modifies db`categories, db`conditions, db`qualities, db`nextId, c`categories, c`conditions, c`qualities
    ensures db.Valid() && c.Agrees(db)
    ensures categoryId in db.categories && db.categories[categoryId].name == rec.category
    ensures conditionId in db.conditions && db.conditions[conditionId] == rec.condition
    ensures qualityId in db.qualities && db.qualities[qualityId] == rec.quality
  {
    categoryId := CategoryId(db, c, rec.category);
    conditionId := ConditionId(db, c, rec.condition);
    qualityId := QualityId(db, c, rec.quality);
  }

  /** Run the import over every record in order, each with its own clock reading and random numbers. A
      failing record is skipped and the later ones are still imported; every IMEI of an imported record
      ends up registered, and IMEIs stay unique (part of the store invariant). */
  method ImportAll(db: Db, records: seq<ImportRecord>, stamps: seq<Stamp>) returns (imported: seq<bool>)
    requires db.Valid() && |stamps| == |records|
    modifies db
    ensures db.Valid()
    ensures |imported| == |records|
    ensures forall i :: 0 <= i < |records| ==> (imported[i] <==> records[i].supplier.Some?)
    ensures SerialsKept(old(db.ledger.serials), db.ledger.serials)
    ensures forall i, j :: 0 <= i < |records| && records[i].supplier.Some? && 0 <= j < |records[i].serials| ==>
              ImeiTaken(db.ledger.serials, records[i].serials[j])
  {
    var c := new Caches();
    imported := [];
    var n := 0;
    while n < |records|
      invariant 0 <= n <= |records| && |imported| == n
      invariant db.Valid() && c.Agrees(db)
      invariant Outcomes(records, imported)
      invariant SerialsKept(old(db.ledger.serials), db.ledger.serials)
      invariant Registered(records, n, db.ledger.serials)
    {
      ghost var before := db.ledger.serials;
      var ok, _, _ := ImportOne(db, c, records[n], stamps[n]);
      RegisteredStep(records, n, before, db.ledger.serials);
      KeptTrans(old(db.ledger.serials), before, db.ledger.serials);
      OutcomesStep(records, imported, ok);
      imported := imported + [ok];
      n := n + 1;
    }
  }

  /** The first `|imported|` records were imported exactly when they have a supplier. */
  predicate Outcomes(records: seq<ImportRecord>, imported: seq<bool>) {
    |imported| <= |records| && forall i :: 0 <= i < |imported| ==> (imported[i] <==> records[i].supplier.Some?)
  }

  /** The next record's outcome extends the outcomes. */
  lemma OutcomesStep(records: seq<ImportRecord>, imported: seq<bool>, ok: bool)
    requires Outcomes(records, imported) && |imported| < |records|
    requires ok <==> records[|imported|].supplier.Some?
    ensures Outcomes(records, imported + [ok])
  {
    var next := imported + [ok];
    forall i | 0 <= i < |next| ensures next[i] <==> records[i].supplier.Some? {
      if i < |imported| {
        assert next[i] == imported[i];
      }
    }
  }

  /** Every IMEI of the first `n` records that have a supplier is registered in `ss`. */
  predicate Registered(records: seq<ImportRecord>, n: nat, ss: map<int, Serial>)
    requires n <= |records|
  {
    forall i, j :: 0 <= i < n && records[i].supplier.Some? && 0 <= j < |records[i].serials| ==>
      ImeiTaken(ss, records[i].serials[j])
  }

  /** Importing record `n` keeps the earlier records' IMEIs registered and, if it has a supplier, registers
      its own. */
  lemma RegisteredStep(records: seq<ImportRecord>, n: nat, before: map<int, Serial>, after: map<int, Serial>)
    requires n < |records| && Registered(records, n, before) && SerialsKept(before, after)
    requires records[n].supplier.Some? ==> forall j :: 0 <= j < |records[n].serials| ==> ImeiTaken(after, records[n].serials[j])
    ensures Registered(records, n + 1, after)
  {
    forall i, j | 0 <= i < n && records[i].supplier.Some? && 0 <= j < |records[i].serials|
      ensures ImeiTaken(after, records[i].serials[j])
    {
      TakenKept(before, after, records[i].serials[j]);
    }
  }

  lemma KeptTrans(s0: map<int, Serial>, s1: map<int, Serial>, s2: map<int, Serial>)
    requires SerialsKept(s0, s1) && SerialsKept(s1, s2)
    ensures SerialsKept(s0, s2)
  {
  }
}
