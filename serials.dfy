/** The serial handlers: registering, editing and deleting the IMEI-tracked units under the unique IMEI. */
module Serials {
  import opened Wrappers
  import opened Entities
  import opened Store
  import Fifo

  /** Some serial has IMEI `imei`. */
  predicate ImeiTaken(ss: map<int, Serial>, imei: string) {
    exists k :: k in ss && ss[k].imei == imei
  }

  /** Another serial than `id` has IMEI `imei`. */
  predicate ImeiTakenByOther(ss: map<int, Serial>, id: int, imei: string) {
    exists k :: k in ss && k != id && ss[k].imei == imei
  }

  /** Register a unit: IMEI, item and batch are required and a known IMEI is a conflict (409). The unit
      starts available and unlinked; an item or batch id naming no row breaks its foreign key. */
  method Create(db: Db, imei: Option<string>, itemId: Option<int>, batchId: Option<int>) returns (r: Result<int>)
    requires db.Valid()
    modifies db`ledger, db`nextId
    ensures db.Valid()
    ensures (!GivenText(imei) || !GivenId(itemId) || !GivenId(batchId)) ==> r == Err(400)
    ensures (GivenText(imei) && GivenId(itemId) && GivenId(batchId) && ImeiTaken(old(db.ledger.serials), imei.value))
            ==> r == Err(409)
    ensures r.Ok? <==>
              && GivenText(imei) && GivenId(itemId) && GivenId(batchId) && !ImeiTaken(old(db.ledger.serials), imei.value)
              && itemId.value in db.items && batchId.value in db.ledger.batches
    ensures r.Err? ==> db.ledger == old(db.ledger) && db.nextId == old(db.nextId)
    ensures r.Ok? ==>
              && r.value == old(db.nextId) && r.value !in old(db.ledger.serials)
              && db.ledger == old(db.ledger).(serials := old(db.ledger.serials)[r.value :=
                   Serial(imei.value, itemId.value, batchId.value, Available, None, None)])
  {
    if !GivenText(imei) || !GivenId(itemId) || !GivenId(batchId) {
      return Err(400);
    }
    if ImeiTaken(db.ledger.serials, imei.value) {
      return Err(409);
    }
    if itemId.value !in db.items || batchId.value !in db.ledger.batches {
      return Err(400);
    }
    var id := db.AddSerial(Serial(imei.value, itemId.value, batchId.value, Available, None, None));
    r := Ok(id);
  }

  /** `s` with every supplied field replaced. */
  function Patched(s: Serial, imei: Option<string>, itemId: Option<int>, batchId: Option<int>): (r: Serial)
    ensures r.imei == imei.GetOr(s.imei) && r.itemId == itemId.GetOr(s.itemId) && r.batchId == batchId.GetOr(s.batchId)
    ensures r.status == s.status && r.saleItemId == s.saleItemId && r.repairItemId == s.repairItemId
  {
    s.(imei := imei.GetOr(s.imei), itemId := itemId.GetOr(s.itemId), batchId := batchId.GetOr(s.batchId))
  }

  /** Change the supplied fields of serial `id`. A new non-empty IMEI that another serial has is a conflict
      (409); an empty IMEI skips that check and the unique index refuses it (400) when another serial has
      it. A supplied item or batch id naming no row breaks its foreign key. */
  method Update(db: Db, id: int, imei: Option<string>, itemId: Option<int>, batchId: Option<int>)
    returns (r: Result<()>)
    requires db.Valid()
    modifies db`ledger
    ensures db.Valid()
    ensures id !in old(db.ledger.serials) ==> r == Err(404)
    ensures (id in old(db.ledger.serials) && GivenText(imei) && ImeiTakenByOther(old(db.ledger.serials), id, imei.value))
            ==> r == Err(409)
    ensures r.Ok? <==>
              && id in old(db.ledger.serials)
              && !(imei.Some? && ImeiTakenByOther(old(db.ledger.serials), id, imei.value))
              && (itemId.Some? ==> itemId.value in db.items)
              && batchId.GetOr(old(db.ledger.serials)[id].batchId) in db.ledger.batches
    ensures r.Err? ==> db.ledger == old(db.ledger)
    ensures r.Ok? ==>
              db.ledger == old(db.ledger).(serials := old(db.ledger.serials)[id :=
                Patched(old(db.ledger.serials)[id], imei, itemId, batchId)])
  {
    if id !in db.ledger.serials {
      return Err(404);
    }
    var s := db.ledger.serials[id];
    if GivenText(imei) && imei.value != s.imei && ImeiTaken(db.ledger.serials, imei.value) {
      return Err(409);
    }
    // A non-empty IMEI another serial has differs from this serial's own (IMEIs are unique), so it was
    // caught above; only the empty IMEI is left for the unique index to refuse.
    if imei.Some? && imei.value == "" && ImeiTakenByOther(db.ledger.serials, id, imei.value) {
      return Err(400);
    }
    if (itemId.Some? && itemId.value !in db.items) || batchId.GetOr(s.batchId) !in db.ledger.batches {
      return Err(400);
    }
    db.SetSerial(id, Patched(s, imei, itemId, batchId));
    r := Ok(());
  }

  /** Delete serial `id`; nothing else changes. */
  method Delete(db: Db, id: int) returns (r: Result<()>)
    requires db.Valid()
    modifies db`ledger
    ensures db.Valid()
    ensures r.Ok? <==> id in old(db.ledger.serials)
    ensures r.Err? ==> r.code == 404 && db.ledger == old(db.ledger)
    ensures r.Ok? ==> db.ledger == old(db.ledger).(serials := old(db.ledger.serials) - {id})
  {
    if id !in db.ledger.serials {
      return Err(404);
    }
    db.RemoveSerial(id);
    r := Ok(());
  }
}
