/** The barcode handlers: the text printed on an item's label, and the lookup a scanned code goes
    through (an IMEI first, then the `ITEM-<id>` form). Rendering the image is left to a library. */
module Barcodes {
  import opened Wrappers
  import opened Entities
  import opened Text
  import opened Ordering
  import opened Store

  const ItemPrefix := "ITEM-"

  /** The label of an item without serials, the template `ITEM-${id}` (a negative id prints its sign). */
  function ItemCode(id: int): (s: string)
    ensures StartsWith(s, ItemPrefix) && |s| > |ItemPrefix|
    ensures AllDigits(s[|ItemPrefix|..]) <==> id >= 0
  {
    if id >= 0 then ItemPrefix + Decimal(id)
    else
      var s := ItemPrefix + "-" + Decimal(-id);
      assert s[|ItemPrefix|..][0] == '-';
      s
  }

  /** `s.match(/^ITEM-(\d+)$/)` followed by `parseInt` of the captured digits: the item id a scanned
      code names, if it has that form. */
  function ParseItemCode(s: string): (r: Option<nat>)
    ensures r.Some? <==> StartsWith(s, ItemPrefix) && |s| > |ItemPrefix| && AllDigits(s[|ItemPrefix|..])
  {
    if StartsWith(s, ItemPrefix) && |s| > |ItemPrefix| && AllDigits(s[|ItemPrefix|..])
    then Some(DigitsValue(s[|ItemPrefix|..]))
    else None
  }

  /** Reading back an item's label gives the item's id. */
  lemma ItemCodeRoundTrip(id: nat)
    ensures ParseItemCode(ItemCode(id)) == Some(id)
  {
    var s := ItemCode(id);
    assert s[|ItemPrefix|..] == Decimal(id);
    DecimalRoundTrip(id);
  }

  /** Distinct items get distinct labels. */
  lemma ItemCodeInjective(a: nat, b: nat)
    requires ItemCode(a) == ItemCode(b)
    ensures a == b
  {
    ItemCodeRoundTrip(a);
    ItemCodeRoundTrip(b);
  }

  /** The serials of item `id`. */
  function SerialsOf(ss: map<int, Serial>, id: int): set<int> {
    set k | k in ss && ss[k].itemId == id
  }

  /** `k` is item `id`'s serial with the least id. */
  predicate FirstSerial(ss: map<int, Serial>, id: int, k: int) {
    k in SerialsOf(ss, id) && forall j :: j in SerialsOf(ss, id) ==> k <= j
  }

  /** The code printed on item `id`'s label: the IMEI of its first serial (least id), or `ITEM-<id>` when
      it has none; an unknown item is a 404. */
  method GenerateForItem(db: Db, id: int) returns (r: Result<string>)
    requires db.Valid()
    ensures id !in db.items ==> r == Err(404)
    ensures id in db.items && SerialsOf(db.ledger.serials, id) == {} ==> r == Ok(ItemCode(id))
    ensures id in db.items && SerialsOf(db.ledger.serials, id) != {} ==>
              exists k :: FirstSerial(db.ledger.serials, id, k) && r == Ok(db.ledger.serials[k].imei)
  {
    if id !in db.items {
      return Err(404);
    }
    var first := LeastOf(SerialsOf(db.ledger.serials, id));
    if first.Some? {
      assert FirstSerial(db.ledger.serials, id, first.value);
      r := Ok(db.ledger.serials[first.value].imei);
    } else {
      r := Ok(ItemCode(id));
    }
  }

  /** The code printed on serial `id`'s label: its IMEI; an unknown serial is a 404. */
  method GenerateForSerial(db: Db, id: int) returns (r: Result<string>)
    requires db.Valid()
    ensures id !in db.ledger.serials <==> r == Err(404)
    ensures id in db.ledger.serials ==> r == Ok(db.ledger.serials[id].imei)
  {
    if id !in db.ledger.serials {
      return Err(404);
    }
    r := Ok(db.ledger.serials[id].imei);
  }

  /** What a scan found. */
  datatype Scanned = SerialHit(serialId: int, itemId: int) | ItemHit(itemId: int) | Unknown(barcode: string)

  /** The IMEI `imei` belongs to some serial. */
  predicate ImeiKnown(ss: map<int, Serial>, imei: string) {
    exists k :: k in ss && ss[k].imei == imei
  }

  /** Resolve a scanned code. An empty code is a 400. A serial with that IMEI wins; otherwise a code of
      the form `ITEM-<digits>` names an item by id; anything else, or an id naming no item, is unknown. */
  method Scan(db: Db, barcode: string) returns (r: Result<Scanned>)
    requires db.Valid()
    ensures barcode == "" <==> r == Err(400)
    ensures r.Ok? && r.value.SerialHit? ==>
              && r.value.serialId in db.ledger.serials
              && db.ledger.serials[r.value.serialId].imei == barcode
              && r.value.itemId == db.ledger.serials[r.value.serialId].itemId
    ensures barcode != "" && ImeiKnown(db.ledger.serials, barcode) ==> r.Ok? && r.value.SerialHit?
    ensures r.Ok? && r.value.ItemHit? ==>
              && !ImeiKnown(db.ledger.serials, barcode)
              && ParseItemCode(barcode).Some? && ParseItemCode(barcode).value == r.value.itemId
              && r.value.itemId in db.items
    ensures r.Ok? && r.value.Unknown? <==>
              && barcode != "" && !ImeiKnown(db.ledger.serials, barcode)
              && (ParseItemCode(barcode).None? || ParseItemCode(barcode).value as int !in db.items)
    ensures r.Ok? && r.value.Unknown? ==> r.value.barcode == barcode
  {
    if barcode == "" {
      return Err(400);
    }
    if ImeiKnown(db.ledger.serials, barcode) {
      var k :| k in db.ledger.serials && db.ledger.serials[k].imei == barcode;
      return Ok(SerialHit(k, db.ledger.serials[k].itemId));
    }
    var parsed := ParseItemCode(barcode);
    if parsed.Some? && parsed.value as int in db.items {
      return Ok(ItemHit(parsed.value));
    }
    r := Ok(Unknown(barcode));
  }
}
