/** The item handlers: the low-stock listing and its paging, creating an item with its defaults, deleting
    an item that has no history, and adjusting an item's stock count by hand. */
module Items {
  import opened Wrappers
  import opened Entities
  import opened Store

  // ---------------------------------------------------------------------------------------------------
  // Low stock and paging

  /** At or below its reorder level. */
  predicate IsLowStock(it: Item) {
    it.stockQuantity <= it.minStockLevel
  }

  /** The low-stock items, in listing order. */
  function LowStock(xs: seq<Item>): (r: seq<Item>)
    ensures |r| <= |xs|
    ensures forall i :: 0 <= i < |r| ==> IsLowStock(r[i]) && r[i] in xs
    ensures forall i :: 0 <= i < |xs| && IsLowStock(xs[i]) ==> xs[i] in r
  {
    if xs == [] then []
    else
      var init := LowStock(xs[..|xs| - 1]);
      assert forall x :: x in xs[..|xs| - 1] ==> x in xs;
      assert forall i :: 0 <= i < |xs| - 1 ==> xs[i] == xs[..|xs| - 1][i];
      if IsLowStock(xs[|xs| - 1]) then init + [xs[|xs| - 1]] else init
  }

  /** Filtering keeps listing order: the low-stock items of a listing built from two parts are the first
      part's followed by the second's. */
  lemma {:induction false} LowStockAppend(xs: seq<Item>, ys: seq<Item>)
    ensures LowStock(xs + ys) == LowStock(xs) + LowStock(ys)
    decreases |ys|
  {
    if ys != [] {
      var init := ys[..|ys| - 1];
      assert (xs + ys)[..|xs + ys| - 1] == xs + init;
      assert (xs + ys)[|xs + ys| - 1] == ys[|ys| - 1];
      LowStockAppend(xs, init);
    } else {
      assert xs + ys == xs;
    }
  }

  predicate SortedByStock(xs: seq<Item>) {
    forall i, j :: 0 <= i < j < |xs| ==> xs[i].stockQuantity <= xs[j].stockQuantity
  }

  /** Filtering keeps the listing's order: the low-stock report of a listing sorted by stock count is
      sorted by stock count. */
  lemma {:induction false} LowStockSorted(xs: seq<Item>)
    requires SortedByStock(xs)
    ensures SortedByStock(LowStock(xs))
    decreases |xs|
  {
    if xs != [] {
      var init := xs[..|xs| - 1];
      var last := xs[|xs| - 1];
      assert SortedByStock(init) by {
        forall i, j | 0 <= i < j < |init| ensures init[i].stockQuantity <= init[j].stockQuantity {
          assert init[i] == xs[i] && init[j] == xs[j];
        }
      }
      LowStockSorted(init);
      var r := LowStock(init);
      forall k | 0 <= k < |r| ensures r[k].stockQuantity <= last.stockQuantity {
        var m :| 0 <= m < |init| && init[m] == r[k];
        assert init[m] == xs[m];
      }
    }
  }

  /** Where a JavaScript `slice` bound lands in a sequence of length `n`: a negative bound counts from
      the end, and every bound is clamped to `0..n`. */
  function SliceIndex(i: int, n: nat): (k: nat)
    ensures k <= n
  {
    if i < 0 then Max(0, n + i) else Min(i, n)
  }

  /** JavaScript's `xs.slice(start, end)`. */
  function Slice<T>(xs: seq<T>, start: int, end: int): (r: seq<T>)
    ensures |r| <= |xs|
  {
    var s, e := SliceIndex(start, |xs|), SliceIndex(end, |xs|);
    if s < e then xs[s..e] else []
  }

  /** On non-negative bounds a slice holds the elements from `start` on, at most `end − start` of them. */
  lemma SliceWindow<T>(xs: seq<T>, start: int, end: int)
    requires 0 <= start <= end
    ensures |Slice(xs, start, end)| == Min(end, |xs|) - Min(start, |xs|)
    ensures |Slice(xs, start, end)| <= end - start
    ensures forall j :: 0 <= j < |Slice(xs, start, end)| ==> Slice(xs, start, end)[j] == xs[start + j]
  {
  }

  /** The filtered count and one page of the low-stock filter. */
  datatype Page = Page(total: nat, items: seq<Item>)

  /** The `lowStock=true` listing: the low-stock items of the (name-ordered) listing, the count of all of
      them and the page `page` of `limit` items. */
  function LowStockPage(all: seq<Item>, page: int, limit: int): Page {
    var filtered := LowStock(all);
    var skip := (page - 1) * limit;
    Page(|filtered|, Slice(filtered, skip, skip + limit))
  }

  /** Every item on a page is a low-stock item of the listing, a page holds at most `limit` items, and
      the total counts every low-stock item whichever page is asked for. */
  lemma PageContents(all: seq<Item>, page: int, limit: int)
    requires page >= 1 && limit >= 0
    ensures
      var p := LowStockPage(all, page, limit);
      && p.total == |LowStock(all)| && |p.items| <= limit
      && (forall i :: 0 <= i < |p.items| ==> IsLowStock(p.items[i]) && p.items[i] in all)
  {
    ProductNonNegative(page - 1, limit);
    LowStockWindow(all, (page - 1) * limit, limit);
  }

  lemma ProductNonNegative(a: int, b: int)
    requires a >= 0 && b >= 0
    ensures a * b >= 0
  {
  }

  /** A window of `limit` low-stock items from `skip` on holds at most `limit` low-stock items of the
      listing. */
  lemma LowStockWindow(all: seq<Item>, skip: nat, limit: nat)
    ensures var w := Slice(LowStock(all), skip, skip + limit);
            |w| <= limit && forall i :: 0 <= i < |w| ==> IsLowStock(w[i]) && w[i] in all
  {
    var filtered := LowStock(all);
    SliceWindow(filtered, skip, skip + limit);
    var w := Slice(filtered, skip, skip + limit);
    forall i | 0 <= i < |w| ensures IsLowStock(w[i]) && w[i] in all {
      assert w[i] == filtered[skip + i];
    }
  }

  /** Pages 1..k, one after the other. */
  function Pages(xs: seq<Item>, k: nat, limit: nat): seq<Item> {
    if k == 0 then [] else Pages(xs, k - 1, limit) + Slice(xs, (k - 1) * limit, (k - 1) * limit + limit)
  }

  /** Paging loses and repeats nothing: the first `k` pages are exactly the first `k·limit` items. */
  lemma {:induction false} PagesPrefix(xs: seq<Item>, k: nat, limit: nat)
    ensures Pages(xs, k, limit) == xs[..Min(k * limit, |xs|)]
  {
    if k > 0 {
      PagesPrefix(xs, k - 1, limit);
      assert k * limit == (k - 1) * limit + limit;
      PagesExtend(xs, k, limit, (k - 1) * limit, k * limit);
    }
  }

  /** Page `k` continues the prefix that the first `k − 1` pages cover, where `a` and `b` are where pages
      `k` and `k + 1` start. */
  lemma PagesExtend(xs: seq<Item>, k: nat, limit: nat, a: nat, b: nat)
    requires k > 0 && a == (k - 1) * limit && b == a + limit
    requires Pages(xs, k - 1, limit) == xs[..Min(a, |xs|)]
    ensures Pages(xs, k, limit) == xs[..Min(b, |xs|)]
  {
    SliceAfterPrefix(xs, a, limit);
  }

  /** The slice after a prefix extends that prefix. */
  lemma SliceAfterPrefix(xs: seq<Item>, a: nat, limit: nat)
    ensures xs[..Min(a, |xs|)] + Slice(xs, a, a + limit) == xs[..Min(a + limit, |xs|)]
  {
    var m, m' := Min(a, |xs|), Min(a + limit, |xs|);
    assert Slice(xs, a, a + limit) == xs[m..m'];
    assert xs[..m] + xs[m..m'] == xs[..m'];
  }

  /** Page numbers below 1 are not refused; page −1 counts back from the end of the filtered list, so
      with 20 low-stock items and 5 per page it shows items 10 to 14. */
  lemma NegativePageCountsFromEnd(xs: seq<Item>)
    requires |LowStock(xs)| == 20
    ensures LowStockPage(xs, -1, 5).items == LowStock(xs)[10..15]
  {
  }

  // ---------------------------------------------------------------------------------------------------
  // Creating and deleting an item

  /** Create an item. Name, category, condition, quality and price are required; the type defaults to
      "other", the stock count to 0 and the reorder level to 5 when it is missing or 0. A category,
      condition or quality id naming no row breaks its foreign key. */
  method Create(db: Db, name: Option<string>, categoryId: Option<int>, brand: Option<string>,
                model: Option<string>, description: Option<string>, conditionId: Option<int>,
                qualityId: Option<int>, itemType: Option<string>, stockQuantity: Option<int>,
                minStockLevel: Option<int>, sellingPrice: Option<real>)
    returns (r: Result<int>)
    requires db.Valid()
    modifies db`items, db`nextId
    ensures db.Valid()
    ensures (!GivenText(name) || !GivenId(categoryId) || !GivenId(conditionId) || !GivenId(qualityId) ||
             sellingPrice.None?) ==> r == Err(400)
    ensures r.Ok? <==>
              && GivenText(name) && GivenId(categoryId) && GivenId(conditionId) && GivenId(qualityId)
              && sellingPrice.Some?
              && categoryId.value in db.categories && conditionId.value in db.conditions
              && qualityId.value in db.qualities
    ensures r.Err? ==> r.code == 400 && db.items == old(db.items) && db.nextId == old(db.nextId)
    ensures r.Ok? ==>
              && r.value == old(db.nextId) && r.value !in old(db.items)
              && db.items == old(db.items)[r.value := Item(name.value, categoryId.value, conditionId.value,
                   qualityId.value, brand, model, description,
                   if GivenText(itemType) then itemType.value else "other", stockQuantity.GetOr(0),
                   if GivenId(minStockLevel) then minStockLevel.value else 5, sellingPrice.value)]
              && db.items[r.value].itemType != "" && db.items[r.value].minStockLevel != 0
  {
    if !GivenText(name) || !GivenId(categoryId) || !GivenId(conditionId) || !GivenId(qualityId) ||
       sellingPrice.None? {
      return Err(400);
    }
    if categoryId.value !in db.categories || conditionId.value !in db.conditions ||
       qualityId.value !in db.qualities {
      return Err(400);
    }
    var id := db.AddItem(Item(name.value, categoryId.value, conditionId.value, qualityId.value, brand, model,
                              description, if GivenText(itemType) then itemType.value else "other",
                              stockQuantity.GetOr(0), if GivenId(minStockLevel) then minStockLevel.value else 5,
                              sellingPrice.value));
    r := Ok(id);
  }

  /** Some line of some sale sells item `id`. */
  predicate HasSaleLines(sales: map<int, Sale>, id: int) {
    exists s, i :: s in sales && 0 <= i < |sales[s].items| && sales[s].items[i].itemId == id
  }

  /** Some stock movement is logged against item `id`. */
  predicate HasUsages(us: seq<StockUsage>, id: int) {
    exists i :: 0 <= i < |us| && us[i].itemId == id
  }

  /** Some serial is a unit of item `id` (the required `Serial.itemId`). */
  predicate HasSerials(ss: map<int, Serial>, id: int) {
    exists k :: k in ss && ss[k].itemId == id
  }

  /** Some alternate barcode points at item `id` (the required `Barcode.itemId`). */
  predicate HasBarcodes(bs: map<string, int>, id: int) {
    exists c :: c in bs && bs[c] == id
  }

  /** Delete item `id`, refused while any sale line or stock movement refers to it. A serial or a barcode
      of the item makes the foreign key refuse the deletion (400); its batches lose their link to it. */
  method Delete(db: Db, id: int) returns (r: Result<()>)
    requires db.Valid()
    modifies db`items, db`ledger
    ensures db.Valid()
    ensures id !in old(db.items) ==> r == Err(404)
    ensures (id in old(db.items) && (HasSaleLines(db.sales, id) || HasUsages(db.usages, id))) ==> r == Err(400)
    ensures (id in old(db.items) && (HasSerials(old(db.ledger).serials, id) || HasBarcodes(db.barcodes, id))) ==>
              r == Err(400)
    ensures r.Ok? <==> && id in old(db.items) && !HasSaleLines(db.sales, id) && !HasUsages(db.usages, id)
                       && !HasSerials(old(db.ledger).serials, id) && !HasBarcodes(db.barcodes, id)
    ensures r.Err? ==> db.items == old(db.items) && db.ledger == old(db.ledger)
    ensures r.Ok? ==> db.items == old(db.items) - {id}
    ensures r.Ok? ==> db.ledger == old(db.ledger).(batches := ItemUnlinked(old(db.ledger).batches, id))
  {
    if id !in db.items {
      return Err(404);
    }
    if HasSaleLines(db.sales, id) || HasUsages(db.usages, id) {
      return Err(400);
    }
    if HasSerials(db.ledger.serials, id) || HasBarcodes(db.barcodes, id) {
      return Err(400);
    }
    db.RemoveItem(id);
    r := Ok(());
  }

  // ---------------------------------------------------------------------------------------------------
  // Adjusting stock by hand

  /** The stock count after adding `quantity` (negative to take stock out), or nothing when that would go
      below zero. */
  function Adjusted(stock: int, quantity: int): (r: Option<int>)
    ensures r.Some? <==> stock + quantity >= 0
    ensures r.Some? ==> r.value >= 0 && r.value - stock == quantity
  {
    if stock + quantity < 0 then None else Some(stock + quantity)
  }

  /** An adjustment is undone by the opposite adjustment. */
  lemma AdjustedUndo(stock: int, quantity: int)
    requires stock >= 0 && Adjusted(stock, quantity).Some?
    ensures Adjusted(Adjusted(stock, quantity).value, -quantity) == Some(stock)
  {
  }

  /** Two adjustments that both succeed are one adjustment by their sum. */
  lemma AdjustedCompose(stock: int, q1: int, q2: int)
    requires Adjusted(stock, q1).Some? && Adjusted(Adjusted(stock, q1).value, q2).Some?
    ensures Adjusted(stock, q1 + q2) == Adjusted(Adjusted(stock, q1).value, q2)
  {
  }

  /** Add `quantity` to item `id`'s stock count. A count that would go negative is refused; a movement
      with cost 0 is logged only when a reason is given. Returns the new count. */
  method AdjustStock(db: Db, id: int, quantity: Option<int>, reason: Option<string>) returns (r: Result<int>)
    requires db.Valid()
    modifies db`items, db`usages
    ensures db.Valid()
    ensures quantity.None? ==> r == Err(400)
    ensures quantity.Some? && id !in old(db.items) ==> r == Err(404)
    ensures r.Ok? <==> quantity.Some? && id in old(db.items) &&
                       Adjusted(old(db.items)[id].stockQuantity, quantity.value).Some?
    ensures r.Err? ==> db.items == old(db.items) && db.usages == old(db.usages)
    ensures r.Ok? ==>
              && r.value == Adjusted(old(db.items)[id].stockQuantity, quantity.value).value
              && db.items == old(db.items)[id := old(db.items)[id].(stockQuantity := r.value)]
              && db.usages == old(db.usages) +
                   (if GivenText(reason) then [StockUsage(id, None, quantity.value, 0.0, reason.value)] else [])
  {
    if quantity.None? {
      return Err(400);
    }
    if id !in db.items {
      return Err(404);
    }
    var adjusted := Adjusted(db.items[id].stockQuantity, quantity.value);
    if adjusted.None? {
      return Err(400);
    }
    if GivenText(reason) {
      db.Restock(id, adjusted.value, StockUsage(id, None, quantity.value, 0.0, reason.value));
    } else {
      db.SetStock(id, adjusted.value);
    }
    r := Ok(adjusted.value);
  }
}
