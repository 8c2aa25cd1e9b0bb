/** The maintenance script that sets every item's selling price to the unit cost of its most recently
    purchased batch. */
module Prices {
  import opened Wrappers
  import opened Entities
  import opened Ordering
  import opened Store

  /** The batches bought for item `id`. */
  function BatchesOf(bs: map<int, Batch>, id: int): set<int> {
    set k | k in bs && bs[k].itemId == Some(id)
  }

  /** Batch `k` is one of item `id`'s batches with the latest purchase date (the first row of the
      item's batches ordered by purchase date, newest first). */
  predicate Latest(bs: map<int, Batch>, id: int, k: int) {
    k in BatchesOf(bs, id) && forall j :: j in BatchesOf(bs, id) ==> bs[j].purchaseDate <= bs[k].purchaseDate
  }

  /** Item `id`'s latest batch, if it has any; among batches bought at the same moment any one may come
      first. */
  method LatestBatch(bs: map<int, Batch>, id: int) returns (r: Option<int>)
    ensures r.None? <==> BatchesOf(bs, id) == {}
    ensures r.Some? ==> Latest(bs, id, r.value)
  {
    var all := BatchesOf(bs, id);
    var rest := all;
    r := None;
    while rest != {}
      invariant rest <= all && (r.None? <==> rest == all)
      invariant r.Some? ==> r.value in all && forall j :: j in all && j !in rest ==> bs[j].purchaseDate <= bs[r.value].purchaseDate
      decreases |rest|
    {
      HasElement(rest);
      var k :| k in rest;
      if r.None? || bs[k].purchaseDate > bs[r.value].purchaseDate {
        r := Some(k);
      }
      rest := rest - {k};
    }
  }

  /** The ids among `ids` of items that have at least one batch. */
  function Priced(ids: set<int>, bs: map<int, Batch>): set<int> {
    set k | k in ids && BatchesOf(bs, k) != {}
  }

  /** The counters after visiting the items `done`: `updated` counts those with a batch, `skipped` the
      others. */
  predicate Counted(done: set<int>, bs: map<int, Batch>, updated: nat, skipped: nat) {
    updated == |Priced(done, bs)| && updated + skipped == |done|
  }

  /** Visiting one more item bumps exactly one counter. */
  lemma CountedStep(done: set<int>, k: int, bs: map<int, Batch>, updated: nat, skipped: nat)
    requires k !in done && Counted(done, bs, updated, skipped)
    ensures BatchesOf(bs, k) != {} ==> Counted(done + {k}, bs, updated + 1, skipped)
    ensures BatchesOf(bs, k) == {} ==> Counted(done + {k}, bs, updated, skipped + 1)
  {
    assert Priced(done + {k}, bs) == if BatchesOf(bs, k) != {} then Priced(done, bs) + {k} else Priced(done, bs);
  }

  /** Item `k` of `before` after the update in `after`: unchanged when it has no batches, and otherwise
      changed in its selling price only, which is the unit cost of a latest batch. */
  ghost predicate Repriced(before: map<int, Item>, after: map<int, Item>, bs: map<int, Batch>, k: int)
    requires k in before && k in after
  {
    if BatchesOf(bs, k) == {} then after[k] == before[k]
    else exists b :: Latest(bs, k, b) && after[k] == before[k].(sellingPrice := bs[b].unitCost)
  }

  /** One step of the walk: item `k` gets its latest batch's unit cost as selling price, if it has a batch. */
  method RepriceOne(items: map<int, Item>, bs: map<int, Batch>, k: int)
    returns (items': map<int, Item>, found: bool, ghost b: int)
    requires k in items
    ensures items'.Keys == items.Keys && (forall j :: j in items && j != k ==> items'[j] == items[j])
    ensures found <==> BatchesOf(bs, k) != {}
    ensures !found ==> items' == items
    ensures found ==> Latest(bs, k, b) && items'[k] == items[k].(sellingPrice := bs[b].unitCost)
  {
    var latest := LatestBatch(bs, k);
    found := latest.Some?;
    items' := items;
    b := 0;
    if found {
      b := latest.value;
      items' := items[k := items[k].(sellingPrice := bs[latest.value].unitCost)];
    }
  }

  /** Item `k` of `before` after the update in `after`, where `b` is the batch the walk chose for it. */
  predicate RepricedBy(before: map<int, Item>, after: map<int, Item>, bs: map<int, Batch>, k: int, b: int)
    requires k in before && k in after
  {
    if BatchesOf(bs, k) == {} then after[k] == before[k]
    else Latest(bs, k, b) && after[k] == before[k].(sellingPrice := bs[b].unitCost)
  }

  /** What holds while walking the items: `done` have been visited, each with the batch `chosen` for it,
      `rest` are untouched, and the counters agree with `done`. */
  predicate Walked(items: map<int, Item>, cur: map<int, Item>, bs: map<int, Batch>, rest: set<int>,
                   done: set<int>, chosen: map<int, int>, updated: nat, skipped: nat)
  {
    && cur.Keys == items.Keys
    && rest !! done && rest + done == items.Keys
    && Counted(done, bs, updated, skipped)
    && (forall k :: k in rest ==> cur[k] == items[k])
    && done <= chosen.Keys
    && (forall k :: k in done ==> RepricedBy(items, cur, bs, k, chosen[k]))
  }

  /** Visiting item `k` of `rest` as `RepriceOne` does moves it to `done` and keeps the walk's invariant;
      `updated'` and `skipped'` are the counters after the visit. */
  lemma WalkStep(items: map<int, Item>, before: map<int, Item>, after: map<int, Item>, bs: map<int, Batch>,
                 rest: set<int>, done: set<int>, chosen: map<int, int>, updated: nat, skipped: nat,
                 k: int, found: bool, b: int, updated': nat, skipped': nat)
    requires Walked(items, before, bs, rest, done, chosen, updated, skipped) && k in rest
    requires after.Keys == before.Keys && (forall j :: j in before && j != k ==> after[j] == before[j])
    requires found <==> BatchesOf(bs, k) != {}
    requires !found ==> after == before
    requires found ==> Latest(bs, k, b) && after[k] == before[k].(sellingPrice := bs[b].unitCost)
    requires updated' == (if found then updated + 1 else updated)
    requires skipped' == (if found then skipped else skipped + 1)
    ensures Walked(items, after, bs, rest - {k}, done + {k}, chosen[k := b], updated', skipped')
  {
    CountedStep(done, k, bs, updated, skipped);
    RepricedStep(items, before, after, bs, done, chosen, k, found, b);
    MoveOne(rest, done, k, items.Keys);
    assert forall j :: j in rest - {k} ==> after[j] == items[j];
  }

  /** Moving `k` from `rest` to `done` keeps the two a partition of `keys`. */
  lemma MoveOne(rest: set<int>, done: set<int>, k: int, keys: set<int>)
    requires rest !! done && rest + done == keys && k in rest
    ensures (rest - {k}) !! (done + {k}) && (rest - {k}) + (done + {k}) == keys
  {
  }

  /** The visited items stay repriced when item `k` is visited next. */
  lemma RepricedStep(items: map<int, Item>, before: map<int, Item>, after: map<int, Item>, bs: map<int, Batch>,
                     done: set<int>, chosen: map<int, int>, k: int, found: bool, b: int)
    requires before.Keys == items.Keys && after.Keys == items.Keys && k in items && k !in done
    requires before[k] == items[k] && done <= chosen.Keys && done <= items.Keys
    requires forall j :: j in done ==> RepricedBy(items, before, bs, j, chosen[j])
    requires forall j :: j in before && j != k ==> after[j] == before[j]
    requires found <==> BatchesOf(bs, k) != {}
    requires !found ==> after == before
    requires found ==> Latest(bs, k, b) && after[k] == before[k].(sellingPrice := bs[b].unitCost)
    ensures forall j :: j in done + {k} ==> RepricedBy(items, after, bs, j, chosen[k := b][j])
  {
    forall j | j in done ensures RepricedBy(items, after, bs, j, chosen[k := b][j]) {
      assert RepricedBy(items, before, bs, j, chosen[j]) && after[j] == before[j];
    }
    assert RepricedBy(items, after, bs, k, chosen[k := b][k]);
  }

  /** Once every item has been visited, every item is repriced. */
  lemma WalkDone(items: map<int, Item>, after: map<int, Item>, bs: map<int, Batch>,
                 done: set<int>, chosen: map<int, int>, updated: nat, skipped: nat)
    requires Walked(items, after, bs, {}, done, chosen, updated, skipped)
    ensures after.Keys == items.Keys
    ensures forall k :: k in items ==> Repriced(items, after, bs, k)
    ensures updated == |Priced(items.Keys, bs)| && updated + skipped == |items|
  {
    assert done == items.Keys;
    forall k | k in items ensures Repriced(items, after, bs, k) {
      assert RepricedBy(items, after, bs, k, chosen[k]);
    }
  }

  /** Walk over every item: skip one without batches, otherwise set its selling price to its latest
      batch's unit cost. Each item is counted once, as updated or as skipped, and no other field changes. */
  method Reprice(items: map<int, Item>, bs: map<int, Batch>) returns (items': map<int, Item>, updated: nat, skipped: nat)
    ensures items'.Keys == items.Keys
    ensures forall k :: k in items ==> Repriced(items, items', bs, k)
    ensures updated == |Priced(items.Keys, bs)| && updated + skipped == |items|
  {
    items' := items;
    var rest := items.Keys;
    ghost var done: set<int> := {};
    ghost var chosen: map<int, int> := map[];
    updated, skipped := 0, 0;
    while rest != {}
      invariant Walked(items, items', bs, rest, done, chosen, updated, skipped)
      decreases |rest|
    {
      HasElement(rest);
      var k :| k in rest;
      ghost var before := items';
      var found; ghost var b;
      items', found, b := RepriceOne(items', bs, k);
      var updated', skipped' := updated, skipped;
      if found {
        updated' := updated + 1;
      } else {
        skipped' := skipped + 1;
      }
      WalkStep(items, before, items', bs, rest, done, chosen, updated, skipped, k, found, b, updated', skipped');
      updated, skipped := updated', skipped';
      chosen := chosen[k := b];
      done := done + {k};
      rest := rest - {k};
    }
    WalkDone(items, items', bs, done, chosen, updated, skipped);
  }

  /** The script run against the store: only the items' selling prices are written. */
  method UpdatePricesFromBatches(db: Db) returns (updated: nat, skipped: nat)
    requires db.Valid()
    modifies db`items
    ensures db.Valid() && db.items.Keys == old(db.items).Keys
    ensures forall k :: k in db.items ==> Repriced(old(db.items), db.items, db.ledger.batches, k)
    ensures updated == |Priced(old(db.items).Keys, db.ledger.batches)| && updated + skipped == |old(db.items)|
  {
    var items';
    items', updated, skipped := Reprice(db.items, db.ledger.batches);
    db.ReplaceItems(items');
  }
}
