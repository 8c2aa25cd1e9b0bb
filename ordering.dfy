/** Row orders: listing the ids of a table in an unspecified order (what a query without `orderBy` returns)
    and a stable sort of ids by an integer key (JavaScript's `Array.prototype.sort` with a date comparator,
    or `orderBy: { purchaseDate: "asc" }`). */
module Ordering {
  import opened Wrappers

  predicate HasKeys(xs: seq<int>, key: map<int, int>) {
    forall i :: 0 <= i < |xs| ==> xs[i] in key
  }

  /** Keys never decrease along `xs`. */
  predicate SortedBy(xs: seq<int>, key: map<int, int>)
    requires HasKeys(xs, key)
  {
    forall i, j :: 0 <= i < j < |xs| ==> key[xs[i]] <= key[xs[j]]
  }

  /** `x` placed after every element whose key is at most its own. */
  function InsertBy(x: int, ys: seq<int>, key: map<int, int>): (r: seq<int>)
    requires x in key && HasKeys(ys, key)
    ensures multiset(r) == multiset(ys) + multiset{x}
    ensures HasKeys(r, key)
    ensures |r| == |ys| + 1
    decreases |ys|
  {
    if ys == [] || key[ys[|ys| - 1]] <= key[x] then
      ys + [x]
    else
      var init := ys[..|ys| - 1];
      assert ys == init + [ys[|ys| - 1]];
      InsertBy(x, init, key) + [ys[|ys| - 1]]
  }

  lemma {:induction false} InsertBySorted(x: int, ys: seq<int>, key: map<int, int>)
    requires x in key && HasKeys(ys, key) && SortedBy(ys, key)
    ensures SortedBy(InsertBy(x, ys, key), key)
    ensures forall i :: 0 <= i < |ys| + 1 ==>
              key[InsertBy(x, ys, key)[i]] <= Max(key[x], if ys == [] then key[x] else key[ys[|ys| - 1]])
    decreases |ys|
  {
    var r := InsertBy(x, ys, key);
    if ys == [] || key[ys[|ys| - 1]] <= key[x] {
      assert r == ys + [x];
      forall i | 0 <= i < |r| ensures key[r[i]] <= key[x] {
        if i < |ys| && ys != [] {
          assert key[ys[i]] <= key[ys[|ys| - 1]];
        }
      }
    } else {
      var init := ys[..|ys| - 1];
      var last := ys[|ys| - 1];
      assert SortedBy(init, key);
      InsertBySorted(x, init, key);
      var r' := InsertBy(x, init, key);
      assert r == r' + [last];
      forall i | 0 <= i < |r'| ensures key[r'[i]] <= key[last] {
        if init != [] {
          assert key[init[|init| - 1]] <= key[last];
        }
      }
    }
  }

  /** A stable insertion sort of `xs` by `key`. */
  function SortBy(xs: seq<int>, key: map<int, int>): (r: seq<int>)
    requires HasKeys(xs, key)
    ensures multiset(r) == multiset(xs) && HasKeys(r, key) && |r| == |xs|
    decreases |xs|
  {
    if xs == [] then []
    else
      var init := xs[..|xs| - 1];
      assert xs == init + [xs[|xs| - 1]];
      InsertBy(xs[|xs| - 1], SortBy(init, key), key)
  }

  lemma {:induction false} SortBySorted(xs: seq<int>, key: map<int, int>)
    requires HasKeys(xs, key)
    ensures SortedBy(SortBy(xs, key), key)
    decreases |xs|
  {
    if xs != [] {
      var init := xs[..|xs| - 1];
      SortBySorted(init, key);
      InsertBySorted(xs[|xs| - 1], SortBy(init, key), key);
    }
  }

  /** A sequence with the elements of a multiset of distinct elements is itself duplicate-free. */
  lemma DistinctOfMultiset(xs: seq<int>, ys: seq<int>)
    requires Distinct(xs) && multiset(ys) == multiset(xs)
    ensures Distinct(ys)
  {
    forall i, j | 0 <= i < j < |ys| ensures ys[i] != ys[j] {
      if ys[i] == ys[j] {
        var v := ys[i];
        assert multiset(ys)[v] >= 2 by {
          assert ys == ys[..i] + [v] + ys[i + 1..j] + [v] + ys[j + 1..];
        }
        DistinctCount(xs, v);
      }
    }
  }

  lemma {:induction false} DistinctCount(xs: seq<int>, v: int)
    requires Distinct(xs)
    ensures multiset(xs)[v] <= 1
    decreases |xs|
  {
    if xs != [] {
      var init := xs[..|xs| - 1];
      assert xs == init + [xs[|xs| - 1]];
      assert Distinct(init);
      DistinctCount(init, v);
      if xs[|xs| - 1] == v {
        assert v !in init;
      }
    }
  }

  lemma HasElement(s: set<int>)
    requires s != {}
    ensures exists x :: x in s
  {
    if forall x :: x !in s {
      assert false;
    }
  }

  /** The ids of `s`, each once, in an order the caller does not control. */
  method Enumerate(s: set<int>) returns (xs: seq<int>)
    ensures Distinct(xs) && |xs| == |s|
    ensures forall x :: x in xs <==> x in s
  {
    xs := [];
    var rest := s;
    while rest != {}
      invariant Distinct(xs)
      invariant forall x :: x in s <==> x in xs || x in rest
      invariant forall x :: x in xs ==> x !in rest
      invariant |xs| + |rest| == |s|
      decreases |rest|
    {
      HasElement(rest);
      var x :| x in rest;
      xs := xs + [x];
      rest := rest - {x};
    }
  }

  /** `order` lists exactly the ids in `s`, each once, by nondecreasing key. */
  predicate SortedListing(order: seq<int>, s: set<int>, key: map<int, int>) {
    && Distinct(order)
    && (forall i :: 0 <= i < |order| ==> order[i] in s)
    && (forall x :: x in s ==> x in order)
    && HasKeys(order, key)
    && SortedBy(order, key)
  }

  /** List `s` sorted by `key`, ties in an unspecified order. */
  method SortedIds(s: set<int>, key: map<int, int>) returns (order: seq<int>)
    requires s <= key.Keys
    ensures SortedListing(order, s, key)
  {
    var xs := Enumerate(s);
    order := SortBy(xs, key);
    SortBySorted(xs, key);
    DistinctOfMultiset(xs, order);
    forall x ensures x in order <==> x in s {
      assert x in order <==> x in multiset(order);
      assert x in xs <==> x in multiset(xs);
    }
    forall i | 0 <= i < |order| ensures order[i] in s {
      assert order[i] in order;
    }
  }

  /** The smallest id in `s`, if any: the row a lookup returns first when rows come in id order. */
  method LeastOf(s: set<int>) returns (r: Option<int>)
    ensures r.None? <==> s == {}
    ensures r.Some? ==> r.value in s && forall k :: k in s ==> r.value <= k
  {
    r := None;
    var rest := s;
    while rest != {}
      invariant rest <= s && (r.None? <==> rest == s)
      invariant r.Some? ==> r.value in s && forall k :: k in s && k !in rest ==> r.value <= k
      decreases |rest|
    {
      HasElement(rest);
      var x :| x in rest;
      if r.None? || x < r.value {
        r := Some(x);
      }
      rest := rest - {x};
    }
  }
}
