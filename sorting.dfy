/** Ordering products by price: the stable sort that `list.sort(key=price)` performs,
    written as an insertion sort, and the sum of prices. */
module Sorting {
  import opened Products

  ghost predicate SortedByPrice(s: seq<Product>) {
    forall i, j :: 0 <= i < j < |s| ==> s[i].price <= s[j].price
  }

  /** The products of s with price q, in their order in s. A sort is stable when it keeps
      every such subsequence as it was. */
  function WithPrice(s: seq<Product>, q: real): seq<Product> {
    if s == [] then []
    else (if s[0].price == q then [s[0]] else []) + WithPrice(s[1..], q)
  }

  /** The sum of the prices of s. */
  function SumPrices(s: seq<Product>): (r: real)
    ensures (forall i :: 0 <= i < |s| ==> 0.0 <= s[i].price) ==> 0.0 <= r
  {
    if s == [] then 0.0 else s[0].price + SumPrices(s[1..])
  }

  /** Inserts p before the first product that costs at least as much. */
  function InsertByPrice(p: Product, s: seq<Product>): (r: seq<Product>)
    ensures multiset(r) == multiset(s) + multiset{p}
  {
    if s == [] || p.price <= s[0].price then
      [p] + s
    else
      assert s == [s[0]] + s[1..];
      [s[0]] + InsertByPrice(p, s[1..])
  }

  /** Inserting keeps a lower bound that p and every product of s respect. */
  lemma {:induction false} InsertAbove(p: Product, s: seq<Product>, b: real)
    requires b <= p.price
    requires forall i :: 0 <= i < |s| ==> b <= s[i].price
    ensures forall i :: 0 <= i < |InsertByPrice(p, s)| ==> b <= InsertByPrice(p, s)[i].price
  {
    if s != [] && p.price > s[0].price {
      InsertAbove(p, s[1..], b);
      assert InsertByPrice(p, s)[1..] == InsertByPrice(p, s[1..]);
    }
  }

  /** The tail of a sorted sequence is sorted and costs at least its head. */
  lemma SortedTail(s: seq<Product>)
    requires s != [] && SortedByPrice(s)
    ensures SortedByPrice(s[1..])
    ensures forall i :: 0 <= i < |s[1..]| ==> s[0].price <= s[1..][i].price
  {
    forall i, j | 0 <= i < j < |s[1..]| ensures s[1..][i].price <= s[1..][j].price {
      assert s[1..][i] == s[i + 1] && s[1..][j] == s[j + 1];
    }
    forall i | 0 <= i < |s[1..]| ensures s[0].price <= s[1..][i].price {
      assert s[1..][i] == s[i + 1];
    }
  }

  lemma {:induction false} InsertKeepsSorted(p: Product, s: seq<Product>)
    requires SortedByPrice(s)
    ensures SortedByPrice(InsertByPrice(p, s))
  {
    var r := InsertByPrice(p, s);
    if s == [] || p.price <= s[0].price {
      assert r[1..] == s;
    } else {
      var t := InsertByPrice(p, s[1..]);
      SortedTail(s);
      InsertKeepsSorted(p, s[1..]);
      InsertAbove(p, s[1..], s[0].price);
      assert r[1..] == t;
      forall i, j | 0 <= i < j < |r| ensures r[i].price <= r[j].price {
        assert r[j] == t[j - 1];
        if i > 0 {
          assert r[i] == t[i - 1];
        }
      }
    }
  }

  lemma {:induction false} InsertWithPrice(p: Product, s: seq<Product>, q: real)
    ensures WithPrice(InsertByPrice(p, s), q) == if q == p.price then [p] + WithPrice(s, q) else WithPrice(s, q)
  {
    var r := InsertByPrice(p, s);
    if s == [] || p.price <= s[0].price {
      assert r[0] == p && r[1..] == s;
    } else {
      var t := InsertByPrice(p, s[1..]);
      InsertWithPrice(p, s[1..], q);
      assert r[0] == s[0] && r[1..] == t;
      if s[0].price == q {
        assert WithPrice(r, q) == [s[0]] + WithPrice(t, q);
        assert WithPrice(s, q) == [s[0]] + WithPrice(s[1..], q);
      } else {
        assert WithPrice(r, q) == WithPrice(t, q);
        assert WithPrice(s, q) == WithPrice(s[1..], q);
      }
    }
  }

  lemma {:induction false} InsertSum(p: Product, s: seq<Product>)
    ensures SumPrices(InsertByPrice(p, s)) == p.price + SumPrices(s)
  {
    var r := InsertByPrice(p, s);
    if s == [] || p.price <= s[0].price {
      assert r[1..] == s;
    } else {
      InsertSum(p, s[1..]);
      assert r[1..] == InsertByPrice(p, s[1..]);
    }
  }

  lemma MultisetOfTail(s: seq<Product>)
    requires s != []
    ensures multiset(s) == multiset(s[1..]) + multiset{s[0]}
  {
    assert s == [s[0]] + s[1..];
  }

  /** Stable sort by price, ascending: the result is ordered by price, holds the same
      products as often as s, keeps products of equal price in their order in s, and
      has the same total price. */
  function SortByPrice(s: seq<Product>): (r: seq<Product>)
    ensures SortedByPrice(r)
    ensures multiset(r) == multiset(s)
    ensures SumPrices(r) == SumPrices(s)
  {
    if s == [] then []
    else
      var t := SortByPrice(s[1..]);
      InsertKeepsSorted(s[0], t);
      InsertSum(s[0], t);
      MultisetOfTail(s);
      InsertByPrice(s[0], t)
  }

  /** The sort is stable: products of equal price keep their relative order. */
  lemma {:induction false} SortIsStable(s: seq<Product>, q: real)
    ensures WithPrice(SortByPrice(s), q) == WithPrice(s, q)
  {
    if s != [] {
      var t := SortByPrice(s[1..]);
      assert SortByPrice(s) == InsertByPrice(s[0], t);
      SortIsStable(s[1..], q);
      InsertWithPrice(s[0], t, q);
      assert WithPrice(s, q) == (if s[0].price == q then [s[0]] else []) + WithPrice(s[1..], q);
    }
  }

  lemma {:induction false} InWithPrice(s: seq<Product>, q: real, x: Product)
    ensures x in WithPrice(s, q) <==> x in s && x.price == q
  {
    if s != [] {
      InWithPrice(s[1..], q, x);
      assert s == [s[0]] + s[1..];
    }
  }

  /** Two sequences sorted by price that agree on the products of every price, one of
      them non-empty, start with the same product. */
  lemma SortedGroupsSameHead(t: seq<Product>, u: seq<Product>)
    requires SortedByPrice(t) && SortedByPrice(u)
    requires forall q :: WithPrice(t, q) == WithPrice(u, q)
    requires t != [] || u != []
    ensures t != [] && u != [] && t[0] == u[0]
  {
    if t != [] {
      InWithPrice(t, t[0].price, t[0]);
      InWithPrice(u, t[0].price, t[0]);
    }
    if u != [] {
      InWithPrice(u, u[0].price, u[0]);
      InWithPrice(t, u[0].price, u[0]);
    }
    var i :| 0 <= i < |t| && t[i] == u[0];
    var j :| 0 <= j < |u| && u[j] == t[0];
    assert t[0].price <= t[i].price && u[0].price <= u[j].price;
    var p := t[0].price;
    assert WithPrice(t, p) == [t[0]] + WithPrice(t[1..], p);
    assert WithPrice(u, p) == [u[0]] + WithPrice(u[1..], p);
    assert WithPrice(t, p)[0] == t[0] && WithPrice(u, p)[0] == u[0];
  }

  /** Removing the same first product keeps the groups of every price equal. */
  lemma SameHeadGroups(t: seq<Product>, u: seq<Product>)
    requires t != [] && u != [] && t[0] == u[0]
    requires forall q :: WithPrice(t, q) == WithPrice(u, q)
    ensures forall q :: WithPrice(t[1..], q) == WithPrice(u[1..], q)
  {
    forall q ensures WithPrice(t[1..], q) == WithPrice(u[1..], q) {
      var head := if t[0].price == q then [t[0]] else [];
      assert WithPrice(t, q) == head + WithPrice(t[1..], q);
      assert WithPrice(u, q) == head + WithPrice(u[1..], q);
      assert (head + WithPrice(t[1..], q))[|head|..] == WithPrice(t[1..], q);
      assert (head + WithPrice(u[1..], q))[|head|..] == WithPrice(u[1..], q);
    }
  }

  /** Two sequences sorted by price that agree on the products of every price, in order,
      are the same sequence. */
  lemma {:induction false} SortedGroupsDetermine(t: seq<Product>, u: seq<Product>)
    requires SortedByPrice(t) && SortedByPrice(u)
    requires forall q :: WithPrice(t, q) == WithPrice(u, q)
    ensures t == u
    decreases |t| + |u|
  {
    if t != [] || u != [] {
      SortedGroupsSameHead(t, u);
      SameHeadGroups(t, u);
      SortedTail(t);
      SortedTail(u);
      SortedGroupsDetermine(t[1..], u[1..]);
      assert t == [t[0]] + t[1..] && u == [u[0]] + u[1..];
    }
  }

  /** Stable sorting by price has one answer: any sequence ordered by price that keeps the
      products of each price in their order in s is `SortByPrice(s)`. So the insertion sort
      gives exactly what any other stable sort, Python's included, gives. */
  lemma StableSortUnique(s: seq<Product>, t: seq<Product>)
    requires SortedByPrice(t)
    requires forall q :: WithPrice(t, q) == WithPrice(s, q)
    ensures t == SortByPrice(s)
  {
    forall q ensures WithPrice(t, q) == WithPrice(SortByPrice(s), q) {
      SortIsStable(s, q);
    }
    SortedGroupsDetermine(t, SortByPrice(s));
  }
}
