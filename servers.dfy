/** The catalog servers: a list-backed and a map-backed store of products behind one
    `GetProducts`, and the query `GetEntries` that both share. */
module Servers {
  import opened Wrappers
  import opened Names
  import opened Products
  import opened Sorting
  import opened NameIndexes

  /** The most entries a query may return; one constant shared by every kind of server. */
  const MaxReturnedEntries: nat := 3

  /** The letter count `get_entries` uses when none is given. */
  const DefaultLetters: nat := 1

  /** The error of a query that matches more than `MaxReturnedEntries` products. */
  datatype TooManyProductsFound = TooManyProductsFound

  /** The products of ps whose whole name is n letters followed by 2 or 3 digits, in
      their order in ps. */
  function Matching(ps: seq<Product>, n: nat): (r: seq<Product>)
    ensures |r| <= |ps|
    ensures forall i :: 0 <= i < |r| ==> IsEntryName(r[i].name, n)
  {
    if ps == [] then []
    else
      var front, p := ps[..|ps| - 1], ps[|ps| - 1];
      Matching(front, n) + if MatchEntryName(p.name, n) then [p] else []
  }

  /** The filter misses nothing and lets nothing through: every product whose whole name
      matches, as often as ps holds it, and no other product. */
  lemma {:induction false} MatchingCounts(ps: seq<Product>, n: nat)
    ensures forall x :: multiset(Matching(ps, n))[x] == if IsEntryName(x.name, n) then multiset(ps)[x] else 0
  {
    if ps != [] {
      var front, p := ps[..|ps| - 1], ps[|ps| - 1];
      assert ps == front + [p];
      MatchingCounts(front, n);
    }
  }

  lemma MatchingSnoc(front: seq<Product>, p: Product, n: nat)
    ensures Matching(front + [p], n) == Matching(front, n) + if MatchEntryName(p.name, n) then [p] else []
  {
    assert (front + [p])[..|front|] == front;
  }

  /** Every product of ps matches for at most one letter count, so the queries for
      different counts pick disjoint parts of the catalog. */
  lemma MatchingDisjoint(ps: seq<Product>, n: nat, m: nat)
    requires n != m
    ensures multiset(Matching(ps, n)) !! multiset(Matching(ps, m))
  {
    MatchingCounts(ps, n);
    MatchingCounts(ps, m);
    forall x | x in multiset(Matching(ps, n)) ensures x !in multiset(Matching(ps, m)) {
      if IsEntryName(x.name, m) { EntryLetterCountUnique(x.name, n, m); }
    }
  }

  datatype Server =
    | ListServer(products: seq<Product>)
    | MapServer(index: NameIndex)
  {
    /** The stored products: the list as given, or the dictionary's values in key order,
        one product per name. */
    function GetProducts(): (r: seq<Product>)
      ensures ListServer? ==> r == products
      ensures MapServer? ==> DistinctNames(r) && |r| == |index.keys|
    {
      match this
      case ListServer(products) => products
      case MapServer(index) =>
        var r := Values(index);
        assert forall i :: 0 <= i < |r| ==> r[i].name == index.keys[i];
        r
    }

    /** The answer of `get_entries(n)`: the matching products sorted by price, or the
        too-many error when more than `MaxReturnedEntries` of them match (no partial list). */
    function Entries(n: nat): (r: Result<seq<Product>, TooManyProductsFound>)
      ensures r.Failure? <==> |Matching(GetProducts(), n)| > MaxReturnedEntries
      ensures r.Success? ==>
                && |r.value| <= MaxReturnedEntries
                && SortedByPrice(r.value)
                && multiset(r.value) == multiset(Matching(GetProducts(), n))
                && (forall q :: WithPrice(r.value, q) == WithPrice(Matching(GetProducts(), n), q))
      ensures r.Success? ==> forall x :: x in r.value <==> x in GetProducts() && IsEntryName(x.name, n)
    {
      var m := Matching(GetProducts(), n);
      MatchingCounts(GetProducts(), n);
      if |m| > MaxReturnedEntries then Failure(TooManyProductsFound)
      else
        var sorted := SortByPrice(m);
        forall q ensures WithPrice(sorted, q) == WithPrice(m, q) {
          SortIsStable(m, q);
        }
        assert |sorted| == |multiset(sorted)| == |m|;
        assert forall x :: x in sorted <==> x in multiset(m);
        assert forall x :: x in GetProducts() <==> x in multiset(GetProducts());
        Success(sorted)
    }

    /** `get_entries(n)`: collect the products whose name matches, refuse too many, sort
        the rest by price. */
    method GetEntries(n: nat) returns (r: Result<seq<Product>, TooManyProductsFound>)
      ensures r == Entries(n)
    {
      var products := GetProducts();
      var result: seq<Product> := [];
      var i := 0;
      while i < |products|
        invariant 0 <= i <= |products|
        invariant result == Matching(products[..i], n)
      {
        assert products[..i + 1][..i] == products[..i];
        if MatchEntryName(products[i].name, n) {
          result := result + [products[i]];
        }
        i := i + 1;
      }
      assert products[..i] == products;
      if |result| > MaxReturnedEntries {
        return Failure(TooManyProductsFound);
      }
      result := SortByPrice(result);
      return Success(result);
    }
  }

  /** `MapServer(products)`: fill the dictionary one product at a time, a later product
      replacing an earlier one of the same name. */
  method NewMapServer(products: seq<Product>) returns (s: Server)
    ensures s == MapServer(IndexOf(products))
  {
    var keys: seq<string> := [];
    var table: map<string, Product> := map[];
    var i := 0;
    while i < |products|
      invariant 0 <= i <= |products|
      invariant Dict(keys, table) == IndexOf(products[..i])
    {
      var el := products[i];
      assert products[..i + 1][..i] == products[..i];
      if el.name !in table {
        keys := keys + [el.name];
      }
      table := table[el.name := el];
      i := i + 1;
    }
    assert products[..i] == products;
    s := MapServer(Dict(keys, table));
  }

  lemma MapServerNames(ps: seq<Product>)
    ensures var out := MapServer(IndexOf(ps)).GetProducts();
      forall k :: k in NamesOf(ps) <==> k in NamesOf(out)
  {
    var d := IndexOf(ps);
    var out := MapServer(d).GetProducts();
    IndexOfKeys(ps);
    forall k ensures k in NamesOf(ps) <==> k in NamesOf(out) {
      if k in NamesOf(ps) {
        assert k in d.keys;
        var i :| 0 <= i < |d.keys| && d.keys[i] == k;
        assert out[i].name == k;
      }
      if k in NamesOf(out) {
        var i :| 0 <= i < |out| && out[i].name == k;
        assert d.keys[i] in d.table;
      }
    }
  }

  lemma MapServerLastWins(ps: seq<Product>)
    ensures var out := MapServer(IndexOf(ps)).GetProducts();
      forall i :: 0 <= i < |out| ==> out[i].name in NamesOf(ps) && out[i] == ps[LastWithName(ps, out[i].name)]
  {
    var d := IndexOf(ps);
    var out := MapServer(d).GetProducts();
    IndexOfKeys(ps);
    IndexOfLastWins(ps);
    forall i | 0 <= i < |out| ensures out[i].name in NamesOf(ps) && out[i] == ps[LastWithName(ps, out[i].name)] {
      assert out[i] == d.table[d.keys[i]];
      assert d.keys[i] in d.table;
    }
  }

  lemma MapServerFirstOrder(ps: seq<Product>)
    ensures var out := MapServer(IndexOf(ps)).GetProducts();
      forall i, j :: 0 <= i < j < |out| ==>
        out[i].name in NamesOf(ps) && out[j].name in NamesOf(ps) &&
        FirstWithName(ps, out[i].name) < FirstWithName(ps, out[j].name)
  {
    var d := IndexOf(ps);
    var out := MapServer(d).GetProducts();
    IndexOfFirstOrder(ps);
    forall i, j | 0 <= i < j < |out|
      ensures out[i].name in NamesOf(ps) && out[j].name in NamesOf(ps)
      ensures FirstWithName(ps, out[i].name) < FirstWithName(ps, out[j].name)
    {
      assert out[i].name == d.keys[i] && out[j].name == d.keys[j];
    }
  }

  /** The map-backed server built from ps offers one product per name of ps and nothing
      else: for each name the last product of ps with that name, placed where that name
      first occurs in ps. */
  lemma MapServerProducts(ps: seq<Product>)
    ensures var out := MapServer(IndexOf(ps)).GetProducts();
      && (forall k :: k in NamesOf(ps) <==> k in NamesOf(out))
      && (forall i :: 0 <= i < |out| ==> out[i].name in NamesOf(ps) && out[i] == ps[LastWithName(ps, out[i].name)])
      && (forall i, j :: 0 <= i < j < |out| ==> FirstWithName(ps, out[i].name) < FirstWithName(ps, out[j].name))
  {
    MapServerNames(ps);
    MapServerLastWins(ps);
    MapServerFirstOrder(ps);
  }

  /** When no two products share a name, both servers answer every query alike: the same
      entries, in the same order, and the too-many error in the same cases. */
  lemma BackendsAgree(ps: seq<Product>, n: nat)
    requires DistinctNames(ps)
    ensures ListServer(ps).Entries(n) == MapServer(IndexOf(ps)).Entries(n)
  {
    DistinctNamesRoundTrip(ps);
  }

  /** A catalog of valid products has no entry for zero letters, and that is an empty
      answer, not an error. */
  lemma ZeroLettersNoEntries(s: Server)
    requires forall p :: p in s.GetProducts() ==> ValidProduct(p)
    ensures s.Entries(0) == Success([])
  {
    var m := Matching(s.GetProducts(), 0);
    MatchingCounts(s.GetProducts(), 0);
    forall x: Product ensures multiset(m)[x] == 0 {
      if x in s.GetProducts() { ZeroLettersMatchNoProductName(x.name); }
    }
    assert multiset(m) == multiset{};
  }
}
