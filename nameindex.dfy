/** The storage of the map-backed catalog: Python's `{el.name: el for el in products}`,
    a dictionary keyed by product name that remembers the order in which keys were first
    inserted. It is modelled as that key order plus a map. */
module NameIndexes {
  import opened Products

  ghost predicate DistinctKeys(keys: seq<string>) {
    forall i, j :: 0 <= i < j < |keys| ==> keys[i] != keys[j]
  }

  /** The dictionary invariant: each key once, the key order lists exactly the keys of the
      table, and every product is filed under its own name. */
  ghost predicate IsNameIndex(keys: seq<string>, table: map<string, Product>) {
    && DistinctKeys(keys)
    && (forall k :: k in table <==> k in keys)
    && (forall k :: k in table ==> table[k].name == k)
  }

  datatype Dict = Dict(keys: seq<string>, table: map<string, Product>)

  type NameIndex = d: Dict | IsNameIndex(d.keys, d.table) witness Dict([], map[])

  /** `list(d.values())`: the products in key-insertion order. */
  function Values(d: NameIndex): (r: seq<Product>)
    ensures |r| == |d.keys|
    ensures forall i :: 0 <= i < |r| ==> r[i].name == d.keys[i]
  {
    seq(|d.keys|, i requires 0 <= i < |d.keys| => d.table[d.keys[i]])
  }

  /** `d[p.name] = p`: a new name goes to the end of the key order; a known name keeps its
      place and has its product replaced. */
  function Put(d: NameIndex, p: Product): (r: NameIndex)
    ensures r.table == d.table[p.name := p]
    ensures p.name in d.table ==> r.keys == d.keys
    ensures p.name !in d.table ==> r.keys == d.keys + [p.name]
  {
    if p.name in d.table then Dict(d.keys, d.table[p.name := p])
    else Dict(d.keys + [p.name], d.table[p.name := p])
  }

  /** The dictionary built from a list of products, inserting them in list order. */
  function IndexOf(ps: seq<Product>): (r: NameIndex)
    ensures |r.keys| <= |ps|
    ensures ps != [] ==> ps[|ps| - 1].name in r.table && r.table[ps[|ps| - 1].name] == ps[|ps| - 1]
  {
    if ps == [] then Dict([], map[])
    else Put(IndexOf(ps[..|ps| - 1]), ps[|ps| - 1])
  }

  /** The names occurring in ps. */
  ghost function NamesOf(ps: seq<Product>): set<string> {
    set i | 0 <= i < |ps| :: ps[i].name
  }

  /** The position of the first product of ps named k. */
  function FirstWithName(ps: seq<Product>, k: string): (i: nat)
    requires k in NamesOf(ps)
    ensures i < |ps| && ps[i].name == k
    ensures forall j :: 0 <= j < i ==> ps[j].name != k
  {
    if ps[0].name == k then 0
    else
      assert k in NamesOf(ps[1..]) by {
        var i :| 0 <= i < |ps| && ps[i].name == k;
        assert ps[1..][i - 1].name == k;
      }
      1 + FirstWithName(ps[1..], k)
  }

  /** The position of the last product of ps named k. */
  function LastWithName(ps: seq<Product>, k: string): (i: nat)
    requires k in NamesOf(ps)
    ensures i < |ps| && ps[i].name == k
    ensures forall j :: i < j < |ps| ==> ps[j].name != k
  {
    var last := |ps| - 1;
    if ps[last].name == k then last
    else
      assert k in NamesOf(ps[..last]) by {
        var i :| 0 <= i < |ps| && ps[i].name == k;
        assert ps[..last][i].name == k;
      }
      LastWithName(ps[..last], k)
  }

  lemma NamesSnoc(front: seq<Product>, p: Product)
    ensures NamesOf(front + [p]) == NamesOf(front) + {p.name}
  {
    var ps := front + [p];
    forall k | k in NamesOf(ps) ensures k in NamesOf(front) + {p.name} {
      var i :| 0 <= i < |ps| && ps[i].name == k;
      if i < |front| { assert front[i].name == k; }
    }
    forall k | k in NamesOf(front) ensures k in NamesOf(ps) {
      var i :| 0 <= i < |front| && front[i].name == k;
      assert ps[i].name == k;
    }
    assert ps[|front|].name == p.name;
  }

  lemma IndexOfSnoc(front: seq<Product>, p: Product)
    ensures IndexOf(front + [p]) == Put(IndexOf(front), p)
  {
    assert (front + [p])[..|front|] == front;
  }

  lemma FirstSnoc(front: seq<Product>, p: Product, k: string)
    requires k in NamesOf(front)
    ensures k in NamesOf(front + [p]) && FirstWithName(front + [p], k) == FirstWithName(front, k)
  {
    NamesSnoc(front, p);
    var ps := front + [p];
    var f := FirstWithName(front, k);
    assert ps[f].name == k;
    var g := FirstWithName(ps, k);
    assert front[g].name == k;
  }

  lemma FirstSnocNew(front: seq<Product>, p: Product)
    requires p.name !in NamesOf(front)
    ensures p.name in NamesOf(front + [p]) && FirstWithName(front + [p], p.name) == |front|
  {
    NamesSnoc(front, p);
    var ps := front + [p];
    forall j | 0 <= j < |front| ensures ps[j].name != p.name {
      assert front[j].name in NamesOf(front);
    }
  }

  lemma LastSnoc(front: seq<Product>, p: Product, k: string)
    requires k in NamesOf(front) && k != p.name
    ensures k in NamesOf(front + [p]) && LastWithName(front + [p], k) == LastWithName(front, k)
  {
    NamesSnoc(front, p);
    assert (front + [p])[..|front|] == front;
  }

  /** The dictionary built from ps has a key for each name of ps and for nothing else. */
  lemma {:induction false} IndexOfKeys(ps: seq<Product>)
    ensures forall k :: k in IndexOf(ps).table <==> k in NamesOf(ps)
  {
    if ps != [] {
      var front, p := ps[..|ps| - 1], ps[|ps| - 1];
      assert ps == front + [p];
      IndexOfKeys(front);
      IndexOfSnoc(front, p);
      NamesSnoc(front, p);
    }
  }

  /** Later products win: under each name is the LAST product of ps with that name. */
  lemma {:induction false} IndexOfLastWins(ps: seq<Product>)
    ensures forall k :: k in NamesOf(ps) ==> k in IndexOf(ps).table && IndexOf(ps).table[k] == ps[LastWithName(ps, k)]
  {
    IndexOfKeys(ps);
    if ps != [] {
      var front, p := ps[..|ps| - 1], ps[|ps| - 1];
      assert ps == front + [p];
      IndexOfLastWins(front);
      IndexOfSnoc(front, p);
      NamesSnoc(front, p);
      forall k | k in NamesOf(ps) && k != p.name
        ensures IndexOf(ps).table[k] == ps[LastWithName(ps, k)]
      {
        LastSnoc(front, p, k);
        assert ps[LastWithName(front, k)] == front[LastWithName(front, k)];
      }
    }
  }

  /** The keys are names of ps, listed in the order of their first occurrence in ps. */
  ghost predicate FirstOrdered(ps: seq<Product>, keys: seq<string>) {
    && (forall k :: k in keys ==> k in NamesOf(ps))
    && (forall i, j :: 0 <= i < j < |keys| ==> FirstWithName(ps, keys[i]) < FirstWithName(ps, keys[j]))
  }

  lemma FirstOrderedSnoc(front: seq<Product>, p: Product)
    requires FirstOrdered(front, IndexOf(front).keys)
    ensures FirstOrdered(front + [p], IndexOf(front + [p]).keys)
  {
    var ps := front + [p];
    IndexOfKeys(front);
    IndexOfSnoc(front, p);
    NamesSnoc(front, p);
    var d, keys := IndexOf(front), IndexOf(ps).keys;
    assert forall k :: k in keys ==> k in d.keys || k == p.name;
    forall i, j | 0 <= i < j < |keys|
      ensures FirstWithName(ps, keys[i]) < FirstWithName(ps, keys[j])
    {
      assert keys[i] in d.keys;
      FirstSnoc(front, p, keys[i]);
      if j < |d.keys| {
        FirstSnoc(front, p, keys[j]);
      } else {
        FirstSnocNew(front, p);
      }
    }
  }

  /** Keys keep the order in which their names FIRST occur in ps. */
  lemma {:induction false} IndexOfFirstOrder(ps: seq<Product>)
    ensures forall k :: k in IndexOf(ps).keys ==> k in NamesOf(ps)
    ensures forall i, j :: 0 <= i < j < |IndexOf(ps).keys| ==>
              FirstWithName(ps, IndexOf(ps).keys[i]) < FirstWithName(ps, IndexOf(ps).keys[j])
  {
    if ps != [] {
      var front, p := ps[..|ps| - 1], ps[|ps| - 1];
      assert ps == front + [p];
      IndexOfFirstOrder(front);
      FirstOrderedSnoc(front, p);
    }
  }

  /** Products with pairwise different names. */
  ghost predicate DistinctNames(ps: seq<Product>) {
    forall i, j :: 0 <= i < j < |ps| ==> ps[i].name != ps[j].name
  }

  lemma ValuesPutNew(d: NameIndex, p: Product)
    requires p.name !in d.table
    ensures Values(Put(d, p)) == Values(d) + [p]
  {
    var r := Values(Put(d, p));
    forall i | 0 <= i < |d.keys| ensures r[i] == Values(d)[i] {
      assert d.keys[i] in d.table;
    }
  }

  /** When no name repeats, the dictionary gives back exactly the list it was built from. */
  lemma {:induction false} DistinctNamesRoundTrip(ps: seq<Product>)
    requires DistinctNames(ps)
    ensures Values(IndexOf(ps)) == ps
  {
    if ps != [] {
      var front, p := ps[..|ps| - 1], ps[|ps| - 1];
      assert ps == front + [p];
      assert DistinctNames(front);
      DistinctNamesRoundTrip(front);
      IndexOfSnoc(front, p);
      IndexOfKeys(front);
      assert p.name !in NamesOf(front) by {
        forall k | k in NamesOf(front) ensures k != p.name {
          var i :| 0 <= i < |front| && front[i].name == k;
          assert ps[i].name != ps[|ps| - 1].name;
        }
      }
      ValuesPutNew(IndexOf(front), p);
    }
  }
}
