/** The scenarios of the project's unit tests, proved about the model. */
module Scenarios {
  import opened Wrappers
  import opened Names
  import opened Products
  import opened Sorting
  import opened NameIndexes
  import opened Servers
  import opened Clients

  /** "a2" and "Ab11" are product names; "1b", "11" and "A" are refused with
      "Incorrect name of product". */
  lemma ProductNameChecks()
    ensures NewProduct("a2", 1.0) == Success(Product("a2", 1.0))
    ensures NewProduct("Ab11", 0.0) == Success(Product("Ab11", 0.0))
    ensures NewProduct("1b", 0.0) == Failure(ValueError("Incorrect name of product"))
    ensures NewProduct("11", 0.0) == Failure(ValueError("Incorrect name of product"))
    ensures NewProduct("A", 0.0) == Failure(ValueError("Incorrect name of product"))
  {
  }

  /** Two products built from the same name and price are equal. */
  lemma SameNameAndPriceAreEqual()
    ensures Equals(Product("a1", 1.2), Product("a1", 1.2))
  {
  }

  /** What the filter keeps of one product. */
  function Keep(p: Product, n: nat): seq<Product> {
    if MatchEntryName(p.name, n) then [p] else []
  }

  lemma MatchingOfTwo(a: Product, b: Product, n: nat)
    ensures Matching([a, b], n) == Keep(a, n) + Keep(b, n)
  {
    MatchingSnoc([], a, n);
    assert [] + [a] == [a];
    MatchingSnoc([a], b, n);
    assert [a] + [b] == [a, b];
  }

  lemma MatchingOfThree(a: Product, b: Product, c: Product, n: nat)
    ensures Matching([a, b, c], n) == Keep(a, n) + Keep(b, n) + Keep(c, n)
  {
    MatchingOfTwo(a, b, n);
    MatchingSnoc([a, b], c, n);
    assert [a, b] + [c] == [a, b, c];
  }

  lemma MatchingOfFour(a: Product, b: Product, c: Product, d: Product, n: nat)
    ensures Matching([a, b, c, d], n) == Keep(a, n) + Keep(b, n) + Keep(c, n) + Keep(d, n)
  {
    MatchingOfThree(a, b, c, n);
    MatchingSnoc([a, b, c], d, n);
    assert [a, b, c] + [d] == [a, b, c, d];
  }

  /** A list server whose query matches at most three products answers with them sorted. */
  lemma ListEntriesFew(ps: seq<Product>, n: nat, m: seq<Product>)
    requires Matching(ps, n) == m && |m| <= MaxReturnedEntries
    ensures ListServer(ps).Entries(n) == Success(SortByPrice(m))
  {
  }

  /** Two products out of price order are swapped by the sort. */
  lemma SortPair(x: Product, y: Product)
    requires y.price < x.price
    ensures SortByPrice([x, y]) == [y, x]
  {
    assert [x, y][1..] == [y];
    assert [y][1..] == [];
  }

  function ThreeProducts(): seq<Product> {
    [Product("P12", 1.0), Product("PP234", 2.0), Product("PP235", 1.0)]
  }

  lemma ThreeProductsDistinct()
    ensures DistinctNames(ThreeProducts())
  {
  }

  lemma ThreeProductsNames()
    ensures !MatchEntryName("P12", 2) && MatchEntryName("PP234", 2) && MatchEntryName("PP235", 2)
  {
  }

  lemma ThreeProductsTwoLetters()
    ensures Matching(ThreeProducts(), 2) == [Product("PP234", 2.0), Product("PP235", 1.0)]
  {
    MatchingOfThree(Product("P12", 1.0), Product("PP234", 2.0), Product("PP235", 1.0), 2);
    ThreeProductsNames();
  }

  lemma ThreeProductsThreeLetters()
    ensures Matching(ThreeProducts(), 3) == []
  {
    MatchingOfThree(Product("P12", 1.0), Product("PP234", 2.0), Product("PP235", 1.0), 3);
    assert !MatchEntryName("P12", 3) && !MatchEntryName("PP234", 3) && !MatchEntryName("PP235", 3);
  }

  /** The map server holds the three products as given: their names are distinct. */
  lemma ThreeProductsMapServer()
    ensures MapServer(IndexOf(ThreeProducts())).GetProducts() == ThreeProducts()
  {
    ThreeProductsDistinct();
    DistinctNamesRoundTrip(ThreeProducts());
  }

  lemma ListEntriesForTwoLetters()
    ensures ListServer(ThreeProducts()).Entries(2) == Success([Product("PP235", 1.0), Product("PP234", 2.0)])
  {
    ThreeProductsTwoLetters();
    ListEntriesFew(ThreeProducts(), 2, [Product("PP234", 2.0), Product("PP235", 1.0)]);
    SortPair(Product("PP234", 2.0), Product("PP235", 1.0));
  }

  /** Two letters pick PP234 and PP235, cheapest first, on both servers. */
  lemma EntriesForTwoLetters()
    ensures ListServer(ThreeProducts()).Entries(2) == Success([Product("PP235", 1.0), Product("PP234", 2.0)])
    ensures MapServer(IndexOf(ThreeProducts())).Entries(2) == Success([Product("PP235", 1.0), Product("PP234", 2.0)])
  {
    ListEntriesForTwoLetters();
    ThreeProductsDistinct();
    BackendsAgree(ThreeProducts(), 2);
  }

  /** Three letters match nothing: an empty answer, not an error, on both servers. */
  lemma EntriesForThreeLetters()
    ensures ListServer(ThreeProducts()).Entries(3) == Success([])
    ensures MapServer(IndexOf(ThreeProducts())).Entries(3) == Success([])
  {
    ThreeProductsThreeLetters();
    ThreeProductsMapServer();
  }

  function FourMatches(): seq<Product> {
    [Product("Pa12", 1.0), Product("Pa234", 2.0), Product("Pa235", 1.0), Product("Pa240", 3.0)]
  }

  lemma FourMatchesDistinct()
    ensures DistinctNames(FourMatches())
  {
  }

  lemma FourMatchesNames()
    ensures MatchEntryName("Pa12", 2) && MatchEntryName("Pa234", 2)
    ensures MatchEntryName("Pa235", 2) && MatchEntryName("Pa240", 2)
  {
  }

  lemma FourMatchesTwoLetters()
    ensures Matching(FourMatches(), 2) == FourMatches()
  {
    MatchingOfFour(Product("Pa12", 1.0), Product("Pa234", 2.0), Product("Pa235", 1.0), Product("Pa240", 3.0), 2);
    FourMatchesNames();
  }

  /** Four matches are one too many, on both servers. */
  lemma TooManyEntries()
    ensures ListServer(FourMatches()).Entries(2) == Failure(TooManyProductsFound)
    ensures MapServer(IndexOf(FourMatches())).Entries(2) == Failure(TooManyProductsFound)
  {
    FourMatchesDistinct();
    FourMatchesTwoLetters();
    BackendsAgree(FourMatches(), 2);
  }

  function TwoProducts(): seq<Product> {
    [Product("PP234", 2.0), Product("PP235", 3.0)]
  }

  /** A client over a server whose query matches between one and three products gets
      their total price. */
  lemma TotalOfFewMatches(s: Server, n: nat, m: seq<Product>)
    requires Matching(s.GetProducts(), n) == m && 0 < |m| <= MaxReturnedEntries
    ensures Client(s).GetTotalPrice(Some(n)) == Some(SumPrices(m))
  {
  }

  /** A client over a server whose query matches no product, or too many, gets no value. */
  lemma NoTotal(s: Server, n: nat, m: seq<Product>)
    requires Matching(s.GetProducts(), n) == m && (|m| == 0 || |m| > MaxReturnedEntries)
    ensures Client(s).GetTotalPrice(Some(n)) == None
  {
  }

  lemma TwoProductsFacts()
    ensures DistinctNames(TwoProducts())
    ensures Matching(TwoProducts(), 2) == TwoProducts()
    ensures SumPrices(TwoProducts()) == 5.0
  {
    MatchingOfTwo(Product("PP234", 2.0), Product("PP235", 3.0), 2);
    assert MatchEntryName("PP234", 2) && MatchEntryName("PP235", 2);
  }

  /** PP234 at 2 and PP235 at 3 total 5. */
  lemma TotalPrice()
    ensures Client(ListServer(TwoProducts())).GetTotalPrice(Some(2)) == Some(5.0)
    ensures Client(MapServer(IndexOf(TwoProducts()))).GetTotalPrice(Some(2)) == Some(5.0)
  {
    var ps := TwoProducts();
    TwoProductsFacts();
    TotalOfFewMatches(ListServer(ps), 2, ps);
    DistinctNamesRoundTrip(ps);
    TotalOfFewMatches(MapServer(IndexOf(ps)), 2, ps);
  }

  function FractionalPrices(): seq<Product> {
    [Product("PP234", 6.5), Product("PP235", 10.3), Product("PP236", 4.5)]
  }

  lemma FractionalPricesNames()
    ensures MatchEntryName("PP234", 2) && MatchEntryName("PP235", 2) && MatchEntryName("PP236", 2)
  {
  }

  lemma FractionalPricesFacts()
    ensures DistinctNames(FractionalPrices())
    ensures Matching(FractionalPrices(), 2) == FractionalPrices()
    ensures SumPrices(FractionalPrices()) == 21.3
  {
    MatchingOfThree(Product("PP234", 6.5), Product("PP235", 10.3), Product("PP236", 4.5), 2);
    FractionalPricesNames();
  }

  /** With exact prices, 6.5 + 10.3 + 4.5 is 21.3, on the list server... */
  lemma TotalFractionalPriceList()
    ensures Client(ListServer(FractionalPrices())).GetTotalPrice(Some(2)) == Some(21.3)
  {
    FractionalPricesFacts();
    TotalOfFewMatches(ListServer(FractionalPrices()), 2, FractionalPrices());
  }

  /** ... and on the map server. */
  lemma TotalFractionalPriceMap()
    ensures Client(MapServer(IndexOf(FractionalPrices()))).GetTotalPrice(Some(2)) == Some(21.3)
  {
    var ps := FractionalPrices();
    FractionalPricesFacts();
    DistinctNamesRoundTrip(ps);
    TotalOfFewMatches(MapServer(IndexOf(ps)), 2, ps);
  }

  function FourTwoLetterNames(): seq<Product> {
    [Product("PP12", 1.0), Product("PP234", 2.0), Product("PP235", 1.0), Product("PP236", 3.0)]
  }

  lemma FourTwoLetterNamesTwo()
    ensures MatchEntryName("PP12", 2) && MatchEntryName("PP234", 2)
    ensures MatchEntryName("PP235", 2) && MatchEntryName("PP236", 2)
  {
  }

  lemma FourTwoLetterNamesThree()
    ensures !MatchEntryName("PP12", 3) && !MatchEntryName("PP234", 3)
    ensures !MatchEntryName("PP235", 3) && !MatchEntryName("PP236", 3)
  {
  }

  lemma FourTwoLetterNamesFacts()
    ensures DistinctNames(FourTwoLetterNames())
    ensures Matching(FourTwoLetterNames(), 2) == FourTwoLetterNames()
  {
    MatchingOfFour(Product("PP12", 1.0), Product("PP234", 2.0), Product("PP235", 1.0), Product("PP236", 3.0), 2);
    FourTwoLetterNamesTwo();
  }

  lemma FourTwoLetterNamesNoneOfThree()
    ensures Matching(FourTwoLetterNames(), 3) == []
  {
    MatchingOfFour(Product("PP12", 1.0), Product("PP234", 2.0), Product("PP235", 1.0), Product("PP236", 3.0), 3);
    FourTwoLetterNamesThree();
  }

  /** No value for three letters: nothing matches. */
  lemma TotalPriceNoneWhenNothingMatches()
    ensures Client(ListServer(FourTwoLetterNames())).GetTotalPrice(Some(3)) == None
    ensures Client(MapServer(IndexOf(FourTwoLetterNames()))).GetTotalPrice(Some(3)) == None
  {
    var ps := FourTwoLetterNames();
    FourTwoLetterNamesFacts();
    FourTwoLetterNamesNoneOfThree();
    NoTotal(ListServer(ps), 3, []);
    DistinctNamesRoundTrip(ps);
    NoTotal(MapServer(IndexOf(ps)), 3, []);
  }

  /** No value for two letters: four products match, one too many, and the error does
      not reach the caller. */
  lemma TotalPriceNoneWhenTooMany()
    ensures Client(ListServer(FourTwoLetterNames())).GetTotalPrice(Some(2)) == None
    ensures Client(MapServer(IndexOf(FourTwoLetterNames()))).GetTotalPrice(Some(2)) == None
  {
    var ps := FourTwoLetterNames();
    FourTwoLetterNamesFacts();
    NoTotal(ListServer(ps), 2, ps);
    DistinctNamesRoundTrip(ps);
    NoTotal(MapServer(IndexOf(ps)), 2, ps);
  }

  lemma IndexOfFirstTwo(a: Product, b: Product)
    requires b.name != a.name
    ensures IndexOf([a, b]) == Dict([a.name, b.name], map[a.name := a, b.name := b])
  {
    IndexOfSnoc([], a);
    assert [] + [a] == [a];
    IndexOfSnoc([a], b);
    assert [a] + [b] == [a, b];
  }

  lemma IndexOfRepeat(a: Product, b: Product, c: Product)
    requires c.name == a.name && b.name != a.name
    ensures IndexOf([a, b, c]) == Dict([a.name, b.name], map[a.name := c, b.name := b])
  {
    var d := IndexOf([a, b]);
    IndexOfFirstTwo(a, b);
    assert Put(d, c) == Dict([a.name, b.name], map[a.name := c, b.name := b]) by {
      assert a.name in d.table;
      assert d.table[a.name := c] == map[a.name := c, b.name := b];
    }
    IndexOfSnoc([a, b], c);
    assert [a, b] + [c] == [a, b, c];
  }

  /** A later product with a repeated name replaces the earlier one, in the earlier one's
      place: [a, b, c] with c named like a gives [c, b]. */
  lemma MapServerReplacesDuplicate(a: Product, b: Product, c: Product)
    requires c.name == a.name && b.name != a.name
    ensures MapServer(IndexOf([a, b, c])).GetProducts() == [c, b]
  {
    IndexOfRepeat(a, b, c);
  }

  /** The instance [a1 at 1, b2 at 2, a1 at 3]: the map server holds a1 at 3, then b2. */
  lemma MapServerReplacesA1()
    ensures MapServer(IndexOf([Product("a1", 1.0), Product("b2", 2.0), Product("a1", 3.0)])).GetProducts()
            == [Product("a1", 3.0), Product("b2", 2.0)]
  {
    MapServerReplacesDuplicate(Product("a1", 1.0), Product("b2", 2.0), Product("a1", 3.0));
  }
}
