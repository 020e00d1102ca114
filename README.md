# Product catalog query core, in Dafny

This project models `servers.py`, a small in-memory product catalog. A **product** is a
name and a price. A name must be one or more ASCII letters followed by one or more ASCII
digits. Two **servers** store products: `ListServer` keeps the list it was given.
`MapServer` files the products in a dictionary keyed by name, so a later product replaces
an earlier one with the same name. Both servers answer one query, `get_entries(n_letters)`.
It keeps the products whose whole name is exactly `n_letters` letters followed by 2 or 3
digits. If more than `n_max_returned_entries = 3` products match, the query fails with
"too many products found". Otherwise it returns the matches sorted by price with a stable
sort. A **client** wraps a server. Its `get_total_price(n_letters)` returns the sum of the
prices of the entries. It returns no value when nothing matches, and also when too many
match, so the too-many error never leaves the client.

Modules, one per component (leaves first):

- `Wrappers` (`wrappers.dfy`): `Option` and `Result`. They stand in for Python's `None` and
  for raised exceptions.
- `Names` (`names.dfy`): hand-written character matchers for the two name patterns.
  `[A-Za-z]+[0-9]+` is the product-name check. `[A-Za-z]{n}[0-9]{2,3}` is the query's full
  match. Each matcher is proved equal to a declarative description of its pattern.
- `Products` (`products.dfy`): the `Product` value, its validating constructor, equality
  and hash.
- `Sorting` (`sorting.dfy`): the stable sort by price (an insertion sort) and the sum of
  prices. A lemma proves that any stable sort by price gives the same answer.
- `NameIndexes` (`nameindex.dfy`): `MapServer`'s dictionary. It is an ordered list of keys
  plus a map. The list records the order of first insertion.
- `Servers` (`servers.dfy`): `Server`, a tagged union `ListServer | MapServer` with a shared
  `GetProducts`. Also the filter `Matching`, the query (`Entries`, and the method
  `GetEntries`, which loops like the source) and `NewMapServer`.
- `Clients` (`clients.dfy`): `Client.GetTotalPrice`.
- `Scenarios` (`scenarios.dfy`): the unit tests' scenarios, proved as lemmas.
- `AsWritten` (`aswritten.dfy`): `get_entries` as the code is written, for the Findings below.

Where the code and its tests disagree, the model follows the tests and the FIXME notes at
servers.py:26-29:
- `Product(name, price)` checks the name and fails with "Incorrect name of product" (the
  constructor at servers.py:10-12 does not check it).
- The query tests each name against the pattern. It returns the sorted list and reports
  too many matches through a `Result`.
- `get_total_price` has the behaviour the tests fix (servers.py:71-72 is only a stub).
  A missing letter count (`None`) means the query's default of 1.
- `Client.__init__` (servers.py:68-69) is a stub that stores nothing. Following the FIXME at
  servers.py:67, `Client` holds its server.

Prices are Dafny `real`s, so sums are exact: 6.5 + 10.3 + 4.5 is exactly 21.3.

## Model

| member | source | states |
|---|---|---|
| `Names.MatchProductName` | servers__test.py:11-22 | the matcher accepts a name exactly when it splits into a non-empty run of ASCII letters followed by a non-empty run of ASCII digits (`[A-Za-z]+[0-9]+` matched in full) |
| `Names.MatchEntryName` | servers.py:39 | the matcher accepts a name exactly when it is n ASCII letters followed by 2 or 3 ASCII digits and nothing else: no partial match, no missed match |
| `Names.EntryNameIsProductName` | servers.py:39 | a name the query matches for n > 0 letters is also a valid product name |
| `Names.EntryLetterCountUnique` | servers.py:39 | a name matches the query pattern for at most one letter count |
| `Names.ZeroLettersMatchNoProductName` | servers.py:39 | no valid product name matches the query for zero letters |
| `Products.NewProduct` | servers.py:10-12 | construction succeeds iff the name is letters then digits, and then keeps name and price unchanged; otherwise it fails with "Incorrect name of product"; the price is never checked |
| `Products.Equals` | servers.py:14-15 | two products are equal iff names and prices are equal, which is structural equality |
| `Products.Hash` | servers.py:17-18 | the hash of a product is the runtime's hash of its (name, price) pair; its companion `EqualProductsHashEqual` shows equal products hash alike |
| `Products.EqualProductsHashEqual` | servers.py:17-18 | equal products have equal hashes, whatever hash the runtime uses for the (name, price) pair |
| `Sorting.SortByPrice` | servers.py:43 | the result is non-decreasing by price, holds every product as often as the input does (a permutation), and has the same total price |
| `Sorting.SortIsStable` | servers.py:43 | for every price, the products with that price keep their order from the input (stability) |
| `Sorting.StableSortUnique` | servers.py:43 | any sequence that is sorted by price and keeps the order within each price equals `SortByPrice` of the input, so the model agrees with every stable sort, `list.sort` included |
| `Sorting.SumPrices` | servers.py:71-72 | the total that `get_total_price` returns; over non-negative prices it is non-negative, and `SortByPrice` keeps it unchanged |
| `NameIndexes.Values` | servers.py:62-63 | the dictionary's values come back in key order, one per key, each filed under its own name |
| `NameIndexes.Put` | servers.py:60 | storing a product under its name replaces the value; a new name goes to the end of the key order, a known name keeps its place |
| `NameIndexes.IndexOf` | servers.py:60 | the dictionary `{el.name: el for el in products}`: at most one key per product, and the last product is always stored under its name; `IndexOfKeys`, `IndexOfLastWins` and `IndexOfFirstOrder` characterise it fully |
| `NameIndexes.IndexOfKeys` | servers.py:60 | the dictionary built from a list has a key for each name in the list and no other key |
| `NameIndexes.IndexOfLastWins` | servers.py:60 | under each name is the last product in the list with that name |
| `NameIndexes.IndexOfFirstOrder` | servers.py:60 | keys are ordered by where their names first occur in the list |
| `NameIndexes.DistinctNamesRoundTrip` | servers.py:60-63 | when no name repeats, the dictionary's values are exactly the list it was built from, in order |
| `Servers.Matching` | servers.py:37-40 | the filter loop: it keeps no more products than the catalog holds, and every product it keeps has a name of exactly n letters then 2 or 3 digits; `MatchingCounts` states that it keeps all of them |
| `Servers.MatchingCounts` | servers.py:37-40 | the filter keeps each product whose whole name matches, as many times as the catalog holds it, and no other product |
| `Servers.MatchingDisjoint` | servers.py:37-40 | queries for different letter counts never pick the same product |
| `Servers.Server.GetProducts` | servers.py:54-63 | `ListServer` returns its list unchanged, duplicates included; `MapServer` returns one product per key, with no name twice |
| `Servers.Server.Entries` | servers.py:35-43 | fails with too-many exactly when more than 3 products match, returning no list; otherwise returns at most 3 entries, sorted by price, a stable permutation of the matches, containing exactly the products whose whole name matches |
| `Servers.Server.GetEntries` | servers.py:35-43 | the loop that collects matches, refuses more than 3 and sorts gives exactly the answer `Entries` specifies |
| `Servers.NewMapServer` | servers.py:59-60 | filling the dictionary one product at a time builds exactly the index `IndexOf` specifies |
| `Servers.MapServerProducts` | servers.py:58-63 | the map server offers one product per name of its input and no other name: the last product with that name, at the place where that name first occurs |
| `Servers.BackendsAgree` | servers__test.py:30-51 | when no two products share a name, the list server and the map server give the same answer to every query, errors included |
| `Servers.ZeroLettersNoEntries` | servers.py:35-43 | over valid products, a query for zero letters returns an empty list, not an error |
| `Clients.Client.GetTotalPrice` | servers.py:71-72 | no letter count means 1; the result is no value iff nothing matches or more than 3 match (the too-many error never escapes); otherwise it is the sum of the prices of the matching products |
| `Scenarios.ProductNameChecks` | servers__test.py:11-22 | "a2" and "Ab11" are accepted; "1b", "11" and "A" fail with "Incorrect name of product" |
| `Scenarios.SameNameAndPriceAreEqual` | servers__test.py:24-27 | two products a1 at 1.2 are equal |
| `Scenarios.EntriesForTwoLetters` | servers__test.py:32-37 | {P12, PP234, PP235} with 2 letters gives [PP235, PP234] on both servers |
| `Scenarios.EntriesForThreeLetters` | servers__test.py:39-44 | the same catalog with 3 letters gives an empty list on both servers |
| `Scenarios.TooManyEntries` | servers__test.py:46-51 | four matching products give the too-many error on both servers |
| `Scenarios.TotalPrice` | servers__test.py:55-60 | PP234 at 2 and PP235 at 3 total 5 on both servers |
| `Scenarios.TotalFractionalPriceList` | servers__test.py:62-67 | 6.5 + 10.3 + 4.5 totals exactly 21.3 on the list server |
| `Scenarios.TotalFractionalPriceMap` | servers__test.py:62-67 | the same total on the map server |
| `Scenarios.TotalPriceNoneWhenNothingMatches` | servers__test.py:69-74 | with 3 letters nothing matches and the total is no value, on both servers |
| `Scenarios.TotalPriceNoneWhenTooMany` | servers__test.py:69-75 | with 2 letters four products match and the total is no value, not an error, on both servers |
| `Scenarios.MapServerReplacesDuplicate` | servers.py:60 | for any products a, b, c where c has the name of a and b another name, the map server built from [a, b, c] holds [c, b]: the later product replaces the earlier one in the earlier one's place |
| `Scenarios.MapServerReplacesA1` | servers.py:60 | [a1 at 1, b2 at 2, a1 at 3] in a map server gives [a1 at 3, b2 at 2] |
| `AsWritten.GetEntriesAsWritten` | servers.py:35-43 | the code as written never returns a list of entries: it raises on any non-empty catalog and returns None on an empty one |
| `AsWritten.AsWrittenRaisesOnTestCatalog` | servers.py:38-39 | on the first server test's catalog the code as written raises, while the corrected query returns [PP235, PP234] |
| `AsWritten.AsWrittenReturnsNoneOnEmptyCatalog` | servers.py:43 | on an empty catalog the code as written returns None, while the corrected query returns the empty list |

## Left out

- The `re` module: both patterns are hand-written matchers over characters. Regular
  expression compilation is not modelled. So the model does not reproduce `re`'s
  OverflowError ("the repetition number is too large") for a letter count of 2^32 - 1
  or more: there, the model simply finds no matching name.
- Negative letter counts: the letter count is a `nat`. For a negative count, Python's regex
  would read `{-1}` as literal text, which no valid product name contains.
- Floating-point prices: prices are exact reals. IEEE rounding of the 21.3 test is not
  reproduced.
- Python's exceptions, `ABC`/`abstractmethod` and `NotImplementedError`: errors are
  `Result`/`Option` values, and the abstract `Server` is a tagged union. The non-exception
  class `TooManyProductsFoundError` becomes the error value `TooManyProductsFound`.
- Dictionary hashing internals: `MapServer` storage is a key order plus a map. It captures
  first-insertion order and nothing more. `Products.Hash` takes the runtime's tuple hash as
  a parameter.
- `list.sort` (Timsort) is modelled by a functional stable insertion sort. The in-place
  update is not modelled, since the list is a local of `get_entries` and nothing else
  holds it. `Sorting.StableSortUnique` shows that every stable sort gives the same result.
- `get_entries`'s default argument: Dafny parameters carry no default here. The constant
  `Servers.DefaultLetters` (1) is the default, and `Client.GetTotalPrice` uses it when no
  letter count is given.
- The `unittest` harness and `Counter`: the test scenarios are lemmas. "Same `Counter`" is
  stated as equality of the entry lists, which is stronger.

## Findings

| source | as written | input that shows it | evidently intended | confidence | as-written member | corrected member |
|---|---|---|---|---|---|---|
| servers.py:39 | `re.fullmatch(pattern)` is called without the string to match, and its result is compared with the name | any non-empty catalog, e.g. [P12, PP234, PP235] with 2 letters: the first iteration raises TypeError | `re.fullmatch(pattern, el.name)` tested for a match | high; not executed | `AsWritten.AsWrittenRaisesOnTestCatalog` | `Servers.Server.Entries` |
| servers.py:43 | `return result.sort(key=...)` returns the value of `list.sort`, which is None | an empty catalog: `get_entries(1)` returns None instead of [] | sort `result`, then return it | high; not executed | `AsWritten.AsWrittenReturnsNoneOnEmptyCatalog` | `Servers.Server.Entries` |
