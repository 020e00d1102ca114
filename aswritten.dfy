/** `get_entries` exactly as the repository writes it, kept beside the corrected
    `Server.Entries` to show where the two part. As written, the loop calls
    `re.fullmatch(pattern)` without the string to match, which raises a TypeError as soon
    as there is a product to look at; and the last line returns the value of
    `list.sort`, which is None. */
module AsWritten {
  import opened Wrappers
  import opened Products
  import opened Servers
  import opened Scenarios

  /** What Python raises on the way. */
  datatype Raised = FullmatchMissingString

  /** `get_entries(n)` as written: an exception from the first loop iteration, or else
      (no products at all) the None that `list.sort` returns. */
  function GetEntriesAsWritten(s: Server, n: nat): (r: Result<Option<seq<Product>>, Raised>)
    ensures r.Success? ==> r.value.None?
  {
    if s.GetProducts() != [] then Failure(FullmatchMissingString)
    else Success(None)
  }

  /** The first server test: as written it raises; corrected it returns PP235 and PP234. */
  lemma AsWrittenRaisesOnTestCatalog()
    ensures GetEntriesAsWritten(ListServer(ThreeProducts()), 2) == Failure(FullmatchMissingString)
    ensures ListServer(ThreeProducts()).Entries(2) == Success([Product("PP235", 1.0), Product("PP234", 2.0)])
  {
    EntriesForTwoLetters();
  }

  /** An empty catalog: as written the answer is None; corrected it is the empty list. */
  lemma AsWrittenReturnsNoneOnEmptyCatalog(n: nat)
    ensures GetEntriesAsWritten(ListServer([]), n) == Success(None)
    ensures ListServer([]).Entries(n) == Success([])
  {
  }
}
