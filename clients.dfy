/** The client facade: the total price of a query's entries, with "no value" both for an
    empty answer and for an answer with too many entries. */
module Clients {
  import opened Wrappers
  import opened Products
  import opened Sorting
  import opened Servers

  datatype Client = Client(server: Server) {

    /** `get_total_price(n_letters)`: no letter count means the default of `get_entries`;
        the too-many error is absorbed into "no value" and never reaches the caller. */
    function GetTotalPrice(nLetters: Option<nat>): (r: Option<real>)
      ensures var n := if nLetters.Some? then nLetters.value else DefaultLetters;
              var m := Matching(server.GetProducts(), n);
              && (r.None? <==> |m| == 0 || |m| > MaxReturnedEntries)
              && (r.Some? ==> r.value == SumPrices(m))
    {
      var n := if nLetters.Some? then nLetters.value else DefaultLetters;
      match server.Entries(n)
      case Failure(_) => None
      case Success(entries) =>
        assert |entries| == |multiset(entries)|;
        if entries == [] then None else Some(SumPrices(entries))
    }
  }
}
