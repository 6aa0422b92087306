/**
 * The quote list of the plain page script: an in-memory list only, with no
 * storage and no category filter.
 */
module BasicGenerator {
  import opened Wrappers
  import opened Text
  import opened Quotes

  /** The list the page starts with. */
  const Seed: seq<Quote> := [
    Quote("The best way to get started is to quit talking and begin doing.", "Motivation"),
    Quote("Success is not in what you have, but who you are.", "Success"),
    Quote("Life is what happens when you're busy making other plans.", "Life")
  ]

  class QuoteList {
    var quotes: seq<Quote>

    /** The page starts with the three seed quotes, each complete. */
    constructor ()
      ensures quotes == Seed
      ensures |quotes| == 3 && AllComplete(quotes)
    {
      quotes := Seed;
    }

    /**
     * `showRandomQuote` with `Math.random()` given as `r`: nothing for an
     * empty list, otherwise a quote of the list.
     */
    method ShowRandomQuote(r: real) returns (shown: Option<Quote>)
      requires 0.0 <= r < 1.0
      ensures shown == Pick(quotes, r)
      ensures shown.None? <==> quotes == []
      ensures shown.Some? ==> shown.value in quotes
    {
      if |quotes| == 0 {
        return None;
      }
      var index := RandomIndex(r, |quotes|);
      shown := Some(quotes[index]);
    }

    /**
     * `addQuote`: trim both inputs; when either is empty nothing changes,
     * otherwise the quote goes last.
     */
    method AddQuote(textInput: string, categoryInput: string) returns (added: bool)
      modifies this`quotes
      ensures added <==> !AllWhitespace(textInput) && !AllWhitespace(categoryInput)
      ensures added ==> quotes == old(quotes) + [Quote(Trim(textInput), Trim(categoryInput))]
      ensures !added ==> quotes == old(quotes)
      ensures AllComplete(old(quotes)) ==> AllComplete(quotes)
    {
      var quote := NewQuote(textInput, categoryInput);
      if quote.None? {
        return false;
      }
      quotes := quotes + [quote.value];
      added := true;
    }
  }
}
