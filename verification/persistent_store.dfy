/**
 * The quote list of the storage-backed page script: the list lives in memory
 * and is mirrored into a durable key-value store under the keys "quotes"
 * and "selectedCategory". The store's two entries are fields of the object;
 * the stored list is the sequence itself (its JSON text is not modelled).
 */
module PersistentStore {
  import opened Wrappers
  import opened Text
  import opened Quotes

  /** The list used when nothing is stored under "quotes". */
  const Seed: seq<Quote> := [
    Quote("The best way to predict the future is to invent it.", "Inspiration"),
    Quote("Life is 10% what happens to us and 90% how we react to it.", "Life"),
    Quote("Do not pray for an easy life, pray for the strength to endure a difficult one.", "Strength")
  ]

  lemma SeedComplete()
    ensures |Seed| == 3 && AllComplete(Seed)
  {
  }

  /** The list start-up builds from the durable "quotes" entry: `JSON.parse(entry) || Seed`. */
  function Loaded(entry: Option<seq<Quote>>): seq<Quote> {
    if entry.None? then Seed else entry.value
  }

  class QuoteStore {
    /** The in-memory list `quotes`. */
    var quotes: seq<Quote>
    /** The durable "quotes" entry; `None` when nothing has been saved. */
    var stored: Option<seq<Quote>>
    /** The durable "selectedCategory" entry. */
    var selectedCategory: Option<string>

    /**
     * Reloading the page would give back the list in memory: the durable copy
     * is the in-memory list, or, while nothing has been saved, the list is
     * still the seed.
     */
    predicate Synced()
      reads this
    {
      quotes == Loaded(stored)
    }

    /**
     * Start-up: the stored list when there is one (even an empty one), the
     * seed otherwise. Loading writes nothing back.
     */
    constructor Load(storedQuotes: Option<seq<Quote>>, storedCategory: Option<string>)
      ensures storedQuotes.None? ==> quotes == Seed
      ensures storedQuotes.Some? ==> quotes == storedQuotes.value
      ensures stored == storedQuotes && selectedCategory == storedCategory
      ensures Synced()
      ensures (storedQuotes.None? || AllComplete(storedQuotes.value)) ==> AllComplete(quotes)
    {
      quotes := Loaded(storedQuotes);
      stored := storedQuotes;
      selectedCategory := storedCategory;
    }

    /** `saveQuotes`: overwrite the durable copy with the in-memory list. */
    method SaveQuotes()
      modifies this`stored
      ensures stored == Some(quotes)
      ensures Synced()
    {
      stored := Some(quotes);
    }

    /**
     * `addQuote`: trim both inputs; when either is empty nothing changes,
     * otherwise the quote goes last and the list is saved.
     */
    method AddQuote(textInput: string, categoryInput: string) returns (added: bool)
      modifies this`quotes, this`stored
      ensures added <==> !AllWhitespace(textInput) && !AllWhitespace(categoryInput)
      ensures added ==> quotes == old(quotes) + [Quote(Trim(textInput), Trim(categoryInput))]
      ensures added ==> stored == Some(quotes)
      ensures !added ==> quotes == old(quotes) && stored == old(stored)
      ensures old(Synced()) ==> Synced()
      ensures AllComplete(old(quotes)) ==> AllComplete(quotes)
    {
      var quote := NewQuote(textInput, categoryInput);
      if quote.None? {
        return false;
      }
      quotes := quotes + [quote.value];
      SaveQuotes();
      added := true;
    }

    /** The selection `showRandomQuote` reads from the durable store. */
    function CurrentSelection(): (category: string)
      reads this
      ensures category != ""
      ensures selectedCategory.Some? && selectedCategory.value != "" ==> category == selectedCategory.value
      ensures selectedCategory.None? || selectedCategory.value == "" ==> category == All
    {
      Selection(selectedCategory)
    }

    /**
     * `showRandomQuote` with `Math.random()` given as `r`: nothing when no
     * quote matches the selection, otherwise a quote of the list that
     * matches it (any quote for "all").
     */
    method ShowRandomQuote(r: real) returns (shown: Option<Quote>)
      requires 0.0 <= r < 1.0
      ensures shown == Pick(Working(quotes, CurrentSelection()), r)
      ensures shown.None? <==> Working(quotes, CurrentSelection()) == []
      ensures shown.Some? ==> shown.value in quotes
      ensures shown.Some? && CurrentSelection() != All ==> shown.value.category == CurrentSelection()
    {
      var filtered := Working(quotes, CurrentSelection());
      if |filtered| == 0 {
        return None;
      }
      var index := RandomIndex(r, |filtered|);
      shown := Some(filtered[index]);
    }

    /**
     * `filterQuotes`: store the chosen option as the selection, then show a
     * quote under it.
     */
    method FilterQuotes(selected: string, r: real) returns (shown: Option<Quote>)
      requires 0.0 <= r < 1.0
      modifies this`selectedCategory
      ensures selectedCategory == Some(selected)
      ensures shown == Pick(Working(quotes, Selection(Some(selected))), r)
    {
      selectedCategory := Some(selected);
      shown := ShowRandomQuote(r);
    }
  }
}
