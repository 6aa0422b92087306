# Dynamic Quote Generator — a verified model of the quote list

The repository holds two page scripts for a "Dynamic Quote Generator". Each keeps
an in-memory list of quotes, where a quote is a record `{text, category}`. The
user can show a random quote and add a quote through a form.

- `script.js` is the plain version. It has a three-quote seed, a random pick over
  the whole list, and a validated append.
- `dom-manipulation/script.js` is the storage-backed version. It loads the list
  from the browser's durable key-value store, or falls back to its own
  three-quote seed. It saves the list after every add. It offers a category
  filter made of `"all"` followed by the distinct categories. It stores the
  chosen filter under `"selectedCategory"`, and the random pick is drawn from
  the filtered list.

The model strips out the DOM and keeps the list logic:

- `wrappers.dfy`: `Option`, standing for a value that may be absent (`null`).
- `text.dfy` (module `Text`): `String.prototype.trim` over a fixed whitespace
  predicate. `Trim` is characterised by its contract and by `TrimOfPadded`:
  trimming a padded, unpadded core gives the core back.
- `quotes.dfy` (module `Quotes`): the parts both scripts share, as functions.
  These are the quote record, the validation step of `addQuote` (`NewQuote`),
  the category filter (`ByCategory`, `Working`), the `|| "all"` selection
  default (`Selection`), the filter options `["all", ...new Set(categories)]`
  (`CategoryList`, `Distinct`), and the random pick `Math.floor(Math.random() * n)`
  (`RandomIndex`, `Pick`).
- `persistent_store.dfy` (module `PersistentStore`): class `QuoteStore` for
  `dom-manipulation/script.js`. Its fields are the in-memory list `quotes`, the
  durable `"quotes"` entry `stored`, and the durable `"selectedCategory"` entry.
  Its methods are `Load` (start-up), `SaveQuotes`, `AddQuote`, `ShowRandomQuote`
  and `FilterQuotes`. Every method keeps `Synced()`: reloading the page would give
  back the list in memory (the durable copy when one exists, else the seed).
- `basic_generator.dfy` (module `BasicGenerator`): class `QuoteList` for
  `script.js`, with its seed constructor, `ShowRandomQuote` and `AddQuote`.

`Math.random()` is a parameter `r` of the pick. The model requires
`0.0 <= r < 1.0`, which is what `Math.random` guarantees. It is a Dafny `real`,
and the index is `(r * n).Floor`. `RandomIndexReaches` shows that every index
can come out.

Edge cases of the storage-backed script that the model keeps:

- Load: only a missing `"quotes"` entry falls back to the seed. A stored empty
  list is kept as the empty list, because `[]` is truthy in JavaScript
  (`JSON.parse(...) || seed`). `Load` models exactly that.
- Stale selection: a stored selection that matches no current category is
  still used as the filter, and no quote is shown.
  `WorkingNonEmptyIffOffered` states this: a selection other than `"all"`
  yields a quote exactly when it is among the offered categories.
- Empty selection: `localStorage.getItem("selectedCategory") || "all"` treats a
  stored empty string like a missing entry, as `"all"`. `Selection` models this.

## Model

| member | source | states |
|---|---|---|
| Text.Trim | dom-manipulation/script.js:35-36 | the trimmed string is the infix left after cutting whitespace from both ends; both cut parts are all whitespace; neither end of the result is whitespace; the result is empty exactly when the input is all whitespace |
| Text.TrimStart | script.js:22-23 | the result is a suffix of the input, everything cut is whitespace, and it does not start with whitespace |
| Text.TrimEnd | script.js:22-23 | the result is a prefix of the input, everything cut is whitespace, and it does not end with whitespace |
| Text.TrimOfPadded | script.js:22-23 | reference characterisation: whitespace + an unpadded core + whitespace trims to exactly that core |
| Text.TrimIdempotent | dom-manipulation/script.js:35-36 | trimming a trimmed string changes nothing |
| Quotes.NewQuote | dom-manipulation/script.js:35-41 | an add is accepted exactly when neither input is all whitespace; an accepted quote is `{trim(text), trim(category)}`, has non-empty fields and no edge whitespace |
| Quotes.NewQuoteStable | dom-manipulation/script.js:35-43 | a stored quote re-validated from its own fields is accepted unchanged |
| Quotes.AppendKeepsComplete | dom-manipulation/script.js:38-43 | appending a validated quote keeps every quote's text and category non-empty |
| Quotes.ByCategory | dom-manipulation/script.js:18 | the filtered list holds exactly the quotes of the list with the selected category, and is no longer than the list |
| Quotes.ByCategoryConcat | dom-manipulation/script.js:18 | filtering distributes over concatenation, so the kept quotes stay in their original relative order |
| Quotes.ByCategoryCount | dom-manipulation/script.js:18 | each matching quote is kept as often as it occurs, every other quote is dropped |
| Quotes.ByCategoryAppend | dom-manipulation/script.js:18 | after an append, the filter is the old filter plus the new quote iff its category matches |
| Quotes.Selection | dom-manipulation/script.js:17 | the effective selection is never empty; it is the stored value when that is non-empty, otherwise `"all"` |
| Quotes.Working | dom-manipulation/script.js:18 | the working list holds exactly the quotes of the list that match the selection; for `"all"` it is the list itself, in order and with duplicates, otherwise the category filter |
| Quotes.WorkingAppend | dom-manipulation/script.js:18 | after an append, the working list is the old one plus the new quote exactly when the selection is `"all"` or the quote's category |
| Quotes.CategoriesOf | dom-manipulation/script.js:80 | the mapped list has one category per quote, position by position |
| Quotes.Distinct | dom-manipulation/script.js:80 | the set-spread holds exactly the values of its input, each once |
| Quotes.DistinctFirstOccurrenceOrder | dom-manipulation/script.js:80 | the distinct values appear in the order of their first occurrence in the input |
| Quotes.CategoryList | dom-manipulation/script.js:80 | the option list starts with `"all"`, and after it holds every category used by some quote, each once, and nothing else |
| Quotes.CategoryListOrder | dom-manipulation/script.js:80 | after `"all"`, the categories appear in the order in which quotes first use them |
| Quotes.AllMayRepeat | dom-manipulation/script.js:80 | `"all"` is not de-duplicated against the categories: a quote filed under `"all"` gives `["all", "all"]` |
| Quotes.WorkingNonEmptyIffOffered | dom-manipulation/script.js:17-23 | `"all"` yields a quote iff the list is non-empty; any other selection yields a quote iff it is one of the offered categories |
| Quotes.RandomIndex | dom-manipulation/script.js:25 | for `0 <= r < 1` and a non-empty list, `floor(r * n)` is a valid index |
| Quotes.RandomIndexReaches | script.js:14 | every index `i < n` is produced by some `r` in `[0, 1)` |
| Quotes.Pick | dom-manipulation/script.js:20-26 | no quote exactly when the working list is empty, otherwise a member of it |
| Quotes.PickFromSelection | dom-manipulation/script.js:17-26 | a picked quote is in the list and, unless the selection is `"all"`, has the selected category; nothing is picked iff nothing matches |
| PersistentStore.SeedComplete | dom-manipulation/script.js:4-8 | the fallback seed has three quotes, all with non-empty fields |
| PersistentStore.QuoteStore.Load | dom-manipulation/script.js:4-8 | at start-up the list is the stored list when one is present (even empty), else exactly the seed; the store is untouched, and reloading would give back the list in memory |
| PersistentStore.QuoteStore.SaveQuotes | dom-manipulation/script.js:11-13 | the durable copy becomes the in-memory list |
| PersistentStore.QuoteStore.AddQuote | dom-manipulation/script.js:31-44 | accepted iff neither input is all whitespace; if accepted, the list is the old list plus `{trim(text), trim(category)}` and the durable copy equals the new list; if rejected, neither list nor durable copy changes; keeps the durable entry such that reloading gives back the list in memory, and keeps all quotes complete |
| PersistentStore.QuoteStore.CurrentSelection | dom-manipulation/script.js:17 | the selection read from the store is the stored value when that is non-empty, and `"all"` when nothing or the empty string is stored |
| PersistentStore.QuoteStore.ShowRandomQuote | dom-manipulation/script.js:16-28 | shows nothing iff no quote matches the stored selection; otherwise a quote of the list with the selected category (any for `"all"`), the one at the random index of the working list |
| PersistentStore.QuoteStore.FilterQuotes | dom-manipulation/script.js:88-92 | the chosen option becomes the stored selection, and the quote shown is picked from the list filtered by it |
| BasicGenerator.QuoteList.constructor | script.js:2-6 | the list starts as the three seed quotes, each with non-empty text and category |
| BasicGenerator.QuoteList.ShowRandomQuote | script.js:9-18 | shows nothing iff the list is empty, otherwise a quote of the list at the random index |
| BasicGenerator.QuoteList.AddQuote | script.js:21-31 | accepted iff neither input is all whitespace; if accepted, the list is the old list plus `{trim(text), trim(category)}`; if rejected, it is unchanged; all quotes stay complete |

## Left out

- DOM work is left out because it is presentation only. This covers the display text, the form built by `createAddQuoteForm`, the `<option>` markup and its `selected` marking, clearing the inputs, and the `DOMContentLoaded` wiring.
- `alert` dialogs are left out. They only notify the user. The result `added` of `AddQuote` says which one would be shown.
- `localStorage` is a pair of fields. `JSON.parse` and `JSON.stringify` are not modelled: the stored value is the sequence itself. So malformed stored text is not modelled. On such text the script's `JSON.parse` would throw.
- Quotes.RandomIndex: `Math.random() * n` is computed on reals, not IEEE doubles. Floating-point rounding of the product is not modelled.
- Text.Trim: whitespace is a fixed set of characters (ASCII spaces, tabs and line breaks, no-break space, byte order mark, the two Unicode line and paragraph separators). The other Unicode space separators that JavaScript's `trim` also removes are not in it.
- The populate step of `addQuote` (dom-manipulation/script.js:45) only redraws the option list. Its content is `CategoryList` of the new list, and `ByCategoryAppend` says how the filter changes.
- Import, export and remote sync do not appear in either script, so they are not modelled.
