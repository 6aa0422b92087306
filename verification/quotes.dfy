/**
 * The quote list logic shared by both page scripts, with the DOM stripped
 * away: the quote record, the validation step of adding a quote, the
 * category filter, the category option list and the random pick.
 */
module Quotes {
  import opened Wrappers
  import opened Text

  /** A quote record `{text, category}`; equality is structural. */
  datatype Quote = Quote(text: string, category: string)

  /** The sentinel selection meaning "every category". */
  const All: string := "all"

  predicate Complete(q: Quote) {
    q.text != "" && q.category != ""
  }

  /** Every quote has non-empty text and category. */
  predicate AllComplete(qs: seq<Quote>) {
    forall i :: 0 <= i < |qs| ==> Complete(qs[i])
  }

  // ---------------------------------------------------------------- adding

  /**
   * The validate step of `addQuote`: both inputs are trimmed, and the quote
   * is refused when either trims to the empty string, that is, when either
   * input is nothing but whitespace.
   */
  function NewQuote(textInput: string, categoryInput: string): (r: Option<Quote>)
    ensures r.Some? <==> !AllWhitespace(textInput) && !AllWhitespace(categoryInput)
    ensures r.Some? ==> Complete(r.value) && Unpadded(r.value.text) && Unpadded(r.value.category)
    ensures r.Some? ==> r.value == Quote(Trim(textInput), Trim(categoryInput))
  {
    var text := Trim(textInput);
    var category := Trim(categoryInput);
    if text == "" || category == "" then None else Some(Quote(text, category))
  }

  /** A validated quote is already trimmed: validating its own fields again accepts it unchanged. */
  lemma NewQuoteStable(textInput: string, categoryInput: string)
    requires NewQuote(textInput, categoryInput).Some?
    ensures var q := NewQuote(textInput, categoryInput).value;
            NewQuote(q.text, q.category) == Some(q)
  {
  }

  /** Appending only validated quotes keeps every quote complete. */
  lemma AppendKeepsComplete(qs: seq<Quote>, textInput: string, categoryInput: string)
    requires AllComplete(qs)
    requires NewQuote(textInput, categoryInput).Some?
    ensures AllComplete(qs + [NewQuote(textInput, categoryInput).value])
  {
  }

  // -------------------------------------------------------------- filtering

  /** `quotes.filter(q => q.category === category)`. */
  function ByCategory(qs: seq<Quote>, category: string): (r: seq<Quote>)
    ensures |r| <= |qs|
    ensures forall q :: q in r <==> q in qs && q.category == category
  {
    if qs == [] then []
    else (if qs[0].category == category then [qs[0]] else []) + ByCategory(qs[1..], category)
  }

  /** Filtering distributes over concatenation, so it keeps the original relative order. */
  lemma {:induction false} ByCategoryConcat(a: seq<Quote>, b: seq<Quote>, category: string)
    ensures ByCategory(a + b, category) == ByCategory(a, category) + ByCategory(b, category)
  {
    if a == [] {
      assert a + b == b;
    } else {
      assert (a + b)[1..] == a[1..] + b;
      ByCategoryConcat(a[1..], b, category);
    }
  }

  /** Every matching quote is kept as many times as it occurs, every other one is dropped. */
  lemma {:induction false} ByCategoryCount(qs: seq<Quote>, category: string, q: Quote)
    ensures multiset(ByCategory(qs, category))[q]
            == if q.category == category then multiset(qs)[q] else 0
  {
    if qs != [] {
      ByCategoryCount(qs[1..], category, q);
      assert qs == [qs[0]] + qs[1..];
      assert multiset(qs) == multiset([qs[0]]) + multiset(qs[1..]);
    }
  }

  /** Filtering after an append filters the old list and keeps the new quote iff it matches. */
  lemma ByCategoryAppend(qs: seq<Quote>, q: Quote, category: string)
    ensures ByCategory(qs + [q], category)
            == ByCategory(qs, category) + (if q.category == category then [q] else [])
  {
    ByCategoryConcat(qs, [q], category);
    assert ByCategory([q], category) == (if q.category == category then [q] else []) + ByCategory([], category);
  }

  /**
   * The selection `showRandomQuote` uses: the stored value, or `"all"` when
   * nothing is stored or the stored value is the empty string (JavaScript's
   * `|| "all"` treats both as missing).
   */
  function Selection(stored: Option<string>): (category: string)
    ensures category != ""
    ensures stored.Some? && stored.value != "" ==> category == stored.value
    ensures stored.None? || stored.value == "" ==> category == All
  {
    if stored.None? || stored.value == "" then All else stored.value
  }

  /** The working list for a selection: the whole list for `"all"`, otherwise the filtered one. */
  function Working(qs: seq<Quote>, category: string): (r: seq<Quote>)
    ensures forall q :: q in r <==> q in qs && (category == All || q.category == category)
    ensures category == All ==> r == qs
    ensures category != All ==> r == ByCategory(qs, category)
  {
    if category == All then qs else ByCategory(qs, category)
  }

  /** After an append, the working list is the old one plus the new quote iff the selection admits it. */
  lemma WorkingAppend(qs: seq<Quote>, q: Quote, category: string)
    ensures Working(qs + [q], category)
            == Working(qs, category) + (if category == All || q.category == category then [q] else [])
  {
    if category != All {
      ByCategoryAppend(qs, q, category);
    }
  }

  // ------------------------------------------------------------- categories

  /** Some quote of `qs` is filed under `category`. */
  predicate HasCategory(qs: seq<Quote>, category: string) {
    exists q :: q in qs && q.category == category
  }

  /** `quotes.map(q => q.category)`. */
  function CategoriesOf(qs: seq<Quote>): (cs: seq<string>)
    ensures |cs| == |qs|
    ensures forall i :: 0 <= i < |qs| ==> cs[i] == qs[i].category
  {
    if qs == [] then [] else [qs[0].category] + CategoriesOf(qs[1..])
  }

  predicate NoDuplicates(xs: seq<string>) {
    forall i, j :: 0 <= i < j < |xs| ==> xs[i] != xs[j]
  }

  /** Position of the first occurrence of `x` in `xs`. */
  function FirstIndex(xs: seq<string>, x: string): (k: nat)
    requires x in xs
    ensures k < |xs| && xs[k] == x && x !in xs[..k]
  {
    if xs[0] == x then 0
    else
      var k := FirstIndex(xs[1..], x);
      assert xs[..k + 1] == [xs[0]] + xs[1..][..k];
      k + 1
  }

  /** `[...new Set(xs)]`: the distinct values of `xs`, each kept where it first appears. */
  function Distinct(xs: seq<string>): (d: seq<string>)
    ensures forall x {:trigger x in d} :: x in d <==> x in xs
    ensures NoDuplicates(d)
  {
    if xs == [] then []
    else
      var d := Distinct(xs[..|xs| - 1]);
      var x := xs[|xs| - 1];
      assert xs == xs[..|xs| - 1] + [x];
      if x in d then d else d + [x]
  }

  lemma FirstIndexExtend(xs: seq<string>, y: string, z: string)
    requires y in xs
    ensures FirstIndex(xs + [z], y) == FirstIndex(xs, y)
  {
    var k := FirstIndex(xs, y);
    var k' := FirstIndex(xs + [z], y);
    assert (xs + [z])[..k] == xs[..k];
    assert (xs + [z])[k] == y;
  }

  /** The distinct values come out in the order of their first occurrence. */
  lemma {:induction false} DistinctFirstOccurrenceOrder(xs: seq<string>, i: nat, j: nat)
    requires i < j < |Distinct(xs)|
    ensures Distinct(xs)[i] in xs && Distinct(xs)[j] in xs
    ensures FirstIndex(xs, Distinct(xs)[i]) < FirstIndex(xs, Distinct(xs)[j])
    decreases |xs|
  {
    var p := xs[..|xs| - 1];
    var x := xs[|xs| - 1];
    var d := Distinct(p);
    assert xs == p + [x];
    assert Distinct(xs)[i] in Distinct(xs) && Distinct(xs)[j] in Distinct(xs);
    assert Distinct(xs)[i] in d;
    FirstIndexExtend(p, Distinct(xs)[i], x);
    if j < |d| {
      DistinctFirstOccurrenceOrder(p, i, j);
      FirstIndexExtend(p, Distinct(xs)[j], x);
    } else {
      assert Distinct(xs)[j] == x && x !in p;
      assert forall k :: 0 <= k < |p| ==> xs[k] == p[k];
      assert FirstIndex(xs, x) == |p|;
    }
  }

  /** `["all", ...new Set(quotes.map(q => q.category))]`, the options of the category filter. */
  function CategoryList(qs: seq<Quote>): (r: seq<string>)
    ensures |r| >= 1 && r[0] == All
    ensures forall c :: c in r[1..] <==> HasCategory(qs, c)
    ensures NoDuplicates(r[1..])
  {
    var cs := CategoriesOf(qs);
    assert forall c :: c in cs <==> HasCategory(qs, c) by {
      forall c ensures c in cs <==> HasCategory(qs, c) {
        if c in cs {
          var i :| 0 <= i < |cs| && cs[i] == c;
          assert qs[i] in qs;
        }
        if HasCategory(qs, c) {
          var q :| q in qs && q.category == c;
          var i :| 0 <= i < |qs| && qs[i] == q;
          assert cs[i] == c;
        }
      }
    }
    var r := [All] + Distinct(cs);
    assert r[1..] == Distinct(cs);
    r
  }

  /** After `"all"`, the categories appear in the order in which quotes first use them. */
  lemma CategoryListOrder(qs: seq<Quote>, i: nat, j: nat)
    requires 1 <= i < j < |CategoryList(qs)|
    ensures CategoryList(qs)[i] in CategoriesOf(qs) && CategoryList(qs)[j] in CategoriesOf(qs)
    ensures FirstIndex(CategoriesOf(qs), CategoryList(qs)[i]) < FirstIndex(CategoriesOf(qs), CategoryList(qs)[j])
  {
    var cs := CategoriesOf(qs);
    var d := Distinct(cs);
    var r := CategoryList(qs);
    assert r[i] == d[i - 1] && r[j] == d[j - 1] by { assert r == [All] + d; }
    DistinctFirstOccurrenceOrder(cs, i - 1, j - 1);
    assert FirstIndex(cs, r[i]) == FirstIndex(cs, d[i - 1]);
    assert FirstIndex(cs, r[j]) == FirstIndex(cs, d[j - 1]);
  }

  /** `"all"` is not de-duplicated against the categories: a quote filed under "all" makes it appear twice. */
  lemma AllMayRepeat()
    ensures CategoryList([Quote("x", All)]) == [All, All]
  {
    assert CategoriesOf([Quote("x", All)]) == [All];
    assert [All][..0] == [];
    assert Distinct([All]) == [All];
  }

  /**
   * For any selection other than `"all"`, the working list is non-empty
   * exactly when the selection is one of the offered categories; `"all"`
   * yields a quote whenever there is one.
   */
  lemma WorkingNonEmptyIffOffered(qs: seq<Quote>, category: string)
    ensures category == All ==> (Working(qs, category) != [] <==> qs != [])
    ensures category != All ==> (Working(qs, category) != [] <==> category in CategoryList(qs))
  {
    if category != All {
      var r := CategoryList(qs);
      assert r == [r[0]] + r[1..];
      if category in r {
        assert category in r[1..];
        var q :| q in qs && q.category == category;
        assert q in ByCategory(qs, category);
      }
      if Working(qs, category) != [] {
        var q := Working(qs, category)[0];
        assert q in qs && q.category == category;
        assert category in r[1..];
      }
    }
  }

  // ----------------------------------------------------------------- random

  /** `Math.floor(r * n)` for `r = Math.random()`, which lies in [0, 1). */
  function RandomIndex(r: real, n: nat): (i: nat)
    requires 0.0 <= r < 1.0 && 0 < n
    ensures i < n
  {
    var x := r * n as real;
    assert x < n as real by { assert x == r * n as real < 1.0 * n as real; }
    x.Floor
  }

  /** Every index can come out: `r = i / n` picks index `i`. */
  lemma RandomIndexReaches(i: nat, n: nat)
    requires i < n
    ensures 0.0 <= i as real / n as real < 1.0
    ensures RandomIndex(i as real / n as real, n) == i
  {
  }

  /** The pick of `showRandomQuote`: no quote for an empty working list, else the one at the random index. */
  function Pick(working: seq<Quote>, r: real): (q: Option<Quote>)
    requires 0.0 <= r < 1.0
    ensures q.None? <==> working == []
    ensures q.Some? ==> q.value in working
  {
    if working == [] then None else Some(working[RandomIndex(r, |working|)])
  }

  /** What a pick from the working list of a selection can be: a quote of the list, of the selected category. */
  lemma PickFromSelection(qs: seq<Quote>, category: string, r: real)
    requires 0.0 <= r < 1.0
    ensures Pick(Working(qs, category), r).None? <==> Working(qs, category) == []
    ensures Pick(Working(qs, category), r).Some? ==>
              var q := Pick(Working(qs, category), r).value;
              q in qs && (category != All ==> q.category == category)
  {
  }
}
