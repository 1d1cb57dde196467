/** The free-text search over names and companies, and the choice between
    search results and filtered results. */
module Searching {
  import opened Results
  import opened Catalog
  import opened Seqs
  import opened Filtering

  // ---------------------------------------------------------------------
  // Trimming the query

  /** The ASCII characters that `str.strip()` removes: tab, line feed,
      vertical tab, form feed, carriage return, the four information
      separators 0x1C-0x1F, and space. */
  predicate IsSpace(c: char) {
    (9 <= c as int <= 13) || (28 <= c as int <= 32)
  }

  /** `s` without its leading whitespace. */
  function LStrip(s: string): (r: string)
    ensures |r| <= |s| && r == s[|s| - |r|..]
    ensures forall k :: 0 <= k < |s| - |r| ==> IsSpace(s[k])
    ensures r == [] || !IsSpace(r[0])
  {
    if s != [] && IsSpace(s[0]) then LStrip(s[1..]) else s
  }

  /** `s` without its trailing whitespace. */
  function RStrip(s: string): (r: string)
    ensures |r| <= |s| && r == s[..|r|]
    ensures forall k :: |r| <= k < |s| ==> IsSpace(s[k])
    ensures r == [] || !IsSpace(r[|r| - 1])
  {
    if s != [] && IsSpace(s[|s| - 1]) then RStrip(s[..|s| - 1]) else s
  }

  /** `r` is the slice of `s` starting at `i`, and everything of `s`
      outside that slice is whitespace. */
  predicate TrimmedFrom(s: string, r: string, i: nat) {
    i + |r| <= |s| && r == s[i..i + |r|]
    && (forall k :: 0 <= k < i ==> IsSpace(s[k]))
    && (forall k :: i + |r| <= k < |s| ==> IsSpace(s[k]))
  }

  /** `s` without leading and trailing whitespace. */
  function Strip(s: string): (r: string)
    ensures exists i :: TrimmedFrom(s, r, i)
    ensures r == [] || (!IsSpace(r[0]) && !IsSpace(r[|r| - 1]))
    ensures r == [] <==> forall k :: 0 <= k < |s| ==> IsSpace(s[k])
  {
    var l := LStrip(s);
    var r := RStrip(l);
    var i := |s| - |l|;
    assert TrimmedFrom(s, r, i) by {
      assert r == l[..|r|] && l == s[i..];
      forall k | i + |r| <= k < |s| ensures IsSpace(s[k]) {
        assert s[k] == l[k - i];
      }
    }
    r
  }

  // ---------------------------------------------------------------------
  // Case-insensitive substring match

  /** ASCII lower-casing of one character. */
  function LowerChar(c: char): char {
    if 'A' <= c <= 'Z' then (c as int + 32) as char else c
  }

  function Lower(s: string): (r: string)
    ensures |r| == |s|
    ensures forall i :: 0 <= i < |s| ==> r[i] == LowerChar(s[i])
  {
    seq(|s|, i requires 0 <= i < |s| => LowerChar(s[i]))
  }

  /** Lower-casing is idempotent and leaves no upper-case ASCII letter. */
  lemma LowerIsNormal(s: string)
    ensures Lower(Lower(s)) == Lower(s)
    ensures forall i :: 0 <= i < |s| ==> !('A' <= Lower(s)[i] <= 'Z')
  {
  }

  predicate OccursAt(hay: string, needle: string, i: nat) {
    i + |needle| <= |hay| && hay[i..i + |needle|] == needle
  }

  /** Whether `needle` occurs in `hay` as a contiguous substring. */
  function Contains(hay: string, needle: string): (b: bool)
    ensures b <==> exists i :: OccursAt(hay, needle, i)
  {
    if |needle| > |hay| then false
    else if hay[..|needle|] == needle then
      assert OccursAt(hay, needle, 0);
      true
    else
      var b := Contains(hay[1..], needle);
      assert b ==> exists i :: OccursAt(hay, needle, i) by {
        if b {
          var i: nat :| OccursAt(hay[1..], needle, i);
          assert hay[1..][i..i + |needle|] == hay[i + 1..i + 1 + |needle|];
          assert OccursAt(hay, needle, i + 1);
        }
      }
      assert (exists i :: OccursAt(hay, needle, i)) ==> b by {
        if exists i :: OccursAt(hay, needle, i) {
          var i: nat :| OccursAt(hay, needle, i);
          assert i != 0;
          assert hay[1..][i - 1..i - 1 + |needle|] == hay[i..i + |needle|];
          assert OccursAt(hay[1..], needle, i - 1);
        }
      }
      b
  }

  /** The empty query occurs in every string. */
  lemma EmptyQueryMatchesEverything(hay: string)
    ensures Contains(hay, [])
  {
    assert OccursAt(hay, [], 0);
  }

  /** A record matches when its lower-cased name or lower-cased company
      contains the lower-cased query. */
  predicate Matches(r: Product, query: string) {
    Contains(Lower(r.name), Lower(query)) || Contains(Lower(r.company), Lower(query))
  }

  function MatchesQuery(query: string): Product -> bool {
    x => Matches(x, query)
  }

  /** The records of `rs` that match the query, in their order in `rs`. */
  function Search(rs: seq<Product>, query: string): (r: seq<Product>)
    ensures forall x :: x in r <==> x in rs && Matches(x, query)
    ensures forall x :: multiset(r)[x] == if Matches(x, query) then multiset(rs)[x] else 0
  {
    Where(rs, MatchesQuery(query))
  }

  /** Search ignores the case of the query. */
  lemma SearchIgnoresQueryCase(rs: seq<Product>, query: string)
    ensures Search(rs, Lower(query)) == Search(rs, query)
  {
    LowerIsNormal(query);
    WhereAgrees(rs, MatchesQuery(Lower(query)), MatchesQuery(query));
  }

  // ---------------------------------------------------------------------
  // The displayed result

  /** The search mask applied to the table: its `name` column is looked up
      first, so the table without columns is a `KeyError`. */
  function SearchTable(rs: seq<Product>, query: string): (r: Result<seq<Product>>)
    ensures r.Ok? <==> rs != []
    ensures r.Err? ==> r.error == KeyError("name")
    ensures r.Ok? ==> r.value == Search(rs, query)
  {
    var hasName :- CheckColumn(rs, "name");
    Ok(Search(rs, query))
  }

  /** The table the dashboard shows. The filtered and sorted table is
      always computed; a query that is not blank after trimming replaces
      it by the records of the whole catalog that match the query, in
      catalog order, without the category and price filters. */
  function ResultTable(catalog: seq<Product>, categories: set<string>, priceRange: (int, int),
                       sortBy: string, ascending: bool, rawQuery: string): (r: Result<seq<Product>>)
    ensures r.Ok? <==> catalog != [] && ColumnNamed(sortBy).Ok?
    ensures r.Err? ==> r.error == if catalog == [] then KeyError("category") else KeyError(sortBy)
    ensures r.Ok? && Strip(rawQuery) != [] ==>
      forall x :: multiset(r.value)[x] == if Matches(x, Strip(rawQuery)) then multiset(catalog)[x] else 0
  {
    var filtered :- FilterData(catalog, categories, priceRange, sortBy, ascending);
    var query := Strip(rawQuery);
    if query != [] then SearchTable(catalog, query) else Ok(filtered)
  }

  /** With a query, the filter settings do not affect the result. */
  lemma QueryBypassesFilters(catalog: seq<Product>, rawQuery: string,
                             categories1: set<string>, priceRange1: (int, int), sortBy1: string, ascending1: bool,
                             categories2: set<string>, priceRange2: (int, int), sortBy2: string, ascending2: bool)
    requires Strip(rawQuery) != []
    requires ColumnNamed(sortBy1).Ok? && ColumnNamed(sortBy2).Ok?
    ensures ResultTable(catalog, categories1, priceRange1, sortBy1, ascending1, rawQuery)
         == ResultTable(catalog, categories2, priceRange2, sortBy2, ascending2, rawQuery)
  {
  }

  /** A non-blank query, stripped, selects from the whole catalog. */
  lemma QueryShowsSearch(catalog: seq<Product>, categories: set<string>, priceRange: (int, int),
                         sortBy: string, ascending: bool, rawQuery: string)
    requires Strip(rawQuery) != [] && ColumnNamed(sortBy).Ok?
    ensures catalog != [] ==> ResultTable(catalog, categories, priceRange, sortBy, ascending, rawQuery)
                              == Ok(Search(catalog, Strip(rawQuery)))
    ensures catalog == [] ==> ResultTable(catalog, categories, priceRange, sortBy, ascending, rawQuery)
                              == Err(KeyError("category"))
  {
  }

  /** With a query, the result is exactly the matching records of the
      catalog in catalog order: matches of a concatenation concatenate. */
  lemma SearchKeepsCatalogOrder(a: seq<Product>, b: seq<Product>, query: string)
    ensures Search(a + b, query) == Search(a, query) + Search(b, query)
  {
    WhereAppend(a, b, MatchesQuery(query));
  }

  /** One record is found exactly when it matches. */
  lemma SearchOne(x: Product, query: string)
    ensures Search([x], query) == if Matches(x, query) then [x] else []
  {
    WhereSingle(x, MatchesQuery(query));
  }

  /** The empty query finds the whole catalog. */
  lemma SearchEmptyQuery(rs: seq<Product>)
    ensures Search(rs, "") == rs
  {
    assert Lower("") == "";
    forall i | 0 <= i < |rs| ensures MatchesQuery("")(rs[i]) {
      EmptyQueryMatchesEverything(Lower(rs[i].name));
    }
    WhereKeepsAll(rs, MatchesQuery(""));
  }

  /** An empty or all-whitespace query shows the filtered and sorted table. */
  lemma BlankQueryShowsFilteredTable(catalog: seq<Product>, categories: set<string>, priceRange: (int, int),
                                     sortBy: string, ascending: bool, rawQuery: string)
    requires forall k :: 0 <= k < |rawQuery| ==> IsSpace(rawQuery[k])
    ensures ResultTable(catalog, categories, priceRange, sortBy, ascending, rawQuery)
         == FilterData(catalog, categories, priceRange, sortBy, ascending)
  {
  }
}
