/** Category and price filtering of the flat catalog, and sorting of the
    kept records by one of its columns. */
module Filtering {
  import opened Results
  import opened Dates
  import opened Catalog
  import opened Seqs

  // ---------------------------------------------------------------------
  // Columns

  /** The columns of the flat catalog table. */
  datatype Column = Name | Price | Company | Category | LastUpdated

  function ColumnName(c: Column): string {
    match c
    case Name => "name"
    case Price => "price"
    case Company => "company"
    case Category => "category"
    case LastUpdated => "last_updated"
  }

  /** The column a name refers to; a name that is not a column is a KeyError. */
  function ColumnNamed(s: string): (r: Result<Column>)
    ensures r.Ok? ==> ColumnName(r.value) == s
    ensures r.Err? ==> r.error == KeyError(s) && forall c: Column :: ColumnName(c) != s
  {
    if s == "name" then Ok(Name)
    else if s == "price" then Ok(Price)
    else if s == "company" then Ok(Company)
    else if s == "category" then Ok(Category)
    else if s == "last_updated" then Ok(LastUpdated)
    else Err(KeyError(s))
  }

  lemma ColumnNamedOfName(c: Column)
    ensures ColumnNamed(ColumnName(c)) == Ok(c)
  {
  }

  /** The sort keys the dashboard offers; each names a column. */
  const SortChoices: seq<string> := ["price", "last_updated", "name"]

  // ---------------------------------------------------------------------
  // Ordering

  /** Lexicographic order on strings by code point, a proper prefix first. */
  predicate StrLe(a: string, b: string) {
    if a == [] then true
    else if b == [] then false
    else if a[0] != b[0] then a[0] < b[0]
    else StrLe(a[1..], b[1..])
  }

  lemma {:induction false} StrLeTotal(a: string, b: string)
    ensures StrLe(a, b) || StrLe(b, a)
  {
    if a != [] && b != [] && a[0] == b[0] {
      StrLeTotal(a[1..], b[1..]);
    }
  }

  lemma {:induction false} StrLeAntisymmetric(a: string, b: string)
    requires StrLe(a, b) && StrLe(b, a)
    ensures a == b
  {
    if a != [] && b != [] {
      StrLeAntisymmetric(a[1..], b[1..]);
      assert a == [a[0]] + a[1..] && b == [b[0]] + b[1..];
    }
  }

  lemma {:induction false} StrLeTransitive(a: string, b: string, c: string)
    requires StrLe(a, b) && StrLe(b, c)
    ensures StrLe(a, c)
  {
    if a != [] && b != [] && c != [] && a[0] == b[0] && b[0] == c[0] {
      StrLeTransitive(a[1..], b[1..], c[1..]);
    }
  }

  /** `x` sorts no later than `y` on column `c`, ascending. */
  predicate KeyLe(c: Column, x: Product, y: Product) {
    match c
    case Name => StrLe(x.name, y.name)
    case Price => x.price <= y.price
    case Company => StrLe(x.company, y.company)
    case Category => StrLe(x.category, y.category)
    case LastUpdated => DateLe(x.lastUpdated, y.lastUpdated)
  }

  /** `x` may come before `y` when sorting on `c` in the given direction. */
  predicate InOrder(c: Column, ascending: bool, x: Product, y: Product) {
    if ascending then KeyLe(c, x, y) else KeyLe(c, y, x)
  }

  predicate SortedBy(s: seq<Product>, c: Column, ascending: bool) {
    forall i, j :: 0 <= i < j < |s| ==> InOrder(c, ascending, s[i], s[j])
  }

  /** Every column order, in either direction, is a total preorder. */
  lemma InOrderLaws(c: Column, ascending: bool)
    ensures forall x, y :: InOrder(c, ascending, x, y) || InOrder(c, ascending, y, x)
    ensures forall x, y, z :: InOrder(c, ascending, x, y) && InOrder(c, ascending, y, z) ==>
      InOrder(c, ascending, x, z)
  {
    forall x, y ensures InOrder(c, ascending, x, y) || InOrder(c, ascending, y, x) {
      StrLeTotal(x.name, y.name);
      StrLeTotal(x.company, y.company);
      StrLeTotal(x.category, y.category);
    }
    forall x, y, z | InOrder(c, ascending, x, y) && InOrder(c, ascending, y, z)
      ensures InOrder(c, ascending, x, z)
    {
      var (a, b, d) := if ascending then (x, y, z) else (z, y, x);
      match c
      case Name => StrLeTransitive(a.name, b.name, d.name);
      case Company => StrLeTransitive(a.company, b.company, d.company);
      case Category => StrLeTransitive(a.category, b.category, d.category);
      case Price =>
      case LastUpdated =>
    }
  }

  // ---------------------------------------------------------------------
  // Sorting

  /** `s` with `x` placed before the first element it may precede. */
  function Insert(x: Product, s: seq<Product>, c: Column, ascending: bool): (r: seq<Product>)
    requires SortedBy(s, c, ascending)
    ensures SortedBy(r, c, ascending)
    ensures multiset(r) == multiset(s) + multiset{x}
  {
    if s == [] then [x]
    else if InOrder(c, ascending, x, s[0]) then
      InOrderLaws(c, ascending);
      [x] + s
    else
      assert s == [s[0]] + s[1..];
      var t := Insert(x, s[1..], c, ascending);
      InsertAfterHead(x, s, t, c, ascending);
      [s[0]] + t
  }

  /** The head of a sorted `s` may precede every record of a sorted
      rearrangement of the tail of `s` with `x`, when `x` may not precede it. */
  lemma InsertAfterHead(x: Product, s: seq<Product>, t: seq<Product>, c: Column, ascending: bool)
    requires s != [] && SortedBy(s, c, ascending) && !InOrder(c, ascending, x, s[0])
    requires SortedBy(t, c, ascending) && multiset(t) == multiset(s[1..]) + multiset{x}
    ensures SortedBy([s[0]] + t, c, ascending)
  {
    InOrderLaws(c, ascending);
    forall k | 0 <= k < |t| ensures InOrder(c, ascending, s[0], t[k]) {
      assert t[k] in multiset(t);
      if t[k] != x {
        assert t[k] in s[1..];
      }
    }
  }

  /** The records of `s` ordered on column `c`, ascending or descending.
      Records with equal keys may come in any order. */
  function SortRows(s: seq<Product>, c: Column, ascending: bool): (r: seq<Product>)
    ensures SortedBy(r, c, ascending)
    ensures multiset(r) == multiset(s)
  {
    if s == [] then []
    else
      assert s == [s[0]] + s[1..];
      Insert(s[0], SortRows(s[1..], c, ascending), c, ascending)
  }

  /** No two different records of `s` have equal keys on column `c`. */
  predicate NoTies(s: seq<Product>, c: Column) {
    forall i, j :: 0 <= i < |s| && 0 <= j < |s| && KeyLe(c, s[i], s[j]) && KeyLe(c, s[j], s[i]) ==> s[i] == s[j]
  }

  /** Sorting leaves only the order of tied records open: two sorted
      arrangements of the same records without ties are the same sequence. */
  lemma {:induction false} SortedPermutationUnique(a: seq<Product>, b: seq<Product>, c: Column, ascending: bool)
    requires SortedBy(a, c, ascending) && SortedBy(b, c, ascending)
    requires multiset(a) == multiset(b) && NoTies(a, c)
    ensures a == b
  {
    if a != [] {
      assert |b| == |multiset(b)| == |multiset(a)| == |a|;
      SortedHeadsAgree(a, b, c, ascending);
      TailsPermutation(a, b);
      assert SortedBy(a[1..], c, ascending) && SortedBy(b[1..], c, ascending);
      assert NoTies(a[1..], c);
      SortedPermutationUnique(a[1..], b[1..], c, ascending);
      assert a == [a[0]] + a[1..] && b == [b[0]] + b[1..];
    }
  }

  lemma SortedHeadsAgree(a: seq<Product>, b: seq<Product>, c: Column, ascending: bool)
    requires a != [] && b != []
    requires SortedBy(a, c, ascending) && SortedBy(b, c, ascending)
    requires multiset(a) == multiset(b) && NoTies(a, c)
    ensures a[0] == b[0]
  {
    assert a[0] in multiset(b) && b[0] in multiset(a);
    var k :| 0 <= k < |b| && b[k] == a[0];
    var m :| 0 <= m < |a| && a[m] == b[0];
    if k > 0 && m > 0 {
      assert InOrder(c, ascending, b[0], b[k]) && InOrder(c, ascending, a[0], a[m]);
    }
  }

  lemma TailsPermutation<T>(a: seq<T>, b: seq<T>)
    requires a != [] && b != [] && a[0] == b[0] && multiset(a) == multiset(b)
    ensures multiset(a[1..]) == multiset(b[1..])
  {
    assert a == [a[0]] + a[1..] && b == [b[0]] + b[1..];
    assert multiset(a[1..]) == multiset(a) - multiset{a[0]};
    assert multiset(b[1..]) == multiset(b) - multiset{b[0]};
  }

  // ---------------------------------------------------------------------
  // Filtering

  /** A record passes the filters when its category was chosen and its
      price lies in the closed interval [lo, hi]. */
  predicate Keep(r: Product, categories: set<string>, lo: int, hi: int) {
    r.category in categories && lo <= r.price <= hi
  }

  /** The filters as a row predicate, the boolean mask of the selection. */
  function Passes(categories: set<string>, lo: int, hi: int): Product -> bool {
    x => Keep(x, categories, lo, hi)
  }

  /** The records that pass the filters, in catalog order. */
  function FilterRows(rs: seq<Product>, categories: set<string>, lo: int, hi: int): (r: seq<Product>)
    ensures forall x :: x in r <==> x in rs && Keep(x, categories, lo, hi)
    ensures forall x :: multiset(r)[x] == if Keep(x, categories, lo, hi) then multiset(rs)[x] else 0
  {
    Where(rs, Passes(categories, lo, hi))
  }

  /** Filters the records, then sorts them on the column named `sortBy`. */
  function FilterData(rs: seq<Product>, categories: set<string>, priceRange: (int, int),
                      sortBy: string, ascending: bool): (r: Result<seq<Product>>)
    ensures r.Ok? <==> rs != [] && ColumnNamed(sortBy).Ok?
    ensures r.Err? ==> r.error == if rs == [] then KeyError("category") else KeyError(sortBy)
    ensures r.Ok? ==> SortedBy(r.value, ColumnNamed(sortBy).value, ascending)
    ensures r.Ok? ==> forall x :: x in r.value <==> x in rs && Keep(x, categories, priceRange.0, priceRange.1)
    ensures r.Ok? ==>
      forall x :: multiset(r.value)[x] == if Keep(x, categories, priceRange.0, priceRange.1) then multiset(rs)[x] else 0
    // choosing no category, or an empty price interval, selects nothing
    ensures r.Ok? && (categories == {} || priceRange.1 < priceRange.0) ==> r.value == []
  {
    var hasCategory :- CheckColumn(rs, "category");
    var c :- ColumnNamed(sortBy);
    Ok(SortRows(FilterRows(rs, categories, priceRange.0, priceRange.1), c, ascending))
  }

  /** Every sort key the dashboard offers is accepted. */
  lemma SortChoicesAccepted(rs: seq<Product>, categories: set<string>, priceRange: (int, int),
                            i: nat, ascending: bool)
    requires i < |SortChoices|
    ensures FilterData(rs, categories, priceRange, SortChoices[i], ascending).Ok? <==> rs != []
  {
  }
}
