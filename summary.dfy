/** The sidebar figures, the default filter settings and the detail lookup. */
module Summary {
  import opened Results
  import opened Catalog
  import opened Seqs
  import opened Filtering

  /** The number of products shown in the sidebar. */
  function TotalCount(rs: seq<Product>): nat {
    |rs|
  }

  function TotalPrice(rs: seq<Product>): nat {
    if rs == [] then 0 else TotalPrice(rs[..|rs| - 1]) + rs[|rs| - 1].price
  }

  /** The number of products shown, one per flattened (category, item) pair. */
  lemma TotalCountIsItemCount(p: Nested, rs: seq<Product>)
    requires Flatten(p) == Ok(rs)
    ensures TotalCount(rs) == ItemCount(p)
  {
    FlattenLength(p);
  }

  /** The sidebar's average price: the mean price truncated to an integer.
      Prices are non-negative, so truncation is integer division. */
  function AveragePrice(rs: seq<Product>): (r: Result<int>)
    ensures r.Ok? <==> rs != []
    ensures r.Err? ==> r.error == KeyError("price")
    ensures r.Ok? ==> 0 <= r.value && r.value * |rs| <= TotalPrice(rs) < (r.value + 1) * |rs|
  {
    var hasPrice :- CheckColumn(rs, "price");
    Ok(TotalPrice(rs) / |rs|)
  }

  lemma {:induction false} TotalPriceBounds(rs: seq<Product>, lo: int, hi: int)
    requires forall i :: 0 <= i < |rs| ==> lo <= rs[i].price <= hi
    ensures lo * |rs| <= TotalPrice(rs) <= hi * |rs|
  {
    if rs != [] {
      var n := |rs| - 1;
      TotalPriceBounds(rs[..n], lo, hi);
      assert TotalPrice(rs) == TotalPrice(rs[..n]) + rs[n].price;
      assert lo * |rs| == lo * n + lo && hi * |rs| == hi * n + hi;
    }
  }

  /** When every price lies in [lo, hi], so does the average. */
  lemma AverageWithinPriceBounds(rs: seq<Product>, lo: int, hi: int)
    requires rs != [] && forall i :: 0 <= i < |rs| ==> lo <= rs[i].price <= hi
    ensures lo <= AveragePrice(rs).value <= hi
  {
    TotalPriceBounds(rs, lo, hi);
    var a := AveragePrice(rs).value;
    CancelFactor(lo, a + 1, |rs|);
    CancelFactor(a, hi + 1, |rs|);
  }

  lemma CancelFactor(x: int, y: int, n: int)
    requires n > 0 && x * n < y * n
    ensures x < y
  {
    if x >= y {
      MulMonotone(y, x, n);
    }
  }

  lemma MulMonotone(x: int, y: int, n: int)
    requires n > 0 && x <= y
    ensures x * n <= y * n
  {
  }

  // ---------------------------------------------------------------------
  // Default filter settings

  /** The distinct categories of the catalog: the category choices, all
      selected by default. */
  function CategoriesOf(rs: seq<Product>): (r: Result<set<string>>)
    ensures r.Ok? <==> rs != []
    ensures r.Err? ==> r.error == KeyError("category")
    ensures r.Ok? ==> forall c :: c in r.value <==> exists i :: 0 <= i < |rs| && rs[i].category == c
  {
    var hasCategory :- CheckColumn(rs, "category");
    Ok(set i | 0 <= i < |rs| :: rs[i].category)
  }

  /** The smallest and largest price, the bounds of the price slider and
      its default range. */
  function PriceBounds(rs: seq<Product>): (r: Result<(int, int)>)
    ensures r.Ok? <==> rs != []
    ensures r.Err? ==> r.error == KeyError("price")
    ensures r.Ok? ==> exists i :: 0 <= i < |rs| && rs[i].price == r.value.0
    ensures r.Ok? ==> exists i :: 0 <= i < |rs| && rs[i].price == r.value.1
    ensures r.Ok? ==> forall i :: 0 <= i < |rs| ==> r.value.0 <= rs[i].price <= r.value.1
  {
    var hasPrice :- CheckColumn(rs, "price");
    Ok(PriceRange(rs))
  }

  /** The smallest and the largest price of a non-empty table. */
  function PriceRange(rs: seq<Product>): (r: (int, int))
    requires rs != []
    ensures exists i :: 0 <= i < |rs| && rs[i].price == r.0
    ensures exists i :: 0 <= i < |rs| && rs[i].price == r.1
    ensures forall i :: 0 <= i < |rs| ==> r.0 <= rs[i].price <= r.1
  {
    if |rs| == 1 then (rs[0].price, rs[0].price)
    else
      var (lo, hi) := PriceRange(rs[..|rs| - 1]);
      var p := rs[|rs| - 1].price;
      (if p < lo then p else lo, if p > hi then p else hi)
  }

  /** With every category chosen and the full price range, the filter
      keeps the whole catalog in its order. */
  lemma DefaultFiltersKeepAll(rs: seq<Product>)
    requires rs != []
    ensures FilterRows(rs, CategoriesOf(rs).value, PriceBounds(rs).value.0, PriceBounds(rs).value.1) == rs
  {
    var (lo, hi) := PriceBounds(rs).value;
    var cats := CategoriesOf(rs).value;
    forall i | 0 <= i < |rs| ensures Passes(cats, lo, hi)(rs[i]) {
      assert rs[i].category in cats;
    }
    WhereKeepsAll(rs, Passes(cats, lo, hi));
  }

  /** The sidebar's defaults and figures. */
  datatype Sidebar = Sidebar(categories: set<string>, priceRange: (int, int), count: nat, average: int)

  /** The sidebar, computed in the program's order: the category choices,
      the slider bounds, the count and the average. An empty table fails at
      the first of them. */
  function SidebarOf(rs: seq<Product>): (r: Result<Sidebar>)
    ensures r.Ok? <==> rs != []
    ensures r.Err? ==> r.error == KeyError("category")
    ensures r.Ok? ==> FilterRows(rs, r.value.categories, r.value.priceRange.0, r.value.priceRange.1) == rs
    ensures r.Ok? ==> r.value.count == |rs|
    ensures r.Ok? ==> r.value.priceRange.0 <= r.value.average <= r.value.priceRange.1
  {
    var categories :- CategoriesOf(rs);
    var bounds := PriceBounds(rs).value;
    var average := AveragePrice(rs).value;
    DefaultFiltersKeepAll(rs);
    AverageWithinPriceBounds(rs, bounds.0, bounds.1);
    Ok(Sidebar(categories, bounds, TotalCount(rs), average))
  }

  // ---------------------------------------------------------------------
  // Detail lookup

  /** The details of the first record whose name is `name`. The table
      without columns has no `name` column; a name that no record has
      selects nothing, and taking the first of nothing is an IndexError. */
  function FindByName(rs: seq<Product>, name: string): (r: Result<Product>)
    ensures r.Err? ==> r.error == if rs == [] then KeyError("name") else IndexError
    ensures r.Ok? <==> exists i :: 0 <= i < |rs| && rs[i].name == name
    ensures r.Ok? ==> exists i :: 0 <= i < |rs| && rs[i] == r.value && r.value.name == name &&
                                 forall j :: 0 <= j < i ==> rs[j].name != name
  {
    var hasName :- CheckColumn(rs, "name");
    FirstNamed(rs, name)
  }

  /** The first record whose name is `name`; none is an IndexError. */
  function FirstNamed(rs: seq<Product>, name: string): (r: Result<Product>)
    ensures r.Ok? <==> exists i :: 0 <= i < |rs| && rs[i].name == name
    ensures r.Err? ==> r.error == IndexError
    ensures r.Ok? ==> exists i :: 0 <= i < |rs| && rs[i] == r.value && r.value.name == name &&
                                 forall j :: 0 <= j < i ==> rs[j].name != name
  {
    if rs == [] then Err(IndexError)
    else if rs[0].name == name then Ok(rs[0])
    else
      var r := FirstNamed(rs[1..], name);
      assert r.Ok? ==> exists i :: 0 <= i < |rs| && rs[i] == r.value && r.value.name == name &&
                                  forall j :: 0 <= j < i ==> rs[j].name != name by {
        if r.Ok? {
          var i :| 0 <= i < |rs| - 1 && rs[1..][i] == r.value && r.value.name == name &&
                   forall j :: 0 <= j < i ==> rs[1..][j].name != name;
          assert rs[i + 1] == r.value;
          assert forall j :: 0 <= j < i + 1 ==> rs[j].name != name by {
            forall j | 0 <= j < i + 1 ensures rs[j].name != name {
              if j > 0 { assert rs[j] == rs[1..][j - 1]; }
            }
          }
        }
      }
      assert (exists i :: 0 <= i < |rs| && rs[i].name == name) ==>
             (exists i :: 0 <= i < |rs| - 1 && rs[1..][i].name == name) by {
        if exists i :: 0 <= i < |rs| && rs[i].name == name {
          var i :| 0 <= i < |rs| && rs[i].name == name;
          assert rs[1..][i - 1].name == name;
        }
      }
      r
  }

  predicate DistinctNames(rs: seq<Product>) {
    forall i, j :: 0 <= i < j < |rs| ==> rs[i].name != rs[j].name
  }

  /** In a catalog with distinct names, looking up a listed name returns
      that record. */
  lemma LookupOfListedName(rs: seq<Product>, i: nat)
    requires i < |rs| && DistinctNames(rs)
    ensures FindByName(rs, rs[i].name) == Ok(rs[i])
  {
    var r := FindByName(rs, rs[i].name);
    var k :| 0 <= k < |rs| && rs[k] == r.value && r.value.name == rs[i].name &&
             forall j :: 0 <= j < k ==> rs[j].name != rs[i].name;
    assert k == i;
  }
}
