/** The dashboard's behaviour on the program's own catalog. */
module Examples {
  import opened Results
  import opened Dates
  import opened Catalog
  import opened Sample
  import opened Seqs
  import opened Filtering
  import opened Searching
  import opened Summary

  /** Selecting from seven elements concatenates the selections from each. */
  lemma WhereSeven(s: seq<Product>, keep: Product -> bool)
    requires |s| == 7
    ensures Where(s, keep) == Where([s[0]], keep) + Where([s[1]], keep) + Where([s[2]], keep) +
      Where([s[3]], keep) + Where([s[4]], keep) + Where([s[5]], keep) + Where([s[6]], keep)
  {
    assert s == [s[0]] + [s[1]] + [s[2]] + [s[3]] + [s[4]] + [s[5]] + [s[6]];
    WhereAppend([s[0]] + [s[1]] + [s[2]] + [s[3]] + [s[4]] + [s[5]], [s[6]], keep);
    WhereAppend([s[0]] + [s[1]] + [s[2]] + [s[3]] + [s[4]], [s[5]], keep);
    WhereAppend([s[0]] + [s[1]] + [s[2]] + [s[3]], [s[4]], keep);
    WhereAppend([s[0]] + [s[1]] + [s[2]], [s[3]], keep);
    WhereAppend([s[0]] + [s[1]], [s[2]], keep);
    WhereAppend([s[0]], [s[1]], keep);
  }

  lemma FilterOne(x: Product, categories: set<string>, lo: int, hi: int)
    ensures FilterRows([x], categories, lo, hi) == if Keep(x, categories, lo, hi) then [x] else []
  {
    WhereSingle(x, Passes(categories, lo, hi));
  }

  /** Which of the seven records pass the Electronics filter. */
  lemma ElectronicsKept()
    ensures Where([Laptop], Passes({"Electronics"}, 0, 100000)) == [Laptop]
    ensures Where([Smartphone], Passes({"Electronics"}, 0, 100000)) == [Smartphone]
    ensures Where([Earbuds], Passes({"Electronics"}, 0, 100000)) == [Earbuds]
  {
    FilterOne(Laptop, {"Electronics"}, 0, 100000);
    FilterOne(Smartphone, {"Electronics"}, 0, 100000);
    FilterOne(Earbuds, {"Electronics"}, 0, 100000);
  }

  lemma ElectronicsDropped()
    ensures Where([Refrigerator], Passes({"Electronics"}, 0, 100000)) == []
    ensures Where([WashingMachine], Passes({"Electronics"}, 0, 100000)) == []
    ensures Where([Keyboard], Passes({"Electronics"}, 0, 100000)) == []
    ensures Where([Mouse], Passes({"Electronics"}, 0, 100000)) == []
  {
    assert !Keep(Refrigerator, {"Electronics"}, 0, 100000);
    assert !Keep(WashingMachine, {"Electronics"}, 0, 100000);
    assert !Keep(Keyboard, {"Electronics"}, 0, 100000);
    assert !Keep(Mouse, {"Electronics"}, 0, 100000);
    FilterOne(Refrigerator, {"Electronics"}, 0, 100000);
    FilterOne(WashingMachine, {"Electronics"}, 0, 100000);
    FilterOne(Keyboard, {"Electronics"}, 0, 100000);
    FilterOne(Mouse, {"Electronics"}, 0, 100000);
  }

  lemma LoadedSelection(s: seq<Product>, p: Product -> bool)
    requires s == Loaded
    ensures Where(s, p) == Where([Laptop], p) + Where([Smartphone], p) + Where([Earbuds], p) +
      Where([Refrigerator], p) + Where([WashingMachine], p) + Where([Keyboard], p) + Where([Mouse], p)
  {
    assert s[0] == Laptop && s[1] == Smartphone && s[2] == Earbuds && s[3] == Refrigerator;
    assert s[4] == WashingMachine && s[5] == Keyboard && s[6] == Mouse;
    WhereSeven(s, p);
  }

  lemma ElectronicsParts(p: Product -> bool)
    requires p == Passes({"Electronics"}, 0, 100000)
    ensures Where([Laptop], p) + Where([Smartphone], p) + Where([Earbuds], p) +
      Where([Refrigerator], p) + Where([WashingMachine], p) + Where([Keyboard], p) + Where([Mouse], p)
      == [Laptop, Smartphone, Earbuds]
  {
    ElectronicsKept();
    ElectronicsDropped();
    assert [Laptop] + [Smartphone] + [Earbuds] + [] + [] + [] + [] == [Laptop, Smartphone, Earbuds];
  }

  lemma ElectronicsRows()
    ensures FilterRows(Loaded, {"Electronics"}, 0, 100000) == [Laptop, Smartphone, Earbuds]
  {
    var p := Passes({"Electronics"}, 0, 100000);
    LoadedSelection(Loaded, p);
    ElectronicsParts(p);
  }

  lemma ElectronicsSorted(s: seq<Product>)
    requires s == [Laptop, Smartphone, Earbuds]
    ensures SortRows(s, Price, true) == [Earbuds, Smartphone, Laptop]
  {
    var expected := [Earbuds, Smartphone, Laptop];
    assert multiset(expected) == multiset(s);
    assert SortedBy(expected, Price, true);
    assert NoTies(expected, Price);
    SortedPermutationUnique(expected, SortRows(s, Price, true), Price, true);
  }

  /** Electronics priced within [0, 100000], cheapest first. */
  lemma ElectronicsByPrice()
    ensures FilterData(Loaded, {"Electronics"}, (0, 100000), "price", true) == Ok([Earbuds, Smartphone, Laptop])
  {
    assert Loaded != [] && ColumnNamed("price") == Ok(Price);
    FilterDataSorts(Loaded, {"Electronics"}, (0, 100000), "price", Price, true);
    ElectronicsRows();
    ElectronicsSorted(FilterRows(Loaded, {"Electronics"}, 0, 100000));
  }

  /** On a table with records and a known sort key, `FilterData` sorts the
      filtered rows. */
  lemma FilterDataSorts(rs: seq<Product>, categories: set<string>, priceRange: (int, int),
                        sortBy: string, c: Column, ascending: bool)
    requires rs != [] && ColumnNamed(sortBy) == Ok(c)
    ensures FilterData(rs, categories, priceRange, sortBy, ascending)
         == Ok(SortRows(FilterRows(rs, categories, priceRange.0, priceRange.1), c, ascending))
  {
  }

  // ---------------------------------------------------------------------
  // Searching for "hp"

  /** Whether two adjacent characters of `s`, the first at `i` or later,
      lower-case to `a` and `b`. */
  predicate HasPairFrom(s: string, i: nat, a: char, b: char)
    decreases |s| - i
  {
    i + 1 < |s| && ((LowerChar(s[i]) == a && LowerChar(s[i + 1]) == b) || HasPairFrom(s, i + 1, a, b))
  }

  lemma {:induction false} ContainsPairFrom(s: string, i: nat, a: char, b: char)
    requires i <= |s|
    ensures Contains(Lower(s[i..]), [a, b]) <==> HasPairFrom(s, i, a, b)
    decreases |s| - i
  {
    if i + 1 < |s| {
      ContainsPairFrom(s, i + 1, a, b);
      assert s[i..][1..] == s[i + 1..];
      assert Lower(s[i..])[1..] == Lower(s[i + 1..]);
      assert Lower(s[i..])[..2] == [LowerChar(s[i]), LowerChar(s[i + 1])];
    } else {
      assert |Lower(s[i..])| < 2;
    }
  }

  lemma MatchesHp(x: Product)
    ensures Matches(x, "hp") <==> HasPairFrom(x.name, 0, 'h', 'p') || HasPairFrom(x.company, 0, 'h', 'p')
  {
    assert Lower("hp") == "hp";
    ContainsPairFrom(x.name, 0, 'h', 'p');
    ContainsPairFrom(x.company, 0, 'h', 'p');
    assert x.name[0..] == x.name && x.company[0..] == x.company;
  }

  lemma HpOne(x: Product)
    ensures Where([x], MatchesQuery("hp")) ==
      if HasPairFrom(x.name, 0, 'h', 'p') || HasPairFrom(x.company, 0, 'h', 'p') then [x] else []
  {
    MatchesHp(x);
    SearchOne(x, "hp");
  }

  lemma NoHpInElectronics()
    ensures !HasPairFrom("Laptop", 0, 'h', 'p') && !HasPairFrom("Dell", 0, 'h', 'p')
    ensures !HasPairFrom("Smartphone", 0, 'h', 'p') && !HasPairFrom("Samsung", 0, 'h', 'p')
    ensures !HasPairFrom("Earbuds", 0, 'h', 'p') && !HasPairFrom("Realme", 0, 'h', 'p')
  {
  }

  lemma NoHpInAppliances()
    ensures !HasPairFrom("Refrigerator", 0, 'h', 'p') && !HasPairFrom("LG", 0, 'h', 'p')
    ensures !HasPairFrom("Washing Machine", 0, 'h', 'p') && !HasPairFrom("Whirlpool", 0, 'h', 'p')
  {
  }

  lemma HpInAccessories()
    ensures !HasPairFrom("Keyboard", 0, 'h', 'p') && !HasPairFrom("Logitech", 0, 'h', 'p')
    ensures HasPairFrom("HP", 0, 'h', 'p')
  {
  }

  lemma HpParts(p: Product -> bool)
    requires p == MatchesQuery("hp")
    ensures Where([Laptop], p) + Where([Smartphone], p) + Where([Earbuds], p) +
      Where([Refrigerator], p) + Where([WashingMachine], p) + Where([Keyboard], p) + Where([Mouse], p)
      == [Mouse]
  {
    NoHpInElectronics();
    NoHpInAppliances();
    HpInAccessories();
    HpOne(Laptop);
    HpOne(Smartphone);
    HpOne(Earbuds);
    HpOne(Refrigerator);
    HpOne(WashingMachine);
    HpOne(Keyboard);
    HpOne(Mouse);
    assert [] + [] + [] + [] + [] + [] + [Mouse] == [Mouse];
  }

  /** Searching for "hp" finds the one record whose company is HP. */
  lemma SearchHp()
    ensures Search(Loaded, "hp") == [Mouse]
  {
    var p := MatchesQuery("hp");
    LoadedSelection(Loaded, p);
    HpParts(p);
  }

  lemma LowerHp()
    ensures Lower("HP") == "hp"
  {
  }

  lemma StripPaddedHp()
    ensures Strip(" HP ") == "HP"
  {
    assert " HP "[1..] == "HP ";
    assert LStrip("HP ") == "HP ";
    assert "HP "[..2] == "HP";
    assert RStrip("HP") == "HP";
  }

  /** A padded, upper-case query shows the same result, whatever the filters. */
  lemma SearchPaddedHp(s: seq<Product>, categories: set<string>, priceRange: (int, int), ascending: bool)
    requires s == Loaded
    ensures ResultTable(s, categories, priceRange, "name", ascending, " HP ") == Ok([Mouse])
  {
    StripPaddedHp();
    assert ColumnNamed("name").Ok?;
    QueryShowsSearch(s, categories, priceRange, "name", ascending, " HP ");
    SearchIgnoresQueryCase(s, "HP");
    LowerHp();
    SearchHp();
  }

  // ---------------------------------------------------------------------
  // Sidebar figures

  lemma TotalPriceSnoc(s: seq<Product>, x: Product)
    ensures TotalPrice(s + [x]) == TotalPrice(s) + x.price
  {
    assert (s + [x])[..|s|] == s;
  }

  lemma PriceBoundsSnoc(s: seq<Product>, x: Product)
    requires s != []
    ensures PriceBounds(s + [x]).value.0 == if x.price < PriceBounds(s).value.0 then x.price else PriceBounds(s).value.0
    ensures PriceBounds(s + [x]).value.1 == if x.price > PriceBounds(s).value.1 then x.price else PriceBounds(s).value.1
  {
    assert (s + [x])[..|s|] == s;
  }

  lemma LoadedTotal(s: seq<Product>)
    requires s == Loaded
    ensures TotalPrice(s) == 204500
  {
    assert s == [Laptop] + [Smartphone] + [Earbuds] + [Refrigerator] + [WashingMachine] + [Keyboard] + [Mouse];
    var s1 := [Laptop];
    var s2 := s1 + [Smartphone];
    var s3 := s2 + [Earbuds];
    var s4 := s3 + [Refrigerator];
    var s5 := s4 + [WashingMachine];
    var s6 := s5 + [Keyboard];
    TotalPriceSnoc([], Laptop);
    TotalPriceSnoc(s1, Smartphone);
    TotalPriceSnoc(s2, Earbuds);
    TotalPriceSnoc(s3, Refrigerator);
    TotalPriceSnoc(s4, WashingMachine);
    TotalPriceSnoc(s5, Keyboard);
    TotalPriceSnoc(s6, Mouse);
  }

  lemma LoadedPriceBounds(s: seq<Product>)
    requires s == Loaded
    ensures PriceBounds(s) == Ok((800, 70000))
  {
    assert s == [Laptop] + [Smartphone] + [Earbuds] + [Refrigerator] + [WashingMachine] + [Keyboard] + [Mouse];
    var s1 := [Laptop];
    var s2 := s1 + [Smartphone];
    var s3 := s2 + [Earbuds];
    var s4 := s3 + [Refrigerator];
    var s5 := s4 + [WashingMachine];
    var s6 := s5 + [Keyboard];
    PriceBoundsSnoc(s1, Smartphone);
    PriceBoundsSnoc(s2, Earbuds);
    PriceBoundsSnoc(s3, Refrigerator);
    PriceBoundsSnoc(s4, WashingMachine);
    PriceBoundsSnoc(s5, Keyboard);
    PriceBoundsSnoc(s6, Mouse);
  }

  lemma LoadedAverage(s: seq<Product>)
    requires s == Loaded
    ensures AveragePrice(s) == Ok(29214)
  {
    LoadedTotal(s);
    assert |s| == 7;
  }

  /** Seven products, averaging 29214 rupees once truncated, priced from
      800 to 70000. */
  lemma SidebarFigures()
    ensures TotalCount(Loaded) == ItemCount(Products) == 7
    ensures AveragePrice(Loaded) == Ok(29214)
    ensures PriceBounds(Loaded) == Ok((800, 70000))
  {
    LoadProducts();
    FlattenLength(Products);
    LoadedAverage(Loaded);
    LoadedPriceBounds(Loaded);
  }
}
