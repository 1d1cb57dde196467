/** The static product catalog, nested as category -> item -> attributes,
    and its flattening into a sequence of product records. */
module Catalog {
  import opened Results
  import opened Dates

  /** The attributes one item carries in the nested catalog. */
  datatype Item = Item(name: string, price: nat, company: string, lastUpdated: string)

  /** One row of the flat catalog: the item's attributes plus its category,
      with the date parsed. */
  datatype Product = Product(name: string, price: nat, company: string, category: string, lastUpdated: Date)

  /** An insertion-ordered mapping is a sequence of (key, value) pairs. */
  type Items = seq<(string, Item)>
  type Nested = seq<(string, Items)>

  /** The catalog as the program defines it. */
  const Products: Nested := [
    ("Electronics", [
      ("Laptop", Item("Laptop", 70000, "Dell", "2025-10-10")),
      ("Smartphone", Item("Smartphone", 30000, "Samsung", "2025-09-15")),
      ("Earbuds", Item("Earbuds", 2500, "Realme", "2025-08-20"))]),
    ("Appliances", [
      ("Refrigerator", Item("Refrigerator", 55000, "LG", "2025-09-25")),
      ("Washing Machine", Item("Washing Machine", 45000, "Whirlpool", "2025-07-18"))]),
    ("Accessories", [
      ("Keyboard", Item("Keyboard", 1200, "Logitech", "2025-08-05")),
      ("Mouse", Item("Mouse", 800, "HP", "2025-07-30"))])
  ]

  /** `rec` is the record made from `item` in category `cat`: name, price and
      company copied, the category added and the date parsed. */
  predicate RecordOf(cat: string, item: Item, rec: Product) {
    rec.name == item.name && rec.price == item.price && rec.company == item.company
    && rec.category == cat && ParseDate(item.lastUpdated) == Ok(rec.lastUpdated)
  }

  /** The record of one item, or the ParseError of its date. */
  function MakeRecord(cat: string, item: Item): (r: Result<Product>)
    ensures r.Ok? <==> ParseDate(item.lastUpdated).Ok?
    ensures r.Ok? ==> RecordOf(cat, item, r.value)
    ensures r.Err? ==> r.error == ParseError(item.lastUpdated)
  {
    var d :- ParseDate(item.lastUpdated);
    Ok(Product(item.name, item.price, item.company, cat, d))
  }

  /** The records of one category's items, in item order; the first item
      whose date does not parse stops the flattening. */
  function FlattenItems(cat: string, items: Items): Result<seq<Product>>
  {
    if items == [] then Ok([])
    else
      var rs :- FlattenItems(cat, items[..|items| - 1]);
      var x :- MakeRecord(cat, items[|items| - 1].1);
      Ok(rs + [x])
  }

  /** The records of the whole catalog: category order, then item order. */
  function Flatten(p: Nested): Result<seq<Product>>
  {
    if p == [] then Ok([])
    else
      var rs :- Flatten(p[..|p| - 1]);
      var xs :- FlattenItems(p[|p| - 1].0, p[|p| - 1].1);
      Ok(rs + xs)
  }

  /** A column lookup on the flat table. Flattening no records builds a
      table without any columns, so every lookup on it is a `KeyError`
      naming the column; a table with records has all five columns. */
  function CheckColumn(rs: seq<Product>, column: string): (r: Result<()>)
    ensures r.Ok? <==> rs != []
    ensures r.Err? ==> r.error == KeyError(column)
  {
    if rs == [] then Err(KeyError(column)) else Ok(())
  }

  /** The number of (category, item) pairs. */
  function ItemCount(p: Nested): nat
  {
    if p == [] then 0 else ItemCount(p[..|p| - 1]) + |p[|p| - 1].1|
  }

  /** The position of the first record of category `i` in the flat catalog. */
  function Offset(p: Nested, i: nat): nat
    requires i <= |p|
  {
    ItemCount(p[..i])
  }

  predicate AllDatesParse(p: Nested) {
    forall i, j :: 0 <= i < |p| && 0 <= j < |p[i].1| ==> ParseDate(p[i].1[j].1.lastUpdated).Ok?
  }

  // ---------------------------------------------------------------------
  // The loader

  /** Builds the flat catalog with two nested loops, appending one record
      per item, as the loader does. */
  method LoadData(p: Nested) returns (r: Result<seq<Product>>)
    ensures r == Flatten(p)
  {
    var data: seq<Product> := [];
    var i := 0;
    while i < |p|
      invariant 0 <= i <= |p|
      invariant Flatten(p[..i]) == Ok(data)
    {
      var (cat, items) := p[i];
      ghost var done := data;
      var j := 0;
      assert items[..0] == [] && data[|done|..] == [];
      while j < |items|
        invariant 0 <= j <= |items|
        invariant |done| <= |data| && data[..|done|] == done
        invariant FlattenItems(cat, items[..j]) == Ok(data[|done|..])
      {
        var details := items[j].1;
        var rec := MakeRecord(cat, details);
        if rec.Err? {
          assert items[..j + 1][..j] == items[..j];
          FlattenItemsErrPersists(cat, items, j + 1);
          assert p[..i + 1][..i] == p[..i];
          assert p[..i + 1][i] == p[i];
          FlattenErrPersists(p, i + 1);
          return Err(rec.error);
        }
        assert items[..j + 1][..j] == items[..j] && items[..j + 1][j] == items[j];
        assert (data + [rec.value])[|done|..] == data[|done|..] + [rec.value];
        data := data + [rec.value];
        j := j + 1;
      }
      assert items[..j] == items;
      assert data == done + data[|done|..];
      assert p[..i + 1][..i] == p[..i];
      i := i + 1;
    }
    assert p[..i] == p;
    return Ok(data);
  }

  lemma {:induction false} FlattenItemsErrPersists(cat: string, items: Items, k: nat)
    requires k <= |items| && FlattenItems(cat, items[..k]).Err?
    ensures FlattenItems(cat, items) == FlattenItems(cat, items[..k])
    decreases |items| - k
  {
    if k < |items| {
      assert items[..k + 1][..k] == items[..k];
      FlattenItemsErrPersists(cat, items, k + 1);
    } else {
      assert items[..k] == items;
    }
  }

  lemma {:induction false} FlattenErrPersists(p: Nested, k: nat)
    requires k <= |p| && Flatten(p[..k]).Err?
    ensures Flatten(p) == Flatten(p[..k])
    decreases |p| - k
  {
    if k < |p| {
      assert p[..k + 1][..k] == p[..k];
      FlattenErrPersists(p, k + 1);
    } else {
      assert p[..k] == p;
    }
  }

  // ---------------------------------------------------------------------
  // What the flattening promises

  /** One record per item, in item order, each made from its item. */
  lemma {:induction false} FlattenItemsShape(cat: string, items: Items)
    requires FlattenItems(cat, items).Ok?
    ensures var xs := FlattenItems(cat, items).value;
      |xs| == |items| && forall j :: 0 <= j < |items| ==> RecordOf(cat, items[j].1, xs[j])
  {
    if items != [] {
      FlattenItemsShape(cat, items[..|items| - 1]);
    }
  }

  /** The record of item `j` of category `i` sits at `Offset(p, i) + j`. */
  lemma {:induction false} FlattenAt(p: Nested, i: nat, j: nat)
    requires Flatten(p).Ok? && i < |p| && j < |p[i].1|
    ensures Offset(p, i) + j < |Flatten(p).value|
    ensures RecordOf(p[i].0, p[i].1[j].1, Flatten(p).value[Offset(p, i) + j])
  {
    var init, last := p[..|p| - 1], p[|p| - 1];
    var xs, ys := Flatten(init).value, FlattenItems(last.0, last.1).value;
    assert Flatten(p).value == xs + ys;
    FlattenLength(init);
    if i < |p| - 1 {
      assert init[..i] == p[..i] && init[i] == p[i];
      assert Offset(p, i) == Offset(init, i);
      FlattenAt(init, i, j);
      assert (xs + ys)[Offset(p, i) + j] == xs[Offset(p, i) + j];
    } else {
      assert p[..i] == init;
      FlattenItemsShape(last.0, last.1);
      assert (xs + ys)[Offset(p, i) + j] == ys[j];
    }
  }

  lemma {:induction false} FlattenLength(p: Nested)
    requires Flatten(p).Ok?
    ensures |Flatten(p).value| == ItemCount(p)
  {
    if p != [] {
      FlattenLength(p[..|p| - 1]);
      FlattenItemsShape(p[|p| - 1].0, p[|p| - 1].1);
    }
  }

  /** The flat catalog has exactly one record per (category, item) pair:
      the record of item `j` of category `i` sits at `Offset(p, i) + j`,
      so records come in category order and then item order, and each
      carries its enclosing category. */
  lemma FlattenShape(p: Nested, rs: seq<Product>)
    requires Flatten(p) == Ok(rs)
    ensures |rs| == ItemCount(p)
    ensures forall i, j :: 0 <= i < |p| && 0 <= j < |p[i].1| ==> PlacedAt(p, rs, i, j)
  {
    FlattenLength(p);
    forall i, j | 0 <= i < |p| && 0 <= j < |p[i].1|
      ensures PlacedAt(p, rs, i, j)
    {
      FlattenAt(p, i, j);
    }
  }

  /** Item `j` of category `i` has its record at `Offset(p, i) + j` of `rs`. */
  predicate PlacedAt(p: Nested, rs: seq<Product>, i: nat, j: nat)
    requires i < |p| && j < |p[i].1|
  {
    Offset(p, i) + j < |rs| && RecordOf(p[i].0, p[i].1[j].1, rs[Offset(p, i) + j])
  }

  /** Every record's category is one of the catalog's category keys. */
  lemma {:induction false} FlattenCategories(p: Nested)
    requires Flatten(p).Ok?
    ensures forall k :: 0 <= k < |Flatten(p).value| ==>
      exists i :: 0 <= i < |p| && Flatten(p).value[k].category == p[i].0
  {
    if p != [] {
      var init, last := p[..|p| - 1], p[|p| - 1];
      FlattenCategories(init);
      FlattenItemsShape(last.0, last.1);
      var rs := Flatten(p).value;
      var rs0 := Flatten(init).value;
      forall k | 0 <= k < |rs|
        ensures exists i :: 0 <= i < |p| && rs[k].category == p[i].0
      {
        if k < |rs0| {
          var i :| 0 <= i < |init| && rs0[k].category == init[i].0;
          assert p[i] == init[i];
        } else {
          assert RecordOf(last.0, last.1[k - |rs0|].1, rs[k]);
          assert p[|p| - 1] == last;
        }
      }
    }
  }

  /** Flattening fails exactly when some item's date does not parse, and
      then the error names one of the catalog's date strings. */
  lemma {:induction false} FlattenFailsOnlyOnDates(p: Nested)
    ensures Flatten(p).Ok? <==> AllDatesParse(p)
    ensures Flatten(p).Err? ==>
      exists i, j :: (0 <= i < |p| && 0 <= j < |p[i].1| &&
                      Flatten(p).error == ParseError(p[i].1[j].1.lastUpdated))
  {
    if p != [] {
      var init, last := p[..|p| - 1], p[|p| - 1];
      FlattenFailsOnlyOnDates(init);
      ItemsFailOnlyOnDates(last.0, last.1);
      assert forall i :: 0 <= i < |init| ==> init[i] == p[i];
      if AllDatesParse(p) {
        assert AllDatesParse(init);
      }
    }
  }

  lemma {:induction false} ItemsFailOnlyOnDates(cat: string, items: Items)
    ensures FlattenItems(cat, items).Ok? <==>
      forall j :: 0 <= j < |items| ==> ParseDate(items[j].1.lastUpdated).Ok?
    ensures FlattenItems(cat, items).Err? ==>
      exists j :: (0 <= j < |items| &&
                   FlattenItems(cat, items).error == ParseError(items[j].1.lastUpdated))
  {
    if items != [] {
      var init := items[..|items| - 1];
      ItemsFailOnlyOnDates(cat, init);
      assert forall j :: 0 <= j < |init| ==> init[j] == items[j];
    }
  }
}

/** The sample catalog after flattening. */
module Sample {
  import opened Results
  import opened Dates
  import opened Catalog

  const Laptop := Product("Laptop", 70000, "Dell", "Electronics", Date(2025, 10, 10))
  const Smartphone := Product("Smartphone", 30000, "Samsung", "Electronics", Date(2025, 9, 15))
  const Earbuds := Product("Earbuds", 2500, "Realme", "Electronics", Date(2025, 8, 20))
  const Refrigerator := Product("Refrigerator", 55000, "LG", "Appliances", Date(2025, 9, 25))
  const WashingMachine := Product("Washing Machine", 45000, "Whirlpool", "Appliances", Date(2025, 7, 18))
  const Keyboard := Product("Keyboard", 1200, "Logitech", "Accessories", Date(2025, 8, 5))
  const Mouse := Product("Mouse", 800, "HP", "Accessories", Date(2025, 7, 30))

  const Loaded: seq<Product> :=
    [Laptop, Smartphone, Earbuds, Refrigerator, WashingMachine, Keyboard, Mouse]

  lemma Parses20251010()
    ensures ParseDate("2025-10-10") == Ok(Date(2025, 10, 10))
  {
    assert FormatDate(Date(2025, 10, 10)) == "2025-10-10";
    FormatThenParse(Date(2025, 10, 10));
  }

  lemma Parses20250915()
    ensures ParseDate("2025-09-15") == Ok(Date(2025, 9, 15))
  {
    assert FormatDate(Date(2025, 9, 15)) == "2025-09-15";
    FormatThenParse(Date(2025, 9, 15));
  }

  lemma Parses20250820()
    ensures ParseDate("2025-08-20") == Ok(Date(2025, 8, 20))
  {
    assert FormatDate(Date(2025, 8, 20)) == "2025-08-20";
    FormatThenParse(Date(2025, 8, 20));
  }

  lemma Parses20250925()
    ensures ParseDate("2025-09-25") == Ok(Date(2025, 9, 25))
  {
    assert FormatDate(Date(2025, 9, 25)) == "2025-09-25";
    FormatThenParse(Date(2025, 9, 25));
  }

  lemma Parses20250718()
    ensures ParseDate("2025-07-18") == Ok(Date(2025, 7, 18))
  {
    assert FormatDate(Date(2025, 7, 18)) == "2025-07-18";
    FormatThenParse(Date(2025, 7, 18));
  }

  lemma Parses20250805()
    ensures ParseDate("2025-08-05") == Ok(Date(2025, 8, 5))
  {
    assert FormatDate(Date(2025, 8, 5)) == "2025-08-05";
    FormatThenParse(Date(2025, 8, 5));
  }

  lemma Parses20250730()
    ensures ParseDate("2025-07-30") == Ok(Date(2025, 7, 30))
  {
    assert FormatDate(Date(2025, 7, 30)) == "2025-07-30";
    FormatThenParse(Date(2025, 7, 30));
  }

  lemma ItemsStep(cat: string, items: Items, rs: seq<Product>, x: Product, ys: seq<Product>)
    requires items != [] && FlattenItems(cat, items[..|items| - 1]) == Ok(rs)
    requires MakeRecord(cat, items[|items| - 1].1) == Ok(x) && ys == rs + [x]
    ensures FlattenItems(cat, items) == Ok(ys)
  {
  }

  /** Flattening a catalog of three categories concatenates their records. */
  lemma FlattenThree(p: Nested, xs0: seq<Product>, xs1: seq<Product>, xs2: seq<Product>)
    requires |p| == 3
    requires FlattenItems(p[0].0, p[0].1) == Ok(xs0)
    requires FlattenItems(p[1].0, p[1].1) == Ok(xs1)
    requires FlattenItems(p[2].0, p[2].1) == Ok(xs2)
    ensures Flatten(p) == Ok(xs0 + xs1 + xs2)
  {
    assert p[..1][..0] == [] && p[..1][0] == p[0];
    assert p[..2][..1] == p[..1] && p[..2][1] == p[1];
    assert p[..2] == p[..|p| - 1];
    assert Flatten(p[..1][..0]) == Ok([]);
    assert [] + xs0 == xs0;
    assert Flatten(p[..1]) == Ok(xs0);
    assert Flatten(p[..2]) == Ok(xs0 + xs1);
  }

  lemma LoadElectronics()
    ensures FlattenItems("Electronics", Products[0].1) == Ok([Laptop, Smartphone, Earbuds])
  {
    var e := Products[0].1;
    Parses20251010();
    Parses20250915();
    Parses20250820();
    assert e[..1][..0] == [] && e[..2][..1] == e[..1] && e[..2] == e[..|e| - 1];
    ItemsStep("Electronics", e[..1], [], Laptop, [Laptop]);
    ItemsStep("Electronics", e[..2], [Laptop], Smartphone, [Laptop, Smartphone]);
    ItemsStep("Electronics", e, [Laptop, Smartphone], Earbuds, [Laptop, Smartphone, Earbuds]);
  }

  lemma LoadAppliances()
    ensures FlattenItems("Appliances", Products[1].1) == Ok([Refrigerator, WashingMachine])
  {
    var a := Products[1].1;
    Parses20250925();
    Parses20250718();
    assert a[..1][..0] == [] && a[..1] == a[..|a| - 1];
    ItemsStep("Appliances", a[..1], [], Refrigerator, [Refrigerator]);
    ItemsStep("Appliances", a, [Refrigerator], WashingMachine, [Refrigerator, WashingMachine]);
  }

  lemma LoadAccessories()
    ensures FlattenItems("Accessories", Products[2].1) == Ok([Keyboard, Mouse])
  {
    var c := Products[2].1;
    Parses20250805();
    Parses20250730();
    assert c[..1][..0] == [] && c[..1] == c[..|c| - 1];
    ItemsStep("Accessories", c[..1], [], Keyboard, [Keyboard]);
    ItemsStep("Accessories", c, [Keyboard], Mouse, [Keyboard, Mouse]);
  }

  /** The three categories' records, one after the other. Stated over
      parameters so that the solver does not unfold the catalog literal. */
  lemma ConcatCategories(a: Product, b: Product, c: Product, d: Product, e: Product, f: Product, g: Product)
    ensures [a, b, c] + [d, e] + [f, g] == [a, b, c, d, e, f, g]
  {
  }

  lemma LoadCatalog(p: Nested)
    requires p == Products
    ensures Flatten(p) == Ok(Loaded)
  {
    assert |p| == 3 && p[0].0 == "Electronics" && p[1].0 == "Appliances" && p[2].0 == "Accessories";
    LoadElectronics();
    LoadAppliances();
    LoadAccessories();
    FlattenThree(p, [Laptop, Smartphone, Earbuds], [Refrigerator, WashingMachine], [Keyboard, Mouse]);
    ConcatCategories(Laptop, Smartphone, Earbuds, Refrigerator, WashingMachine, Keyboard, Mouse);
  }

  /** Loading the program's catalog gives these seven records, in this order. */
  lemma LoadProducts()
    ensures Flatten(Products) == Ok(Loaded)
  {
    LoadCatalog(Products);
  }
}
