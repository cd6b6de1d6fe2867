/**
 * The dashboard's data path: the enriched table narrowed by three sidebar choices (stocked
 * or unstocked, a brand or "All", a type or "All"), the option lists offered for brand and
 * type, the three summary counts and the Slow and Reorder tabs. The widgets' answers are
 * parameters; rendering is not modelled.
 */
module App {
  import opened Wrappers
  import opened Seqs
  import Lex
  import opened InventoryManager

  /** The radio button's two answers. */
  datatype StockChoice = Stocked | Unstocked

  /** The sidebar's three answers. */
  datatype Choices = Choices(stock: StockChoice, brand: string, itemType: string)

  /** The choice that leaves a table unfiltered. */
  const All: string := "All"

  /** The UNSTOCK_ITEMS value a stock choice keeps. */
  function StockValue(choice: StockChoice): int {
    if choice == Unstocked then 1 else 0
  }

  /** The test "column `c` holds `v`"; a missing cell equals nothing. */
  function FlagIs(c: Col, v: int): Row -> bool {
    (r: Row) => Get(r, c) == Some(v)
  }

  /** The BRAND cell. */
  function BrandOf(r: Row): Option<string> {
    r.brand
  }

  /** The TYPE cell. */
  function TypeOf(r: Row): Option<string> {
    r.itemType
  }

  /** The test "the cell `key` reads holds `v`"; a missing cell equals nothing. */
  function KeyIs(key: Row -> Option<string>, v: string): Row -> bool {
    (r: Row) => key(r) == Some(v)
  }

  /**
   * The first layer: "Unstocked" keeps the rows whose UNSTOCK_ITEMS is 1, "Stocked" those
   * whose UNSTOCK_ITEMS is 0, in their order.
   */
  function StockFilter(df: seq<Row>, choice: StockChoice): (r: seq<Row>)
    ensures IsSubsequence(r, df)
    ensures forall x <- r :: x in df && Get(x, UnstockItems) == Some(StockValue(choice))
    ensures forall x <- df :: Get(x, UnstockItems) == Some(StockValue(choice)) ==> x in r
  {
    Filter(df, FlagIs(UnstockItems, StockValue(choice)))
  }

  /**
   * The brand and type layers: "All" leaves the table as it is; any other choice keeps
   * exactly the rows whose cell equals it, in their order.
   */
  function SelectBy(df: seq<Row>, key: Row -> Option<string>, selected: string): (r: seq<Row>)
    ensures selected == All ==> r == df
    ensures IsSubsequence(r, df)
    ensures selected != All ==> forall x <- r :: key(x) == Some(selected)
    ensures selected != All ==> forall x <- df :: key(x) == Some(selected) ==> x in r
  {
    if selected == All then
      IsSubsequenceReflexive(df);
      df
    else Filter(df, KeyIs(key, selected))
  }

  /** The non-missing values of a column (`dropna`): exactly the values some row holds. */
  function Values(df: seq<Row>, key: Row -> Option<string>): (vs: seq<string>)
    ensures forall v :: v in vs <==> exists x <- df :: key(x) == Some(v)
  {
    if df == [] then []
    else
      var rest := Values(df[1..], key);
      assert forall x <- df[1..] :: x in df;
      assert forall x <- df :: x == df[0] || x in df[1..];
      if key(df[0]).Some? then [key(df[0]).value] + rest else rest
  }

  /**
   * The selectbox's options: "All", then the distinct non-missing values of the column in
   * ascending order, each once.
   */
  function Options(df: seq<Row>, key: Row -> Option<string>): (opts: seq<string>)
    ensures |opts| >= 1 && opts[0] == All
    ensures Lex.StrictlySorted(opts[1..])
    ensures forall v :: v in opts[1..] <==> exists x <- df :: key(x) == Some(v)
  {
    var vs := Lex.SortedUnique(Values(df, key));
    assert forall v :: v in vs <==> v in Lex.Elems(vs);
    assert ([All] + vs)[1..] == vs;
    [All] + vs
  }

  /** A column's sum, a missing cell counting 0. */
  function ColumnSum(df: seq<Row>, c: Col): int {
    if df == [] then 0 else CellOr0(df[0], c) + ColumnSum(df[1..], c)
  }

  /** What the dashboard shows, once the table is loaded. */
  datatype Summary = Summary(
    brandOptions: Option<seq<string>>,
    typeOptions: Option<seq<string>>,
    items: seq<Row>,
    totalItems: nat,
    slowItems: int,
    reorderItems: int,
    slowTab: seq<Row>,
    reorderTab: seq<Row>)

  /** The brand layer, skipped when the table has no BRAND column. */
  function BrandStep(df: seq<Row>, hasBrand: bool, brand: string): (r: seq<Row>)
    ensures IsSubsequence(r, df)
  {
    if hasBrand then SelectBy(df, BrandOf, brand)
    else
      IsSubsequenceReflexive(df);
      df
  }

  /** The type layer, skipped when the table has no TYPE column. */
  function TypeStep(df: seq<Row>, hasType: bool, itemType: string): (r: seq<Row>)
    ensures IsSubsequence(r, df)
  {
    if hasType then SelectBy(df, TypeOf, itemType)
    else
      IsSubsequenceReflexive(df);
      df
  }

  /**
   * The page: `None` (the error message) when the table is empty; otherwise the options
   * offered, the narrowed table, the three metrics and the two flagged subsets.
   * `hasBrand` and `hasType` say whether the table has BRAND and TYPE columns.
   */
  function Dashboard(df: seq<Row>, hasBrand: bool, hasType: bool, ch: Choices): (s: Option<Summary>)
    ensures s.None? <==> df == []
    ensures s.Some? ==> IsSubsequence(s.value.items, df) && s.value.totalItems == |s.value.items|
    ensures s.Some? ==> s.value.brandOptions.Some? == hasBrand && s.value.typeOptions.Some? == hasType
  {
    if df == [] then None
    else
      var d1 := StockFilter(df, ch.stock);
      var d2 := BrandStep(d1, hasBrand, ch.brand);
      var d3 := TypeStep(d2, hasType, ch.itemType);
      IsSubsequenceTransitive(d2, d1, df);
      IsSubsequenceTransitive(d3, d2, df);
      Some(Summary(
        if hasBrand then Some(Options(d1, BrandOf)) else None,
        if hasType then Some(Options(d2, TypeOf)) else None,
        d3,
        |d3|,
        ColumnSum(d3, SlowItems),
        ColumnSum(d3, NxtOrder),
        Filter(d3, FlagIs(SlowItems, 1)),
        Filter(d3, FlagIs(NxtOrder, 1))))
  }

  /** A row the three choices together let through. */
  function Matches(hasBrand: bool, hasType: bool, ch: Choices): Row -> bool {
    (r: Row) => Get(r, UnstockItems) == Some(StockValue(ch.stock))
         && (!hasBrand || ch.brand == All || r.brand == Some(ch.brand))
         && (!hasType || ch.itemType == All || r.itemType == Some(ch.itemType))
  }

  // Lemmas.

  /** The brand layer's test; it passes every row when the layer is skipped or "All" is chosen. */
  function BrandTest(hasBrand: bool, brand: string): Row -> bool {
    (r: Row) => !hasBrand || brand == All || r.brand == Some(brand)
  }

  /** The type layer's test, likewise. */
  function TypeTest(hasType: bool, itemType: string): Row -> bool {
    (r: Row) => !hasType || itemType == All || r.itemType == Some(itemType)
  }

  /** A layer that may be skipped is the table filtered by its test. */
  lemma BrandStepIsFilter(df: seq<Row>, hasBrand: bool, brand: string)
    ensures BrandStep(df, hasBrand, brand) == Filter(df, BrandTest(hasBrand, brand))
  {
    var t := BrandTest(hasBrand, brand);
    if !hasBrand || brand == All {
      FilterKeepsAll(df, t);
    } else {
      FilterCongruent(df, KeyIs(BrandOf, brand), t);
    }
  }

  /** The same for the type layer. */
  lemma TypeStepIsFilter(df: seq<Row>, hasType: bool, itemType: string)
    ensures TypeStep(df, hasType, itemType) == Filter(df, TypeTest(hasType, itemType))
  {
    var t := TypeTest(hasType, itemType);
    if !hasType || itemType == All {
      FilterKeepsAll(df, t);
    } else {
      FilterCongruent(df, KeyIs(TypeOf, itemType), t);
    }
  }

  /**
   * The three layers applied one after the other keep exactly the rows that satisfy all
   * three choices at once, in their order.
   */
  lemma DashboardItems(df: seq<Row>, hasBrand: bool, hasType: bool, ch: Choices)
    requires df != []
    ensures Dashboard(df, hasBrand, hasType, ch).value.items == Filter(df, Matches(hasBrand, hasType, ch))
  {
    var p1 := FlagIs(UnstockItems, StockValue(ch.stock));
    var p2 := BrandTest(hasBrand, ch.brand);
    var p3 := TypeTest(hasType, ch.itemType);
    var d1 := StockFilter(df, ch.stock);
    var d2 := BrandStep(d1, hasBrand, ch.brand);
    BrandStepIsFilter(d1, hasBrand, ch.brand);
    TypeStepIsFilter(d2, hasType, ch.itemType);
    FilterFilter(df, p1, p2);
    FilterFilter(df, And(p1, p2), p3);
    FilterCongruent(df, And(And(p1, p2), p3), Matches(hasBrand, hasType, ch));
  }

  /**
   * The brand options are "All" and the ascending distinct brands of the rows the stock
   * choice keeps; the type options likewise over the rows the brand layer keeps.
   */
  lemma DashboardOptions(df: seq<Row>, hasBrand: bool, hasType: bool, ch: Choices)
    requires df != []
    ensures var s := Dashboard(df, hasBrand, hasType, ch).value;
      && (hasBrand ==>
            && s.brandOptions.value[0] == All
            && Lex.StrictlySorted(s.brandOptions.value[1..])
            && forall v :: v in s.brandOptions.value[1..] <==>
                 exists x <- df :: Get(x, UnstockItems) == Some(StockValue(ch.stock)) && x.brand == Some(v))
      && (hasType ==>
            && s.typeOptions.value[0] == All
            && Lex.StrictlySorted(s.typeOptions.value[1..])
            && forall v :: v in s.typeOptions.value[1..] <==>
                 exists x <- df :: Get(x, UnstockItems) == Some(StockValue(ch.stock))
                                   && BrandTest(hasBrand, ch.brand)(x) && x.itemType == Some(v))
  {
    BrandStepIsFilter(StockFilter(df, ch.stock), hasBrand, ch.brand);
  }

  /** Every row shown satisfies all three choices, and every row of the table that does is shown. */
  lemma DashboardItemsMatch(df: seq<Row>, hasBrand: bool, hasType: bool, ch: Choices)
    requires df != []
    ensures var items := Dashboard(df, hasBrand, hasType, ch).value.items;
      && (forall x <- items :: Matches(hasBrand, hasType, ch)(x))
      && (forall x <- df :: Matches(hasBrand, hasType, ch)(x) ==> x in items)
  {
    DashboardItems(df, hasBrand, hasType, ch);
  }

  /**
   * With 0/1 flags the two stock choices split the table: each row lands under exactly one
   * of them, and the two sizes add up to the table's.
   */
  lemma StockChoicesPartition(df: seq<Row>)
    requires forall r <- df :: FlagsBinary(r)
    ensures multiset(StockFilter(df, Stocked)) + multiset(StockFilter(df, Unstocked)) == multiset(df)
    ensures |StockFilter(df, Stocked)| + |StockFilter(df, Unstocked)| == |df|
  {
    var one := FlagIs(UnstockItems, 1);
    FilterSplit(df, one);
    FilterSplitLength(df, one);
    FilterCongruent(df, Not(one), FlagIs(UnstockItems, 0));
  }

  /** A chosen brand or type taken from the option list, other than "All", leaves some row. */
  lemma ListedOptionKeepsRows(df: seq<Row>, key: Row -> Option<string>, v: string)
    requires v in Options(df, key) && v != All
    ensures SelectBy(df, key, v) != []
  {
    var opts := Options(df, key);
    var i :| 0 <= i < |opts| && opts[i] == v;
    assert opts[1..][i - 1] == v;
    var x :| x in df && key(x) == Some(v);
  }

  /** An option list is the only ascending, repetition-free list of the column's values. */
  lemma OptionsDetermined(df: seq<Row>, key: Row -> Option<string>, xs: seq<string>)
    requires Lex.StrictlySorted(xs)
    requires forall v :: v in xs <==> exists x <- df :: key(x) == Some(v)
    ensures Options(df, key) == [All] + xs
  {
    var opts := Options(df, key);
    assert Lex.Elems(opts[1..]) == Lex.Elems(xs);
    Lex.SortedByElements(opts[1..], xs);
    assert opts == [opts[0]] + opts[1..];
  }

  /** With 0/1 cells, a column's sum counts the rows holding 1, so it is at most the row count. */
  lemma {:induction false} FlagSumIsCount(df: seq<Row>, c: Col)
    requires forall r <- df :: IsFlag(Get(r, c))
    ensures ColumnSum(df, c) == |Filter(df, FlagIs(c, 1))|
    ensures 0 <= ColumnSum(df, c) <= |df|
  {
    if df != [] {
      assert forall r <- df[1..] :: r in df;
      FlagSumIsCount(df[1..], c);
      FlagSumStep(df, c);
    }
  }

  /** The inductive step: a 0/1 head cell adds 1 to the sum exactly when the head is kept. */
  lemma FlagSumStep(df: seq<Row>, c: Col)
    requires df != [] && IsFlag(Get(df[0], c))
    requires ColumnSum(df[1..], c) == |Filter(df[1..], FlagIs(c, 1))|
    ensures ColumnSum(df, c) == |Filter(df, FlagIs(c, 1))|
  {
    FilterCons(df, FlagIs(c, 1));
  }

  /**
   * On a table of enriched rows: `slow_items` and `reorder_items` are the sizes of the Slow
   * and Reorder tabs, those tabs hold exactly the shown rows flagged 1, and neither count
   * exceeds `total_items`.
   */
  lemma DashboardCounts(df: seq<Row>, hasBrand: bool, hasType: bool, ch: Choices)
    requires df != [] && forall r <- df :: FlagsBinary(r)
    ensures var s := Dashboard(df, hasBrand, hasType, ch).value;
      && s.slowItems == |s.slowTab| && 0 <= s.slowItems <= s.totalItems
      && s.reorderItems == |s.reorderTab| && 0 <= s.reorderItems <= s.totalItems
      && (forall x <- s.slowTab :: x in s.items && Get(x, SlowItems) == Some(1))
      && (forall x <- s.items :: Get(x, SlowItems) == Some(1) ==> x in s.slowTab)
      && (forall x <- s.reorderTab :: x in s.items && Get(x, NxtOrder) == Some(1))
      && (forall x <- s.items :: Get(x, NxtOrder) == Some(1) ==> x in s.reorderTab)
  {
    var items := Dashboard(df, hasBrand, hasType, ch).value.items;
    DashboardItems(df, hasBrand, hasType, ch);
    assert forall x <- items :: x in df;
    FlagSumIsCount(items, SlowItems);
    FlagSumIsCount(items, NxtOrder);
  }
}
