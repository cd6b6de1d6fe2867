/**
 * The inventory loader's enrichment step (`preprocess_data`) and its entry point (`main`).
 *
 * A row of the export holds numeric cells, keyed by column, that may be missing (NaN), a
 * price and a cost that may be missing, and a brand and a type that may be missing.
 * Enrichment zero-fills seventeen numeric columns and then adds five derived columns, one
 * after the other, each computed from the row's own cells only.
 */
module InventoryManager {
  import opened Wrappers

  /** The numeric columns the routine reads or writes, named as in the export's header. */
  datatype Col =
    | QtyOnHnd | Mtd | Ytd
    | First | Secon | Third | Fourt | Fifth | Sixth | Seven | Eight | Ninth | Tenth | Eleve | Twelv
    | Priory | Sales
    | AvgWeek | UnstockItems | WeekSum | SlowItems | NxtOrder

  /** A numeric cell; `None` is a missing value. */
  type Cell = Option<int>

  /**
   * One row of the table. `num` holds the numeric columns present in the row; `price`
   * and `cost` are the PRICE and COST cells, `brand` and `itemType` the BRAND and TYPE cells.
   */
  datatype Row = Row(
    num: map<Col, Cell>,
    price: Option<real>,
    cost: Option<real>,
    brand: Option<string>,
    itemType: Option<string>)

  /** The columns that are zero-filled and made integers. */
  const FillCols: seq<Col> :=
    [QtyOnHnd, Mtd, Ytd, First, Secon, Third, Fourt, Fifth, Sixth, Seven, Eight, Ninth,
     Tenth, Eleve, Twelv, Priory, Sales]

  /** The twelve weekly-sales columns: a slice of the fill columns. */
  const WeekCols: seq<Col> := FillCols[3..15]

  /** The columns whose row total decides UNSTOCK_ITEMS. */
  const ColumnsToCheck: seq<Col> :=
    [QtyOnHnd, First, Secon, Third, Fourt, Fifth, Sixth, Seven, Eight, Ninth, Tenth, Eleve, Twelv]

  /** The columns enrichment adds. */
  const DerivedCols: set<Col> := {AvgWeek, UnstockItems, WeekSum, SlowItems, NxtOrder}

  /** The fill columns are the numeric columns other than the derived ones. */
  predicate IsFillCol(c: Col) {
    !(c.AvgWeek? || c.UnstockItems? || c.WeekSum? || c.SlowItems? || c.NxtOrder?)
  }

  /** The row has every fill column (the routine fails on a table that lacks one). */
  predicate HasColumns(r: Row) {
    forall c :: IsFillCol(c) ==> c in r.num
  }

  /** The cell a column holds, `None` when the row lacks the column or the value is missing. */
  function Get(r: Row, c: Col): Cell {
    if c in r.num then r.num[c] else None
  }

  /** The value a row-wise sum sees in a cell: missing values are skipped, that is, count 0. */
  function CellOr0(r: Row, c: Col): int {
    Get(r, c).GetOr(0)
  }

  /** The row-wise sum over the given columns. */
  function SumOf(r: Row, cols: seq<Col>): int {
    if cols == [] then 0 else CellOr0(r, cols[0]) + SumOf(r, cols[1..])
  }

  /** Sum of the twelve weekly-sales cells, a missing cell counting 0. */
  function Weekly(r: Row): int {
    SumOf(r, WeekCols)
  }

  /** The ceiling of `s / 48`: the least integer whose 48-fold is at least `s`. */
  function CeilDiv48(s: int): (q: int)
    ensures 48 * q >= s && 48 * (q - 1) < s
  {
    (s + 47) / 48
  }

  /** UNSTOCK_ITEMS from the total of the checked columns. */
  function UnstockFlag(total: int): int {
    if total == 0 then 1 else 0
  }

  /**
   * SLOW_ITEMS: quantity present, weekly total in [0, 10], price below 50. A missing value
   * fails its comparison, as NaN does.
   */
  function SlowFlag(qty: Cell, weekSum: Cell, price: Option<real>): int {
    if qty.Some? && weekSum.Some? && 0 <= weekSum.value <= 10 && price.Some? && price.value < 50.0
    then 1 else 0
  }

  /** NXT_ORDER, with the three comparisons as written. */
  function ReorderFlag(avgWeek: int, qty: int): int {
    if avgWeek > qty || avgWeek + 1 > qty || avgWeek + 2 > qty then 1 else 0
  }

  /** NXT_ORDER on cells: a missing value fails both `>` comparisons. */
  function ReorderCell(avgWeek: Cell, qty: Cell): int {
    if avgWeek.Some? && qty.Some? then ReorderFlag(avgWeek.value, qty.value) else 0
  }

  // The column stages, in the order the routine runs them.

  /** The row with column `c` set to `v`. */
  function Put(r: Row, c: Col, v: int): Row {
    r.(num := r.num[c := Some(v)])
  }

  /** Missing fill cells become 0. */
  function FillRow(r: Row): Row {
    r.(num := map c | c in r.num :: if IsFillCol(c) then Some(r.num[c].GetOr(0)) else r.num[c])
  }

  function WithAvgWeek(r: Row): Row {
    Put(r, AvgWeek, CeilDiv48(SumOf(r, WeekCols)))
  }

  function WithUnstockItems(r: Row): Row {
    Put(r, UnstockItems, UnstockFlag(SumOf(r, ColumnsToCheck)))
  }

  function WithWeekSum(r: Row): Row {
    Put(r, WeekSum, SumOf(r, WeekCols))
  }

  function WithSlowItems(r: Row): Row {
    Put(r, SlowItems, SlowFlag(Get(r, QtyOnHnd), Get(r, WeekSum), r.price))
  }

  function WithNxtOrder(r: Row): Row {
    Put(r, NxtOrder, ReorderCell(Get(r, AvgWeek), Get(r, QtyOnHnd)))
  }

  /** A row after enrichment: the six stages composed. */
  function EnrichRow(r: Row): Row
    requires HasColumns(r)
  {
    WithNxtOrder(WithSlowItems(WithWeekSum(WithUnstockItems(WithAvgWeek(FillRow(r))))))
  }

  /** Each derived flag column is present and holds 0 or 1. */
  predicate FlagsBinary(r: Row) {
    IsFlag(Get(r, UnstockItems)) && IsFlag(Get(r, SlowItems)) && IsFlag(Get(r, NxtOrder))
  }

  predicate IsFlag(x: Cell) {
    x == Some(0) || x == Some(1)
  }

  // Facts about the columns.

  /** The weekly slice is exactly FIRST..TWELV in order; the checked columns add QTY_ON_HND in front. */
  lemma WeekColsAreTheTwelveWeeks()
    ensures WeekCols == [First, Secon, Third, Fourt, Fifth, Sixth, Seven, Eight, Ninth, Tenth, Eleve, Twelv]
    ensures ColumnsToCheck == [QtyOnHnd] + WeekCols
  {
  }

  /** The fill list holds exactly the fill columns. */
  lemma FillColsAreTheFillColumns()
    ensures forall c :: c in FillCols <==> IsFillCol(c)
  {
  }

  /** The weekly and the checked columns are fill columns. */
  lemma SummedColsAreFillColumns()
    ensures forall c <- WeekCols :: IsFillCol(c)
    ensures forall c <- ColumnsToCheck :: IsFillCol(c)
  {
    WeekColsAreTheTwelveWeeks();
  }

  /** Every numeric column is a fill column or a derived one, never both. */
  lemma EveryColumnFillOrDerived(c: Col)
    ensures IsFillCol(c) != (c in DerivedCols)
  {
  }

  /** No derived column is summed. */
  lemma DerivedColsNotSummed(c: Col)
    requires c in DerivedCols
    ensures c !in WeekCols && c !in ColumnsToCheck
  {
    SummedColsAreFillColumns();
    EveryColumnFillOrDerived(c);
  }

  /** A sum over fill columns reads only fill cells. */
  lemma {:induction false} SumOfSameFillCells(r: Row, s: Row, cols: seq<Col>)
    requires forall c :: IsFillCol(c) ==> CellOr0(r, c) == CellOr0(s, c)
    requires forall c <- cols :: IsFillCol(c)
    ensures SumOf(r, cols) == SumOf(s, cols)
  {
    if cols != [] {
      assert forall c <- cols[1..] :: c in cols;
      SumOfSameFillCells(r, s, cols[1..]);
    }
  }

  /** Filling changes no sum: a missing cell counts 0 either way. */
  lemma {:induction false} SumOfFill(r: Row, cols: seq<Col>)
    requires HasColumns(r)
    ensures SumOf(FillRow(r), cols) == SumOf(r, cols)
  {
    if cols != [] {
      SumOfFill(r, cols[1..]);
    }
  }

  /** Writing a column outside the summed ones changes no sum. */
  lemma {:induction false} SumOfPut(r: Row, c: Col, v: int, cols: seq<Col>)
    requires c !in cols
    ensures SumOf(Put(r, c, v), cols) == SumOf(r, cols)
  {
    if cols != [] {
      SumOfPut(r, c, v, cols[1..]);
    }
  }

  /** A sum of non-negative cells is non-negative, and zero exactly when every cell is zero. */
  lemma {:induction false} SumOfNonNegative(r: Row, cols: seq<Col>)
    requires forall c <- cols :: CellOr0(r, c) >= 0
    ensures SumOf(r, cols) >= 0
    ensures SumOf(r, cols) == 0 <==> forall c <- cols :: CellOr0(r, c) == 0
  {
    if cols != [] {
      assert forall c <- cols[1..] :: c in cols;
      SumOfNonNegative(r, cols[1..]);
      assert cols == [cols[0]] + cols[1..];
    }
  }

  /** A sum of zero cells is zero. */
  lemma {:induction false} SumOfZeros(r: Row, cols: seq<Col>)
    requires forall c <- cols :: CellOr0(r, c) == 0
    ensures SumOf(r, cols) == 0
  {
    if cols != [] {
      assert forall c <- cols[1..] :: c in cols;
      SumOfZeros(r, cols[1..]);
    }
  }

  /** The checked total is the on-hand quantity plus the weekly total. */
  lemma CheckedTotal(r: Row)
    ensures SumOf(r, ColumnsToCheck) == CellOr0(r, QtyOnHnd) + Weekly(r)
  {
    WeekColsAreTheTwelveWeeks();
    assert ColumnsToCheck[1..] == WeekCols;
  }

  /** Reading a row after one column is written. */
  lemma GetPut(r: Row, c: Col, v: int, d: Col)
    ensures Get(Put(r, c, v), d) == if d == c then Some(v) else Get(r, d)
  {
  }

  /** Writing a derived column changes neither the weekly nor the checked total. */
  lemma PutKeepsSums(r: Row, c: Col, v: int)
    requires c in DerivedCols
    ensures SumOf(Put(r, c, v), WeekCols) == SumOf(r, WeekCols)
    ensures SumOf(Put(r, c, v), ColumnsToCheck) == SumOf(r, ColumnsToCheck)
  {
    DerivedColsNotSummed(c);
    SumOfPut(r, c, v, WeekCols);
    SumOfPut(r, c, v, ColumnsToCheck);
  }

  // What enrichment computes, stated on the raw row.

  /**
   * Each cell of an enriched row computed directly from the raw row, with the formulas in
   * their simplest form: fill cells hold their value or 0, UNSTOCK_ITEMS tests
   * QTY_ON_HND plus the weekly total, NXT_ORDER tests AVG_WEEK + 2 > QTY_ON_HND.
   */
  function Expected(r: Row, d: Col): Cell {
    var w, q := Weekly(r), CellOr0(r, QtyOnHnd);
    if d == AvgWeek then Some(CeilDiv48(w))
    else if d == UnstockItems then Some(if q + w == 0 then 1 else 0)
    else if d == WeekSum then Some(w)
    else if d == SlowItems then Some(if 0 <= w <= 10 && r.price.Some? && r.price.value < 50.0 then 1 else 0)
    else if d == NxtOrder then Some(if CeilDiv48(w) + 2 > q then 1 else 0)
    else Some(CellOr0(r, d))
  }

  /** A filled cell holds its value or 0; other cells are as they were. */
  lemma FillRowCell(r: Row, c: Col)
    requires HasColumns(r)
    ensures Get(FillRow(r), c) == if IsFillCol(c) then Some(CellOr0(r, c)) else Get(r, c)
  {
  }

  /** Filling keeps the weekly and the checked totals. */
  lemma FillRowSums(r: Row)
    requires HasColumns(r)
    ensures SumOf(FillRow(r), WeekCols) == Weekly(r)
    ensures SumOf(FillRow(r), ColumnsToCheck) == CellOr0(r, QtyOnHnd) + Weekly(r)
  {
    SumOfFill(r, WeekCols);
    SumOfFill(r, ColumnsToCheck);
    CheckedTotal(r);
  }

  /** The row after the AVG_WEEK, UNSTOCK_ITEMS and WEEK_SUM stages. */
  function Through3(r: Row): Row
    requires HasColumns(r)
  {
    WithWeekSum(WithUnstockItems(WithAvgWeek(FillRow(r))))
  }

  /** What the first three stages leave in the row. */
  lemma Through3Cells(r: Row, d: Col)
    requires HasColumns(r)
    ensures Get(Through3(r), d) ==
      if d == AvgWeek then Some(CeilDiv48(Weekly(r)))
      else if d == UnstockItems then Some(UnstockFlag(CellOr0(r, QtyOnHnd) + Weekly(r)))
      else if d == WeekSum then Some(Weekly(r))
      else Get(FillRow(r), d)
  {
    FillRowSums(r);
    var f := FillRow(r);
    var w := Weekly(r);
    var a := CeilDiv48(w);
    var s1 := Put(f, AvgWeek, a);
    GetPut(f, AvgWeek, a, d);
    PutKeepsSums(f, AvgWeek, a);
    var u := UnstockFlag(CellOr0(r, QtyOnHnd) + w);
    var s2 := Put(s1, UnstockItems, u);
    GetPut(s1, UnstockItems, u, d);
    PutKeepsSums(s1, UnstockItems, u);
    GetPut(s2, WeekSum, w, d);
  }

  /** What the SLOW_ITEMS and NXT_ORDER stages leave in a row. */
  lemma Last2Cells(s3: Row, q: int, w: int, a: int, d: Col)
    requires Get(s3, QtyOnHnd) == Some(q) && Get(s3, WeekSum) == Some(w) && Get(s3, AvgWeek) == Some(a)
    ensures Get(WithNxtOrder(WithSlowItems(s3)), d) ==
      if d == NxtOrder then Some(if a + 2 > q then 1 else 0)
      else if d == SlowItems then Some(if 0 <= w <= 10 && s3.price.Some? && s3.price.value < 50.0 then 1 else 0)
      else Get(s3, d)
  {
    var sl := SlowFlag(Some(q), Some(w), s3.price);
    var s4 := Put(s3, SlowItems, sl);
    GetPut(s3, SlowItems, sl, QtyOnHnd);
    GetPut(s3, SlowItems, sl, AvgWeek);
    GetPut(s3, SlowItems, sl, d);
    var n := ReorderCell(Some(a), Some(q));
    GetPut(s4, NxtOrder, n, d);
    ReorderFlagIsLastDisjunct(a, q);
  }

  /** The six stages, column by column, compute the direct formulas. */
  lemma EnrichRowCell(r: Row, d: Col)
    requires HasColumns(r)
    ensures Get(EnrichRow(r), d) == Expected(r, d)
  {
    var s3 := Through3(r);
    var q := CellOr0(r, QtyOnHnd);
    var w := Weekly(r);
    Through3Cells(r, QtyOnHnd);
    Through3Cells(r, WeekSum);
    Through3Cells(r, AvgWeek);
    Through3Cells(r, d);
    FillRowCell(r, QtyOnHnd);
    FillRowCell(r, d);
    Last2Cells(s3, q, w, CeilDiv48(w), d);
  }

  /** Enrichment adds the derived columns and keeps PRICE, COST, BRAND and TYPE. */
  lemma EnrichRowKeys(r: Row)
    requires HasColumns(r)
    ensures var e := EnrichRow(r);
      && e.num.Keys == r.num.Keys + DerivedCols
      && e.price == r.price && e.cost == r.cost && e.brand == r.brand && e.itemType == r.itemType
  {
    var f := FillRow(r);
    assert f.num.Keys == r.num.Keys;
    var s1 := WithAvgWeek(f);
    assert s1.num.Keys == r.num.Keys + {AvgWeek};
    var s2 := WithUnstockItems(s1);
    assert s2.num.Keys == r.num.Keys + {AvgWeek, UnstockItems};
    var s3 := WithWeekSum(s2);
    assert s3.num.Keys == r.num.Keys + {AvgWeek, UnstockItems, WeekSum};
    var s4 := WithSlowItems(s3);
    assert s4.num.Keys == r.num.Keys + {AvgWeek, UnstockItems, WeekSum, SlowItems};
  }

  /**
   * An enriched row has the raw row's columns plus the derived ones; each fill cell holds
   * its value, or 0 when it was missing; PRICE, COST, BRAND and TYPE are unchanged.
   */
  lemma EnrichRowFrame(r: Row)
    requires HasColumns(r)
    ensures var e := EnrichRow(r);
      && e.num.Keys == r.num.Keys + DerivedCols
      && (forall c :: IsFillCol(c) ==> Get(e, c) == Some(CellOr0(r, c)))
      && e.price == r.price && e.cost == r.cost && e.brand == r.brand && e.itemType == r.itemType
  {
    EnrichRowKeys(r);
    forall c | IsFillCol(c) ensures Get(EnrichRow(r), c) == Some(CellOr0(r, c)) {
      EnrichRowFillCell(r, c);
    }
  }

  /** A fill cell of an enriched row holds the raw value, or 0 when it was missing. */
  lemma EnrichRowFillCell(r: Row, c: Col)
    requires HasColumns(r) && IsFillCol(c)
    ensures Get(EnrichRow(r), c) == Some(CellOr0(r, c))
  {
    EnrichRowCell(r, c);
  }

  /**
   * AVG_WEEK is the least integer whose 48-fold reaches the weekly total, WEEK_SUM is the
   * weekly total, AVG_WEEK is the ceiling of WEEK_SUM over 48, and AVG_WEEK is never
   * negative when no weekly cell is.
   */
  lemma AvgWeekIsCeiling(r: Row)
    requires HasColumns(r)
    ensures var e := EnrichRow(r);
      && Get(e, AvgWeek).Some? && Get(e, WeekSum) == Some(Weekly(r))
      && var a := Get(e, AvgWeek).value;
      && 48 * a >= Weekly(r) && 48 * (a - 1) < Weekly(r)
      && a == CeilDiv48(Get(e, WeekSum).value)
      && ((forall c <- WeekCols :: CellOr0(r, c) >= 0) ==> a >= 0)
  {
    EnrichRowCell(r, AvgWeek);
    EnrichRowCell(r, WeekSum);
    if forall c <- WeekCols :: CellOr0(r, c) >= 0 {
      SumOfNonNegative(r, WeekCols);
    }
  }

  /**
   * UNSTOCK_ITEMS is 1 exactly when QTY_ON_HND and the twelve weekly cells add up to 0,
   * and 0 otherwise. All of them zero gives 1; with no negative cell, 1 means all are zero.
   */
  lemma UnstockItemsIffZeroTotal(r: Row)
    requires HasColumns(r)
    ensures var u := Get(EnrichRow(r), UnstockItems);
      && (u == Some(1) <==> CellOr0(r, QtyOnHnd) + Weekly(r) == 0)
      && (u == Some(0) <==> CellOr0(r, QtyOnHnd) + Weekly(r) != 0)
      && ((forall c <- ColumnsToCheck :: CellOr0(r, c) == 0) ==> u == Some(1))
      && ((forall c <- ColumnsToCheck :: CellOr0(r, c) >= 0) ==>
            (u == Some(1) <==> forall c <- ColumnsToCheck :: CellOr0(r, c) == 0))
  {
    EnrichRowCell(r, UnstockItems);
    CheckedTotal(r);
    if forall c <- ColumnsToCheck :: CellOr0(r, c) == 0 {
      SumOfZeros(r, ColumnsToCheck);
    }
    if forall c <- ColumnsToCheck :: CellOr0(r, c) >= 0 {
      SumOfNonNegative(r, ColumnsToCheck);
    }
  }

  /**
   * SLOW_ITEMS is 1 exactly when WEEK_SUM lies in [0, 10] and PRICE is present and below 50,
   * and 0 otherwise: the on-hand test always passes once the column is filled.
   */
  lemma SlowItemsIff(r: Row)
    requires HasColumns(r)
    ensures var e := EnrichRow(r);
      && Get(e, WeekSum).Some?
      && var w := Get(e, WeekSum).value;
      && (Get(e, SlowItems) == Some(1) <==> 0 <= w <= 10 && r.price.Some? && r.price.value < 50.0)
      && (Get(e, SlowItems) == Some(0) <==> !(0 <= w <= 10 && r.price.Some? && r.price.value < 50.0))
  {
    EnrichRowCell(r, WeekSum);
    EnrichRowCell(r, SlowItems);
  }

  /** Of the three comparisons behind NXT_ORDER the last one decides. */
  lemma ReorderFlagIsLastDisjunct(avgWeek: int, qty: int)
    ensures ReorderFlag(avgWeek, qty) == if avgWeek + 2 > qty then 1 else 0
  {
  }

  /** NXT_ORDER is 1 exactly when AVG_WEEK + 2 exceeds QTY_ON_HND, and 0 otherwise. */
  lemma NxtOrderIff(r: Row)
    requires HasColumns(r)
    ensures var e := EnrichRow(r);
      && Get(e, AvgWeek).Some? && Get(e, QtyOnHnd).Some?
      && var a, q := Get(e, AvgWeek).value, Get(e, QtyOnHnd).value;
      && (Get(e, NxtOrder) == Some(1) <==> a + 2 > q)
      && (Get(e, NxtOrder) == Some(0) <==> a + 2 <= q)
  {
    EnrichRowCell(r, AvgWeek);
    EnrichRowCell(r, QtyOnHnd);
    EnrichRowCell(r, NxtOrder);
  }

  /** Every flag of an enriched row is 0 or 1. */
  lemma EnrichRowFlagsBinary(r: Row)
    requires HasColumns(r)
    ensures FlagsBinary(EnrichRow(r))
  {
    EnrichRowCell(r, UnstockItems);
    EnrichRowCell(r, SlowItems);
    EnrichRowCell(r, NxtOrder);
  }

  /** Rows with the same weekly total, on-hand quantity and PRICE agree once enriched, on derived cells and on fill cells they share. */
  lemma ExpectedAgrees(r: Row, s: Row, d: Col)
    requires Weekly(r) == Weekly(s) && CellOr0(r, QtyOnHnd) == CellOr0(s, QtyOnHnd)
    requires IsFillCol(d) ==> CellOr0(r, d) == CellOr0(s, d)
    requires r.price == s.price
    ensures Expected(r, d) == Expected(s, d)
  {
  }

  /** An enriched row has every fill column, the raw weekly total and the raw on-hand quantity. */
  lemma EnrichRowWeekly(r: Row)
    requires HasColumns(r)
    ensures HasColumns(EnrichRow(r))
    ensures Weekly(EnrichRow(r)) == Weekly(r)
    ensures CellOr0(EnrichRow(r), QtyOnHnd) == CellOr0(r, QtyOnHnd)
  {
    EnrichRowFrame(r);
    SummedColsAreFillColumns();
    SumOfSameFillCells(EnrichRow(r), r, WeekCols);
  }

  /** Enriching twice leaves each cell as enriching once does. */
  lemma EnrichTwiceCell(r: Row, d: Col)
    requires HasColumns(r)
    ensures HasColumns(EnrichRow(r))
    ensures Get(EnrichRow(EnrichRow(r)), d) == Get(EnrichRow(r), d)
  {
    var e := EnrichRow(r);
    EnrichRowWeekly(r);
    EnrichRowCell(r, d);
    EnrichRowCell(e, d);
    if IsFillCol(d) {
      EnrichRowFrame(r);
    }
    ExpectedAgrees(e, r, d);
  }

  /**
   * Enriching an enriched row changes nothing: the fill leaves filled cells as they are and
   * the derived columns are recomputed from the same cells.
   */
  lemma EnrichRowIdempotent(r: Row)
    requires HasColumns(r)
    ensures HasColumns(EnrichRow(r))
    ensures EnrichRow(EnrichRow(r)) == EnrichRow(r)
  {
    var e := EnrichRow(r);
    EnrichRowWeekly(r);
    var e2 := EnrichRow(e);
    EnrichRowFrame(r);
    EnrichRowFrame(e);
    assert e2.num.Keys == e.num.Keys;
    forall c | c in e.num ensures e2.num[c] == e.num[c] {
      EnrichTwiceCell(r, c);
    }
    assert e2.num == e.num;
  }

  /** A sum of cells that all hold `v` is `v` times the number of columns. */
  lemma {:induction false} SumOfConstant(r: Row, cols: seq<Col>, v: int)
    requires forall c <- cols :: CellOr0(r, c) == v
    ensures SumOf(r, cols) == |cols| * v
  {
    if cols != [] {
      assert forall c <- cols[1..] :: c in cols;
      SumOfConstant(r, cols[1..], v);
    }
  }

  /** A row with `qty` on hand, `weekly` sold in each of the twelve weeks, and the given price. */
  function SampleRow(qty: int, weekly: int, price: Option<real>): (r: Row)
    ensures HasColumns(r)
  {
    Row(map c: Col | IsFillCol(c) :: if c == QtyOnHnd then Some(qty) else if c in WeekCols then Some(weekly) else None,
        price, None, None, None)
  }

  /** The cells of a sample row. */
  lemma SampleRowCell(qty: int, weekly: int, price: Option<real>, c: Col)
    ensures CellOr0(SampleRow(qty, weekly, price), c) ==
      if c == QtyOnHnd then qty else if c in WeekCols then weekly else 0
  {
    SummedColsAreFillColumns();
    WeekColsAreTheTwelveWeeks();
  }

  /** The weekly total of a sample row is twelve times its weekly sales. */
  lemma WeeklyOfSampleRow(qty: int, weekly: int, price: Option<real>)
    ensures Weekly(SampleRow(qty, weekly, price)) == 12 * weekly
    ensures CellOr0(SampleRow(qty, weekly, price), QtyOnHnd) == qty
  {
    var r := SampleRow(qty, weekly, price);
    forall c <- WeekCols ensures CellOr0(r, c) == weekly {
      SampleRowCell(qty, weekly, price, c);
      WeekColsAreTheTwelveWeeks();
    }
    SumOfConstant(r, WeekCols, weekly);
    SampleRowCell(qty, weekly, price, QtyOnHnd);
  }

  /** Cells that are not all zero, yet flagged unstocked: -12 on hand, 1 sold each week. */
  lemma UnstockItemsWithNonzeroCells()
    ensures var r := SampleRow(-12, 1, None);
      && !(forall c <- ColumnsToCheck :: CellOr0(r, c) == 0)
      && Get(EnrichRow(r), UnstockItems) == Some(1)
  {
    var r := SampleRow(-12, 1, None);
    WeeklyOfSampleRow(-12, 1, None);
    EnrichRowCell(r, UnstockItems);
    assert ColumnsToCheck[0] == QtyOnHnd;
  }

  /**
   * Five on hand, no sales, price 20: WEEK_SUM 0, AVG_WEEK 0, slow, no reorder, and not
   * unstocked, because the on-hand quantity is part of the checked total. `SampleRow(5, 0,
   * Some(20.0))` is such a row.
   */
  lemma ScenarioNoSales(r: Row)
    requires HasColumns(r) && CellOr0(r, QtyOnHnd) == 5 && Weekly(r) == 0 && r.price == Some(20.0)
    ensures var e := EnrichRow(r);
      && Get(e, WeekSum) == Some(0) && Get(e, AvgWeek) == Some(0) && Get(e, UnstockItems) == Some(0)
      && Get(e, SlowItems) == Some(1) && Get(e, NxtOrder) == Some(0)
  {
    EnrichRowCell(r, WeekSum);
    EnrichRowCell(r, AvgWeek);
    EnrichRowCell(r, UnstockItems);
    EnrichRowCell(r, SlowItems);
    EnrichRowCell(r, NxtOrder);
  }

  /**
   * Two on hand, 60 sold over the twelve weeks, price 80: WEEK_SUM 60, AVG_WEEK 2, not
   * unstocked, not slow, and reorder, since 2 > 2 fails but 2 + 2 > 2 holds.
   * `SampleRow(2, 5, Some(80.0))` is such a row.
   */
  lemma ScenarioReorder(r: Row)
    requires HasColumns(r) && CellOr0(r, QtyOnHnd) == 2 && Weekly(r) == 60 && r.price == Some(80.0)
    ensures var e := EnrichRow(r);
      && Get(e, WeekSum) == Some(60) && Get(e, AvgWeek) == Some(2) && Get(e, UnstockItems) == Some(0)
      && Get(e, SlowItems) == Some(0) && Get(e, NxtOrder) == Some(1)
  {
    EnrichRowCell(r, WeekSum);
    EnrichRowCell(r, AvgWeek);
    EnrichRowCell(r, UnstockItems);
    EnrichRowCell(r, SlowItems);
    EnrichRowCell(r, NxtOrder);
  }

  /** The sample rows meet the scenarios' conditions. */
  lemma ScenarioRowsExist()
    ensures var r := SampleRow(5, 0, Some(20.0));
      CellOr0(r, QtyOnHnd) == 5 && Weekly(r) == 0 && r.price == Some(20.0)
    ensures var r := SampleRow(2, 5, Some(80.0));
      CellOr0(r, QtyOnHnd) == 2 && Weekly(r) == 60 && r.price == Some(80.0)
  {
    WeeklyOfSampleRow(5, 0, Some(20.0));
    WeeklyOfSampleRow(2, 5, Some(80.0));
  }

  // The routine as it runs: each assignment `df[col] = ...` rewrites every row of the table.

  /** One column assignment: every row of the table is replaced by `f` of itself. */
  method AssignColumn(a: array<Row>, f: Row -> Row)
    modifies a
    ensures forall k :: 0 <= k < a.Length ==> a[k] == f(old(a[k]))
  {
    for i := 0 to a.Length
      invariant forall k :: 0 <= k < i ==> a[k] == f(old(a[k]))
      invariant forall k :: i <= k < a.Length ==> a[k] == old(a[k])
    {
      a[i] := f(a[i]);
    }
  }

  /**
   * `preprocess_data`: the fill, then AVG_WEEK, UNSTOCK_ITEMS, WEEK_SUM, SLOW_ITEMS and
   * NXT_ORDER, each assigned to the whole table in turn. The table keeps its length and row
   * order, each row becomes its enrichment, and every flag ends up 0 or 1.
   */
  method PreprocessData(a: array<Row>)
    requires forall k :: 0 <= k < a.Length ==> HasColumns(a[k])
    modifies a
    ensures forall k :: 0 <= k < a.Length ==> a[k] == EnrichRow(old(a[k]))
    ensures forall k :: 0 <= k < a.Length ==> HasColumns(a[k]) && FlagsBinary(a[k])
  {
    ghost var a0 := a[..];
    AssignColumn(a, FillRow);
    ghost var a1 := a[..];
    AssignColumn(a, WithAvgWeek);
    ghost var a2 := a[..];
    AssignColumn(a, WithUnstockItems);
    ghost var a3 := a[..];
    AssignColumn(a, WithWeekSum);
    ghost var a4 := a[..];
    AssignColumn(a, WithSlowItems);
    ghost var a5 := a[..];
    AssignColumn(a, WithNxtOrder);
    forall k | 0 <= k < a.Length
      ensures a[k] == EnrichRow(a0[k]) && HasColumns(a[k]) && FlagsBinary(a[k])
    {
      assert a1[k] == FillRow(a0[k]);
      assert a2[k] == WithAvgWeek(a1[k]);
      assert a3[k] == WithUnstockItems(a2[k]);
      assert a4[k] == WithWeekSum(a3[k]);
      assert a5[k] == WithSlowItems(a4[k]);
      EnrichRowWeekly(a0[k]);
      EnrichRowFlagsBinary(a0[k]);
    }
  }

  /**
   * `main`: an empty table when `load_file` returns `None` (`loaded` is `None`), otherwise the
   * loaded table enriched row by row. The result is empty exactly when `loaded` is `None` or
   * holds no rows.
   */
  method RunMain(loaded: Option<seq<Row>>) returns (df: seq<Row>)
    requires loaded.Some? ==> forall r <- loaded.value :: HasColumns(r)
    ensures loaded.None? ==> df == []
    ensures loaded.Some? ==> |df| == |loaded.value|
    ensures loaded.Some? ==> forall k :: 0 <= k < |df| ==> df[k] == EnrichRow(loaded.value[k])
    ensures forall r <- df :: HasColumns(r) && FlagsBinary(r)
    ensures df == [] <==> loaded.None? || loaded.value == []
  {
    if loaded.None? {
      df := [];
    } else {
      var rows := loaded.value;
      var a := new Row[|rows|](k requires 0 <= k < |rows| => rows[k]);
      assert forall k :: 0 <= k < a.Length ==> a[k] == rows[k];
      PreprocessData(a);
      df := a[..];
    }
  }
}
