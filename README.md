# Inventory enrichment and dashboard filters, in Dafny

This project models two parts of the inventory dashboard.

The first is `inventory_manager.py`: the routine `preprocess_data` and the entry point `main`.
Given a table of inventory rows, `preprocess_data` does the following, each as one column assignment
over the whole table:
- zero-fills seventeen numeric columns;
- adds `AVG_WEEK`, the ceiling of the twelve weekly sales over 48;
- adds `UNSTOCK_ITEMS`, `WEEK_SUM`, `SLOW_ITEMS` and `NXT_ORDER`.

`main` returns an empty table when `load_file` returns `None`, and the enriched table otherwise.

The second is `app.py`'s data path. It takes the enriched table and applies:
- a stock filter (`UNSTOCK_ITEMS` 1 or 0);
- a brand filter and a type filter, where "All" keeps everything;
- the option lists of the two drop-downs (`"All"` plus the sorted distinct non-missing values);
- the three metrics;
- the Slow and Reorder tabs.

Modules:
- `Wrappers` (`wrappers.dfy`): `Option`, for missing cells and for the `None` that `load_file` may return.
- `Seqs` (`seqs.dfy`): row selection `df[mask]` as `Filter`, and the laws it obeys.
- `Lex` (`lex.dfy`): Python's ordering of strings and `sorted(set(xs))`.
- `InventoryManager` (`inventory_manager.dfy`): rows, the per-row formulas, and `preprocess_data` and `main` as methods over an `array<Row>`.
- `App` (`app.dfy`): the filter chain, the options, the counts and the tabs, as pure functions.

A row holds its numeric cells as a map from column to `Option<int>`, where `None` is a missing value (NaN).
The other cells are `PRICE` and `COST` as `Option<real>`, and `BRAND` and `TYPE` as `Option<string>`.

Missing values follow pandas:
- a missing cell fails every comparison the code makes (`==`, `<`, `>`, `between`);
- a row-wise or column-wise sum skips it.

`preprocess_data` is written as six successive assignments to `df`, and later ones read columns written by earlier ones.
It is modelled the same way.
- `AssignColumn` rewrites every row of an array with one stage.
- `PreprocessData` runs the six stages in order.
- Its contract ties the new array to `EnrichRow`, the six stage functions composed.
- The lemmas characterise `EnrichRow` directly on the raw row, through the reference function `Expected`.

Some of the code's behaviour is easy to misread:
- The code fills seventeen columns, `PRIORY` and `SALES` among them.
- `UNSTOCK_ITEMS` is 1 when `QTY_ON_HND` plus the twelve weekly cells sum to 0; the on-hand quantity is part of that sum.
  - A row with 5 on hand and no sales is therefore not unstocked: `ScenarioNoSales` proves `UNSTOCK_ITEMS` = 0 for it.
  - The comment above the line says "if all values in these columns are zero". That only matches when no cell is negative (`UnstockItemsIffZeroTotal`). `UnstockItemsWithNonzeroCells` gives a row with non-zero cells that is flagged anyway.
- `NXT_ORDER`'s three comparisons amount to the last one, `AVG_WEEK + 2 > QTY_ON_HND` (`ReorderFlagIsLastDisjunct`, `NxtOrderIff`).
- `main` returns a table that the dashboard treats as empty in two cases: `load_file` returned `None`, or it loaded no rows (`RunMain`).

## Model

| member | source | states |
|---|---|---|
| `InventoryManager.WeekColsAreTheTwelveWeeks` | inventory_manager.py:42 | the slice `fill_cols[3:15]` is exactly FIRST..TWELV in order, and the checked columns are QTY_ON_HND followed by them |
| `InventoryManager.FillColsAreTheFillColumns` | inventory_manager.py:34-38 | the seventeen filled columns are exactly the numeric columns other than the five derived ones |
| `InventoryManager.DerivedColsNotSummed` | inventory_manager.py:42-51 | no derived column is among the weekly or the checked columns |
| `InventoryManager.CeilDiv48` | inventory_manager.py:43 | the result is the least integer whose 48-fold reaches the sum |
| `InventoryManager.SumOf` | inventory_manager.py:43-58 | the row-wise `sum(axis=1)` over the given columns, a missing cell counting 0. Its properties are stated by `SumOfFill`, `CheckedTotal` and `SumOfNonNegative` |
| `InventoryManager.UnstockFlag` | inventory_manager.py:54 | `(total == 0).astype(int)`: 1 for a zero total, else 0. `UnstockItemsIffZeroTotal` states what it means for an enriched row |
| `InventoryManager.SlowFlag` | inventory_manager.py:59-63 | the three conjuncts of SLOW_ITEMS, where a missing value fails its comparison as NaN does. `SlowItemsIff` states the resulting flag |
| `InventoryManager.ReorderFlag` | inventory_manager.py:66-70 | the three disjuncts of NXT_ORDER as written. `ReorderFlagIsLastDisjunct` shows they reduce to the last one |
| `InventoryManager.ReorderCell` | inventory_manager.py:66-70 | NXT_ORDER on cells, 0 when either value is missing. `NxtOrderIff` states the flag of an enriched row |
| `InventoryManager.SumOfFill` | inventory_manager.py:39 | zero-filling changes no row sum, since a sum already counts a missing cell as 0 |
| `InventoryManager.CheckedTotal` | inventory_manager.py:48-54 | the total of the checked columns is QTY_ON_HND plus the weekly total |
| `InventoryManager.SumOfNonNegative` | inventory_manager.py:53-54 | a sum of non-negative cells is non-negative, and zero exactly when every cell is zero |
| `InventoryManager.FillRow` | inventory_manager.py:39 | `fillna(0)` on the seventeen fill columns, every other cell kept. `FillRowCell` states this cell by cell and `EnrichRowFrame` states it after enrichment |
| `InventoryManager.WithAvgWeek` | inventory_manager.py:43 | sets AVG_WEEK to the ceiling of the weekly total over 48. `AvgWeekIsCeiling` states the value |
| `InventoryManager.WithUnstockItems` | inventory_manager.py:48-54 | sets UNSTOCK_ITEMS from the total of the checked columns. `UnstockItemsIffZeroTotal` states the value |
| `InventoryManager.WithWeekSum` | inventory_manager.py:58 | sets WEEK_SUM to the weekly total. `AvgWeekIsCeiling` and `EnrichRowCell` state the value |
| `InventoryManager.WithSlowItems` | inventory_manager.py:59-63 | sets SLOW_ITEMS from QTY_ON_HND, WEEK_SUM and PRICE as they stand after the earlier stages. `SlowItemsIff` states the value |
| `InventoryManager.WithNxtOrder` | inventory_manager.py:66-70 | sets NXT_ORDER from AVG_WEEK and QTY_ON_HND. `NxtOrderIff` states the value |
| `InventoryManager.EnrichRow` | inventory_manager.py:32-72 | the six stages composed in source order. `EnrichRowCell` characterises each of its cells, and `EnrichRowKeys` its columns |
| `InventoryManager.EnrichRowCell` | inventory_manager.py:39-70 | each cell of an enriched row equals the direct formula on the raw row: filled value or 0; ceiling of weekly/48; flag on QTY_ON_HND + weekly = 0; weekly total; WEEK_SUM in [0,10] with PRICE < 50; AVG_WEEK + 2 > QTY_ON_HND |
| `InventoryManager.EnrichRowKeys` | inventory_manager.py:39-70 | enrichment adds exactly the five derived columns and leaves PRICE, COST, BRAND and TYPE untouched |
| `InventoryManager.EnrichRowFrame` | inventory_manager.py:39 | after enrichment each of the seventeen fill cells holds its value, or 0 when it was missing, and no other column is lost |
| `InventoryManager.AvgWeekIsCeiling` | inventory_manager.py:43 | AVG_WEEK is the least integer whose 48-fold reaches the weekly total. It equals the ceiling of WEEK_SUM over 48, and it is non-negative when no weekly cell is negative |
| `InventoryManager.EnrichRowWeekly` | inventory_manager.py:58 | an enriched row keeps every fill column, its weekly total and its on-hand quantity |
| `InventoryManager.UnstockItemsIffZeroTotal` | inventory_manager.py:48-54 | UNSTOCK_ITEMS is 1 iff QTY_ON_HND plus the weekly cells sum to 0, and 0 otherwise. All-zero cells give 1, and with no negative cell, 1 means all are zero |
| `InventoryManager.UnstockItemsWithNonzeroCells` | inventory_manager.py:53-54 | a row with -12 on hand and 1 sold each week has non-zero cells yet is flagged unstocked |
| `InventoryManager.SlowItemsIff` | inventory_manager.py:58-63 | SLOW_ITEMS is 1 iff WEEK_SUM is in [0, 10] (inclusive) and PRICE is present and below 50, and 0 otherwise |
| `InventoryManager.ReorderFlagIsLastDisjunct` | inventory_manager.py:66-70 | the three-way disjunction equals its last disjunct, `AVG_WEEK + 2 > QTY_ON_HND` |
| `InventoryManager.NxtOrderIff` | inventory_manager.py:66-70 | NXT_ORDER is 1 iff AVG_WEEK + 2 > QTY_ON_HND, and 0 otherwise |
| `InventoryManager.EnrichRowFlagsBinary` | inventory_manager.py:54-70 | every derived flag of an enriched row is present and is 0 or 1 |
| `InventoryManager.EnrichRowIdempotent` | inventory_manager.py:32-72 | enriching an enriched row changes nothing |
| `InventoryManager.ScenarioNoSales` | inventory_manager.py:39-70 | with 5 on hand, no sales and price 20, the result is WEEK_SUM 0, AVG_WEEK 0, UNSTOCK_ITEMS 0, SLOW_ITEMS 1 and NXT_ORDER 0 |
| `InventoryManager.ScenarioReorder` | inventory_manager.py:43-70 | with 2 on hand, 60 sold and price 80, the result is WEEK_SUM 60, AVG_WEEK 2, UNSTOCK_ITEMS 0, SLOW_ITEMS 0 and NXT_ORDER 1 |
| `InventoryManager.ScenarioRowsExist` | inventory_manager.py:39-43 | rows meeting both scenarios' conditions exist |
| `InventoryManager.AssignColumn` | inventory_manager.py:39-70 | one column assignment replaces every row by the stage applied to it, and touches nothing else |
| `InventoryManager.PreprocessData` | inventory_manager.py:32-72 | the table keeps its length and order. Each row becomes its enrichment, keeps every fill column, and has 0/1 flags |
| `InventoryManager.RunMain` | inventory_manager.py:74-82 | a `None` load gives the empty table. Otherwise each loaded row is enriched, in order, with 0/1 flags. The result is empty exactly when the load gave `None` or no rows |
| `Seqs.Filter` | app.py:23 | row selection keeps, in order, exactly the rows that pass the test, each as many times as it occurs |
| `Seqs.FilterFilter` | app.py:22-49 | selecting twice is selecting once by both tests |
| `Seqs.FilterSplit` | app.py:22-25 | a test and its opposite split the rows between them |
| `Lex.BelowTotal` | app.py:29 | of two distinct strings, one is below the other in Python's string order |
| `Lex.BelowTransitive` | app.py:29 | Python's string order is transitive |
| `Lex.SortedUnique` | app.py:29 | `sorted(set(xs))`: strictly ascending, holding exactly the values of `xs` |
| `Lex.SortedByElements` | app.py:29 | two strictly ascending lists with the same values are equal |
| `App.StockFilter` | app.py:22-25 | "Unstocked" keeps exactly the rows with UNSTOCK_ITEMS 1, and "Stocked" those with 0, in order |
| `App.StockChoicesPartition` | app.py:22-25 | with 0/1 flags the two stock choices split the table: their multisets add up to the table and their sizes to its size |
| `App.SelectBy` | app.py:36-37 | "All" gives the table unchanged. Any other choice keeps, in order, exactly the rows whose cell equals it |
| `App.Values` | app.py:29 | `dropna()` keeps exactly the column's non-missing values |
| `App.Options` | app.py:29-33 | the options are "All" followed by the column's distinct non-missing values, strictly ascending |
| `App.OptionsDetermined` | app.py:41-45 | the option list is the only such list |
| `App.ListedOptionKeepsRows` | app.py:48-49 | choosing any listed option other than "All" leaves at least one row |
| `App.BrandStep` | app.py:28-37 | the brand layer keeps a subsequence of its input. `BrandStepIsFilter` states which rows it keeps |
| `App.TypeStep` | app.py:40-49 | the type layer keeps a subsequence of its input. `TypeStepIsFilter` states which rows it keeps |
| `App.BrandStepIsFilter` | app.py:28-37 | the brand layer, run or skipped, is a selection by one test |
| `App.TypeStepIsFilter` | app.py:40-49 | the type layer, run or skipped, is a selection by one test |
| `App.Dashboard` | app.py:12-74 | an empty table gives the error state and nothing else does. The rows shown are a subsequence of the table, `total_items` is their number, and an option list exists exactly when the table has the column |
| `App.DashboardOptions` | app.py:28-45 | the brand options are "All" and the ascending distinct brands of the rows the stock choice keeps; the type options likewise over the rows the stock and brand choices keep |
| `App.DashboardItems` | app.py:17-52 | the narrowed table is the input selected by the three choices at once |
| `App.DashboardItemsMatch` | app.py:22-49 | every row shown satisfies all three choices, and every row of the table that does is shown |
| `App.ColumnSum` | app.py:53-54 | a column's `sum()`, a missing cell counting 0. `FlagSumIsCount` states what it counts for a 0/1 column |
| `App.FlagSumIsCount` | app.py:53-54 | with 0/1 cells a column sum counts the rows holding 1, and lies between 0 and the row count |
| `App.DashboardCounts` | app.py:52-71 | on enriched rows the slow and reorder metrics are the sizes of the Slow and Reorder tabs and at most `total_items`. Each tab holds exactly the shown rows flagged 1 |

## Left out

- `load_file` (inventory_manager.py:8-30): it reads a file and tries four `read_csv` parsers in turn. `RunMain` takes its outcome as a parameter: `None` when `load_file` returns `None`, otherwise the rows.
- Load errors other than `ParserError` from the first three parsers (a missing file, an empty file, a decoding error) escape `load_file` and `main` (inventory_manager.py:9-23), so the dashboard's error branch (app.py:73-74) is not reached for them; the model has no such outcome.
- The logging configuration and the log calls: side effects only.
- All of Streamlit's rendering: page setup, sidebar widgets, metrics, tabs, tables. The widget answers are parameters (`Choices`); whether BRAND and TYPE columns exist is `hasBrand` and `hasType`.
- Streamlit's re-run of the script on every interaction: each `Dashboard` call is one run.
- `astype(int)` truncating fractional cells: numeric cells are integers from the start.
- `np.ceil(x / 48)` goes through floating point. It is modelled as exact integer ceiling division, which agrees while weekly totals stay below 2^53.
- 64-bit overflow of the sums: integers are unbounded.
- Cells of other kinds: PRICE is a real or missing, BRAND and TYPE strings or missing. A non-numeric PRICE, or a BRAND or TYPE mixing kinds that `sorted` could not order, is not modelled.
- A table without one of the seventeen filled columns, or without PRICE: the source raises `KeyError`. The model requires the columns (`HasColumns`) and always carries a PRICE cell.
- Columns other than those the routine touches: a row carries only the named ones.
- Pandas' column-wise storage and the aliasing of the caller's frame: the routine is modelled on an array of rows, one row at a time per stage.
- The restriction of the brand and type choices to the offered options: `Choices` holds any strings, which covers every choice the drop-downs can produce.
