# HO entry clearance visas: the observation merge

This project models the observation merge of the Home Office entry
clearance visa pipeline and proves properties of it. The merge starts
from two tidy tables:

- the country-of-nationality table from sheet vi_05;
- the application-category table from sheet vi_01_q.

It brings them onto one schema:

1. `Year` is renamed to `Period` and `Country of nationality` to
   `HO Country of Nationality`.
2. The period column is turned into strings (`astype(str)`), and every
   four-digit run of a period is rewritten to `year/NNNN`.
3. The four category dimensions of vi_05 are filled with `All`.
4. vi_01_q's country becomes `Rest of world`.
5. The two tables are concatenated, and the constant columns
   `Measure Type = Count` and `Unit = Applications` are added.
6. Each of the five categorical columns is replaced by its notation code
   through `pathify`.

Modules:

- `Periods`: the regular-expression rewrite `([0-9]{4})` → `year/\1`, as a
  leftmost, non-overlapping substitution on strings. It is shown to lose no
  information (an inverse exists), to change exactly the values that hold a
  four-digit run, and to be not idempotent.
- `Tables`: tables as values. A row is a map from column name to cell, and
  a cell is a string, an integer or NaN (`Blank`). The module defines the
  pandas operations the merge uses: `rename`, `astype(str)`, `replace`,
  scalar column assignment, `Series.map` and `concat`. Each one has a lemma saying which
  cells change and which do not.
- `Frames`: a `Frame` class whose `columns` and `rows` fields are updated in
  place, as `rename(..., inplace=True)`, `replace(..., inplace=True)`,
  `entry_1['Period'] = entry_1['Period'].astype(str)` and
  `df[col] = ...` update a data frame. Each method is specified by the
  `Tables` function it performs.
- `Merge`: the script body as an imperative method, `MergeObservations`,
  with its two `for` loops. It is proved to produce `MergedObservations` of
  its inputs and to leave the input frames unchanged. Lemmas then describe
  each observation in terms of the input row it comes from.

`pathify` (the slug function of the pipeline's library) is a parameter of
type `string -> string`. Nothing is assumed about it.

## Model

| member | source | states |
|---|---|---|
| Periods.YearRewrite | main.py:38-40 | the `re.sub` of `([0-9]{4})` by `year/\1`, leftmost and non-overlapping; the result is never shorter than the value |
| Periods.BareYearBecomesToken | main.py:38-40 | a bare four-digit year `YYYY` becomes `year/YYYY` |
| Periods.NoYearUnchanged | main.py:38-40 | a value with no run of four digits is returned unchanged |
| Periods.UnchangedIffNoYear | main.py:38-40 | the rewrite leaves a value unchanged if and only if the value has no four-digit run |
| Periods.RewriteLength | main.py:38-40 | the rewrite never shortens a value, and lengthens one with a four-digit run by at least five characters |
| Periods.FirstOfRewrite | main.py:38-40 | the rewrite of a non-empty value starts with `y` where a match starts, and otherwise with the copied first character |
| Periods.CopiedPrefix | main.py:38-40 | a prefix of the output with no `y` was copied verbatim from the input, and no match starts inside it |
| Periods.CopyIsNoToken | main.py:38-40 | where no match starts at the front, the output does not start with a `year/NNNN` token |
| Periods.UnrewriteRewrite | main.py:38-40 | removing the inserted `year/` prefixes restores the original value, so the rewrite loses no information |
| Periods.DigitFreePrefix | main.py:38-40 | a prefix without digits passes through the rewrite verbatim |
| Periods.RewriteNotIdempotent | main.py:38-40 | rewriting `year/YYYY` again gives `year/year/YYYY`, so the rewrite is not idempotent |
| Tables.DecimalDigits | main.py:37 | the decimal form of a non-negative integer is a non-empty run of digits |
| Tables.DecimalRoundTrip | main.py:37 | reading the decimal form back gives the integer, so no two integers are written alike |
| Tables.FourDigitYear | main.py:37 | a year between 1000 and 9999 is written with exactly four digits |
| Tables.AsString | main.py:37 | `astype(str)` turns every cell into a string: a string stays, an integer becomes its decimal form, NaN becomes `nan` |
| Tables.RewriteCell | main.py:38-40 | the regex replace touches only string cells, and never shortens one; number and NaN cells stay |
| Tables.YearCellBecomesToken | main.py:37-40 | an integer year `YYYY` turned into a string and rewritten is the token `year/YYYY` |
| Tables.MapCell | main.py:54 | `Series.map` gives a string cell for a string cell, and leaves other cells as they are |
| Tables.Apply | main.py:34-54 | one row step: a rename moves the old cell under the new name, an assignment writes the value, a padding adds the missing columns |
| Tables.ApplyFrame | main.py:34-54 | a row step keeps every column it does not write, and adds no column it does not write |
| Tables.MapRows | main.py:34-54 | a column-wise operation keeps the number of rows |
| Tables.MapRowsAt | main.py:34-54 | a column-wise operation keeps row order: output row `i` is input row `i` transformed |
| Tables.Renamed | main.py:34-36 | the rename keeps the table rectangular and keeps its row count |
| Tables.RenamedCells | main.py:34-36 | the renamed column's cells sit under the new name, every other cell stays, and a missing old name changes nothing |
| Tables.Stringified | main.py:37 | `astype(str)` keeps the table rectangular and keeps its row count |
| Tables.StringifiedCells | main.py:37 | `astype(str)` turns each cell of the column into its string form, and no other cell changes |
| Tables.Assigned | main.py:42 | assigning a scalar keeps the table rectangular and keeps its row count |
| Tables.AssignedCells | main.py:44 | assigning a scalar adds or overwrites the column with that value in every row, and every other cell stays |
| Tables.YearsReplaced | main.py:38-40 | the replace keeps the table rectangular and keeps its row count |
| Tables.YearsReplacedCells | main.py:38-40 | the replace rewrites every cell of the named column and no other cell, and the columns stay |
| Tables.ColumnMapped | main.py:54 | mapping a column needs the column and keeps columns and row count |
| Tables.ColumnMappedCells | main.py:54 | mapping a column replaces each of its cells by the cell's image and no other cell |
| Tables.Concat | main.py:45 | the concatenation's columns are the union of both tables' columns, and its rows number the sum |
| Tables.ConcatCells | main.py:45 | the first rows are the first table's rows in order and then the second's, with NaN where a table lacks a column |
| Tables.ConcatAt | main.py:45 | row `k` of the concatenation is row `k` of the first table, or row `k - n` of the second, padded with NaN |
| Tables.AssignedAll | main.py:41-42 | the assignment loop keeps the table rectangular and keeps its row count |
| Tables.AssignRowAllCells | main.py:41-42 | after the assignments a row has each assigned column holding the value, and its other cells are unchanged |
| Tables.AssignedAllAt | main.py:41-42 | the assignment loop acts row by row, keeping row order |
| Tables.AssignedAllColumns | main.py:41-42 | the assignment loop adds exactly the assigned columns |
| Tables.AssignedAllCells | main.py:41-42 | after the loop every row holds the value in each assigned column, and every other cell is unchanged |
| Tables.MappedAll | main.py:52-54 | the mapping loop keeps the columns and the row count |
| Tables.MapRowAllCells | main.py:52-54 | mapping distinct columns maps each of their cells once and leaves the other cells unchanged |
| Tables.MappedAllAt | main.py:52-54 | the mapping loop acts row by row, keeping row order |
| Tables.MappedAllCells | main.py:52-54 | after the loop each listed column holds the images of its old cells, and every other cell is unchanged |
| Frames.Frame.constructor | main.py:29 | a new frame holds the given table |
| Frames.Frame.Copy | main.py:29 | `copy()` gives a fresh frame with the same table, so later changes to one never reach the other |
| Frames.Frame.Rename | main.py:34-36 | the in-place rename leaves the frame holding the renamed table |
| Frames.Frame.AsStrings | main.py:37 | the in-place `astype(str)` of a column, which needs the column, leaves the frame holding the stringified table |
| Frames.Frame.ReplaceYears | main.py:38-40 | the in-place replace leaves the frame holding the year-rewritten table |
| Frames.Frame.Assign | main.py:42-47 | the column assignment leaves the frame holding the assigned table |
| Frames.Frame.MapColumn | main.py:54 | the column mapping, which needs the column, leaves the frame holding the mapped table |
| Frames.ConcatFrames | main.py:45 | `pd.concat` gives a fresh frame holding the concatenation, and neither argument changes |
| Merge.DimensionNames | main.py:41-53 | the five notation columns are distinct; they are the country plus the four filled dimensions; none is Period, Measure Type or Unit |
| Merge.NationalityEntry | main.py:34-42 | one vi_05 row through lines 34-42; a row with a Year or a Period ends with a string Period |
| Merge.NationalityEntryCells | main.py:34-42 | a vi_05 row becomes a row whose Period is the year turned into a string and rewritten, whose country is the country of nationality, whose four category dimensions hold `All`, and whose other cells are unchanged |
| Merge.CategoryEntry | main.py:44 | one vi_01_q row through line 44: it gains the country column, holding `Rest of world` |
| Merge.CategoryEntryCells | main.py:44 | a vi_01_q row becomes a row whose country is `Rest of world`, with nothing else changed |
| Merge.Labelled | main.py:46-47 | a row gains Measure Type `Count` and Unit `Applications`, and no other column |
| Merge.Observation | main.py:45-54 | one row through lines 45-54: its columns are its own, the concatenation's, Measure Type and Unit |
| Merge.ObservationCells | main.py:45-54 | an entry row becomes an observation with `Count` and `Applications`, the notation of its cell in each notation column (NaN where missing), and its own cell or NaN elsewhere |
| Merge.Entry1 | main.py:34-42 | `entry_1` has the input's row count; it gains Period, the country and the four dimensions; every other column stays |
| Merge.Entry1At | main.py:34-42 | row `i` of `entry_1` is row `i` of vi_05 carried through the rename, the rewrite and the fill |
| Merge.Entry2 | main.py:44 | `entry_2` has the input's rows and its columns plus the country |
| Merge.Entry2At | main.py:44 | row `j` of `entry_2` is row `j` of vi_01_q with the country set |
| Merge.Combined | main.py:45-47 | `combined` has `|entry_1| + |entry_2|` rows, and its columns are the union plus Measure Type and Unit |
| Merge.CombinedAt | main.py:45-47 | row `x` of `combined` is the padded and labelled row `x` of `entry_1`, or row `x - |entry_1|` of `entry_2` |
| Merge.MergedObservations | main.py:29-54 | the observations number the rows of both inputs together, and their columns are `entry_1`'s, vi_01_q's and the three added ones |
| Merge.MergedNationalityAt | main.py:29-54 | observation `i` comes from row `i` of vi_05, in order |
| Merge.MergedCategoryAt | main.py:29-54 | observation `n + j` comes from row `j` of vi_01_q, after all vi_05 rows, in order, with no deduplication |
| Merge.RenamedColumns | main.py:34-36 | after the rename, the columns of vi_05 are their renamed names |
| Merge.Entry1Columns | main.py:34-42 | `entry_1`'s columns are the renamed columns plus the four category dimensions |
| Merge.MergedColumns | main.py:34-54 | the observations' columns are the renamed vi_05 columns, vi_01_q's columns, the four dimensions, the country, Measure Type and Unit |
| Merge.MergedNationalityConstants | main.py:46-47 | every observation from vi_05 has Measure Type `Count` and Unit `Applications` |
| Merge.MergedCategoryConstants | main.py:46-47 | every observation from vi_01_q has Measure Type `Count` and Unit `Applications` |
| Merge.MergedNationalityDimensions | main.py:41-54 | every observation from vi_05 holds `pathify("All")` in each of the four category dimensions |
| Merge.MergedNationalityPeriod | main.py:34-40 | the Period of an observation from vi_05 is a string: its row's year turned into a string and rewritten (or its existing Period, so treated, when there is no Year column) |
| Merge.MergedNationalityYear | main.py:34-40 | a vi_05 row whose Year is the integer `YYYY` gives an observation whose Period is `year/YYYY` |
| Merge.MergedNationalityCountry | main.py:34-54 | the country of an observation from vi_05 is the notation of its country of nationality |
| Merge.MergedNationalityOthers | main.py:34-54 | every other cell of a vi_05 row, its Value among them, reaches its observation unchanged |
| Merge.MergedCategoryCountry | main.py:44-54 | the country of an observation from vi_01_q is `pathify("Rest of world")` |
| Merge.MergedCategoryDimensions | main.py:45-54 | the category dimensions of an observation from vi_01_q are the notations of its own labels, or NaN where vi_01_q lacks the column |
| Merge.MergedCategoryOthers | main.py:44-54 | every other cell of a vi_01_q row, its Value among them, reaches its observation unchanged |
| Merge.MergedCategoryPeriod | main.py:37-45 | the Period of an observation from vi_01_q is its row's own Period, so the rewrite never touches vi_01_q |
| Merge.BuildEntry1 | main.py:29-42 | a fresh copy of vi_05 is changed in place until it holds `Entry1` |
| Merge.BuildEntry2 | main.py:33-44 | a fresh copy of vi_01_q is changed in place until it holds `Entry2` |
| Merge.MapToNotation | main.py:52-54 | the loop over the five notation columns leaves `combined` holding the mapped table |
| Merge.MergeObservations | main.py:29-54 | the script body gives a fresh frame holding `MergedObservations` of its inputs, and the input frames are unchanged |

## Left out

- Scraping and loading the workbook (main.py:1-27) are left out. They are network I/O and calls into libraries not shown.
- The two notebooks run at main.py:28 and main.py:32 are not part of this model. Their `tidy` outputs are the inputs of the merge.
- The internals of `pathify` are left out. It is a parameter, and the model assumes nothing about slug shape or injectivity.
- Floating-point cells are left out. A number cell holds an integer, so `astype(str)` at main.py:37 is modelled for strings, integers (decimal digits, with `-` for a negative one) and NaN (`nan`), but not for floats.
- Tables.MapCell: `Series.map` also calls `pathify` on NaN and number cells. The model leaves those cells as they are, because what `pathify` does with them lies outside the code shown.
- Column order is left out. `sort=True` at main.py:45 only orders columns, and the model keeps a table's columns as a set.
- pandas dtypes are left out. A missing cell after `concat` is `Blank`, standing for NaN.
- Duplicate column names are left out. A rename onto a name that already exists replaces that column.
- The two renames of main.py:34-36 are applied one after the other. This equals pandas' simultaneous rename because the four names are distinct.
- Merge.MergeObservations requires a Year or a Period column in vi_05. Reading `entry_1['Period']` at main.py:37 raises KeyError otherwise. The table functions are total and simply skip the conversion and the rewrite.
- Writing `observations.csv`, creating the output directory and generating the dataset metadata (main.py:55-70) are left out. They are file I/O and RDF packaging.
