/** Tidy tables as values, and the table operations the merge script uses:
    renaming a column, the regular-expression replace on one column, assigning
    a constant column, mapping one column through a function, and
    concatenating two tables. */
module Tables {
  import opened Periods

  /** A cell: a string, a number, or missing (NaN). */
  datatype Cell = Text(s: string) | Number(n: int) | Blank

  /** A row maps each column name to its cell. */
  type Row = map<string, Cell>

  /** A table: its set of column names and its rows, in order. */
  datatype Table = Table(columns: set<string>, rows: seq<Row>)

  /** A table is rectangular: every row has a cell for exactly its columns. */
  predicate WellFormed(t: Table) {
    forall i :: 0 <= i < |t.rows| ==> t.rows[i].Keys == t.columns
  }

  /** The decimal digits of `n`, most significant first, as `str(n)` writes
      a non-negative integer. */
  function DecimalDigits(n: nat): (d: string)
    ensures |d| > 0 && forall i :: 0 <= i < |d| ==> IsDigit(d[i])
  {
    if n < 10 then [DigitChar(n)] else DecimalDigits(n / 10) + [DigitChar(n % 10)]
  }

  function DigitChar(k: nat): char
    requires k < 10
  {
    (48 + k) as char
  }

  /** The integer that a string of decimal digits denotes. */
  function DigitsValue(d: string): nat
    requires forall i :: 0 <= i < |d| ==> IsDigit(d[i])
  {
    if |d| == 0 then 0
    else
      assert IsDigit(d[|d| - 1]);
      10 * DigitsValue(d[..|d| - 1]) + (d[|d| - 1] as int - '0' as int)
  }

  /** Reading the decimal digits back gives the number: `DecimalDigits` loses
      nothing. */
  lemma {:induction false} DecimalRoundTrip(n: nat)
    ensures DigitsValue(DecimalDigits(n)) == n
  {
    var d := DecimalDigits(n);
    if n >= 10 {
      DecimalRoundTrip(n / 10);
      assert d[..|d| - 1] == DecimalDigits(n / 10);
    }
  }

  /** A number from 1000 to 9999 has exactly four decimal digits. */
  lemma FourDigitYear(n: nat)
    requires 1000 <= n <= 9999
    ensures |DecimalDigits(n)| == 4
  {
    var a, b, c := n / 10, n / 10 / 10, n / 10 / 10 / 10;
    assert 1 <= c <= 9 && |DecimalDigits(c)| == 1;
    assert 10 <= b <= 99 && |DecimalDigits(b)| == |DecimalDigits(c)| + 1;
    assert 100 <= a <= 999 && |DecimalDigits(a)| == |DecimalDigits(b)| + 1;
    assert |DecimalDigits(n)| == |DecimalDigits(a)| + 1;
  }

  /** `astype(str)`: every cell becomes a string; a string stays as it is, an
      integer is written in decimal, and NaN is written `nan`. */
  function AsString(c: Cell): (r: Cell)
    ensures r.Text?
    ensures c.Text? ==> r == c
    ensures c.Number? && c.n >= 0 ==> r == Text(DecimalDigits(c.n))
  {
    match c
    case Text(_) => c
    case Number(n) => Text(if n < 0 then "-" + DecimalDigits(-n) else DecimalDigits(n))
    case Blank => Text("nan")
  }

  /** The regular-expression replace only touches string cells: it keeps the
      kind of each cell and never shortens a string. */
  function RewriteCell(c: Cell): (r: Cell)
    ensures r.Text? <==> c.Text?
    ensures c.Text? ==> |r.s| >= |c.s|
    ensures !c.Text? ==> r == c
  {
    match c
    case Text(s) => Text(YearRewrite(s))
    case _ => c
  }

  /** An integer year from 1000 to 9999, written as a string and then
      rewritten, becomes the period token `year/YYYY`. */
  lemma YearCellBecomesToken(n: nat)
    requires 1000 <= n <= 9999
    ensures RewriteCell(AsString(Number(n))) == Text(YearPrefix + DecimalDigits(n))
  {
    FourDigitYear(n);
    BareYearBecomesToken(DecimalDigits(n));
  }

  /** `Series.map(f)` on string cells: a string stays a string, and NaN and
      numbers are left as they are. */
  function MapCell(c: Cell, f: string -> string): (r: Cell)
    ensures r.Text? <==> c.Text?
    ensures !c.Text? ==> r == c
  {
    match c
    case Text(s) => Text(f(s))
    case _ => c
  }

  /** A column-wise operation, as it acts on one row. */
  datatype RowOp =
    | RenameOp(from: string, to: string)
    | AssignOp(col: string, v: Cell)
    | StringifyOp(col: string)
    | RewriteOp(col: string)
    | MapOp(col: string, f: string -> string)
    | PadOp(cols: set<string>)

  /** The columns an operation may write. */
  function Written(op: RowOp): set<string> {
    match op
    case RenameOp(from, to) => {from, to}
    case AssignOp(col, _) => {col}
    case StringifyOp(col) => {col}
    case RewriteOp(col) => {col}
    case MapOp(col, _) => {col}
    case PadOp(cols) => cols
  }

  /** What a column-wise operation does to one row: a rename moves the
      cell of `from` to `to`, an assignment writes `v`, a padding adds the
      missing columns. */
  function Apply(op: RowOp, r: Row): (s: Row)
    ensures op.RenameOp? && op.from in r ==> op.to in s && s[op.to] == r[op.from]
    ensures op.AssignOp? ==> op.col in s && s[op.col] == op.v
    ensures op.PadOp? ==> s.Keys == r.Keys + op.cols
  {
    match op
    case RenameOp(from, to) => if from in r then (r - {from})[to := r[from]] else r
    case AssignOp(col, v) => r[col := v]
    case StringifyOp(col) => if col in r then r[col := AsString(r[col])] else r
    case RewriteOp(col) => if col in r then r[col := RewriteCell(r[col])] else r
    case MapOp(col, f) => if col in r then r[col := MapCell(r[col], f)] else r
    case PadOp(cols) => map c | c in r.Keys + cols :: if c in r then r[c] else Blank
  }

  /** A column-wise operation leaves every column it does not write as it
      was, and adds no column it does not write. */
  lemma ApplyFrame(op: RowOp, r: Row)
    ensures forall c :: c in r && c !in Written(op) ==> c in Apply(op, r) && Apply(op, r)[c] == r[c]
    ensures forall c :: c in Apply(op, r) ==> c in r || c in Written(op)
  {
  }

  /** The operation applied to every row, keeping their order. */
  function MapRows(op: RowOp, rows: seq<Row>): (out: seq<Row>)
    ensures |out| == |rows|
  {
    if rows == [] then [] else [Apply(op, rows[0])] + MapRows(op, rows[1..])
  }

  /** Row `i` of the result is row `i` of the input with the operation
      applied. */
  lemma {:induction false} MapRowsAt(op: RowOp, rows: seq<Row>, i: nat)
    requires i < |rows|
    ensures MapRows(op, rows)[i] == Apply(op, rows[i])
  {
    if i > 0 {
      MapRowsAt(op, rows[1..], i - 1);
    }
  }

  lemma MapRowsEach(op: RowOp, rows: seq<Row>)
    ensures forall i :: 0 <= i < |rows| ==> MapRows(op, rows)[i] == Apply(op, rows[i])
  {
    forall i | 0 <= i < |rows| {
      MapRowsAt(op, rows, i);
    }
  }

  /** `rename(columns={from: to})`. */
  function Renamed(t: Table, from: string, to: string): (u: Table)
    requires WellFormed(t)
    ensures WellFormed(u) && |u.rows| == |t.rows|
  {
    MapRowsEach(RenameOp(from, to), t.rows);
    Table(if from in t.columns then t.columns - {from} + {to} else t.columns,
          MapRows(RenameOp(from, to), t.rows))
  }

  /** After `rename(columns={from: to})` the cells of column `from` sit under
      `to`, a missing `from` is ignored, and every other cell is unchanged. */
  lemma RenamedCells(t: Table, from: string, to: string)
    requires WellFormed(t)
    ensures Renamed(t, from, to).columns == if from in t.columns then t.columns - {from} + {to} else t.columns
    ensures from in t.columns ==> forall i :: 0 <= i < |t.rows| ==> Renamed(t, from, to).rows[i][to] == t.rows[i][from]
    ensures forall i, c :: 0 <= i < |t.rows| && c in t.columns && c != from && c != to ==>
      Renamed(t, from, to).rows[i][c] == t.rows[i][c]
    ensures from !in t.columns ==> Renamed(t, from, to) == t
  {
    MapRowsEach(RenameOp(from, to), t.rows);
    if from !in t.columns {
      assert MapRows(RenameOp(from, to), t.rows) == t.rows;
    }
  }

  /** `df[col] = v` for a scalar `v`: the column is added or overwritten. */
  function Assigned(t: Table, col: string, v: Cell): (u: Table)
    requires WellFormed(t)
    ensures WellFormed(u) && |u.rows| == |t.rows|
  {
    MapRowsEach(AssignOp(col, v), t.rows);
    Table(t.columns + {col}, MapRows(AssignOp(col, v), t.rows))
  }

  /** After `df[col] = v` the column exists and holds `v` in every row, and
      every other cell is unchanged. */
  lemma AssignedCells(t: Table, col: string, v: Cell)
    requires WellFormed(t)
    ensures Assigned(t, col, v).columns == t.columns + {col}
    ensures forall i :: 0 <= i < |t.rows| ==> Assigned(t, col, v).rows[i][col] == v
    ensures forall i, c :: 0 <= i < |t.rows| && c in t.columns && c != col ==> Assigned(t, col, v).rows[i][c] == t.rows[i][c]
  {
    MapRowsEach(AssignOp(col, v), t.rows);
  }

  /** `df[col] = df[col].astype(str)`. Reading `df[col]` needs the column;
      on values a missing column is ignored, and the frame method that
      performs this step requires the column. */
  function Stringified(t: Table, col: string): (u: Table)
    requires WellFormed(t)
    ensures WellFormed(u) && |u.rows| == |t.rows|
  {
    MapRowsEach(StringifyOp(col), t.rows);
    Table(t.columns, MapRows(StringifyOp(col), t.rows))
  }

  /** After `astype(str)` every cell of `col` is its string form and no other
      cell changes. */
  lemma StringifiedCells(t: Table, col: string)
    requires WellFormed(t)
    ensures Stringified(t, col).columns == t.columns
    ensures col in t.columns ==> forall i :: 0 <= i < |t.rows| ==>
      Stringified(t, col).rows[i][col] == AsString(t.rows[i][col]) && Stringified(t, col).rows[i][col].Text?
    ensures forall i, c :: 0 <= i < |t.rows| && c in t.columns && c != col ==> Stringified(t, col).rows[i][c] == t.rows[i][c]
  {
    MapRowsEach(StringifyOp(col), t.rows);
  }

  /** `replace({col: {r'([0-9]{4})': r'year/\1'}}, regex=True)`; a missing
      column is ignored. */
  function YearsReplaced(t: Table, col: string): (u: Table)
    requires WellFormed(t)
    ensures WellFormed(u) && |u.rows| == |t.rows|
  {
    MapRowsEach(RewriteOp(col), t.rows);
    Table(t.columns, MapRows(RewriteOp(col), t.rows))
  }

  /** The replace rewrites every cell of `col` and no other cell. */
  lemma YearsReplacedCells(t: Table, col: string)
    requires WellFormed(t)
    ensures YearsReplaced(t, col).columns == t.columns
    ensures col in t.columns ==> forall i :: 0 <= i < |t.rows| ==> YearsReplaced(t, col).rows[i][col] == RewriteCell(t.rows[i][col])
    ensures forall i, c :: 0 <= i < |t.rows| && c in t.columns && c != col ==> YearsReplaced(t, col).rows[i][c] == t.rows[i][c]
  {
    MapRowsEach(RewriteOp(col), t.rows);
  }

  /** `df[col] = df[col].map(f)`: reading `df[col]` needs the column. */
  function ColumnMapped(t: Table, col: string, f: string -> string): (u: Table)
    requires WellFormed(t) && col in t.columns
    ensures WellFormed(u) && |u.rows| == |t.rows| && u.columns == t.columns
  {
    MapRowsEach(MapOp(col, f), t.rows);
    Table(t.columns, MapRows(MapOp(col, f), t.rows))
  }

  /** The mapping replaces every cell of `col` by its image and no other cell. */
  lemma ColumnMappedCells(t: Table, col: string, f: string -> string)
    requires WellFormed(t) && col in t.columns
    ensures forall i :: 0 <= i < |t.rows| ==> ColumnMapped(t, col, f).rows[i][col] == MapCell(t.rows[i][col], f)
    ensures forall i, c :: 0 <= i < |t.rows| && c in t.columns && c != col ==> ColumnMapped(t, col, f).rows[i][c] == t.rows[i][c]
  {
    MapRowsEach(MapOp(col, f), t.rows);
  }

  /** `pd.concat([a, b])`. */
  function Concat(a: Table, b: Table): (u: Table)
    requires WellFormed(a) && WellFormed(b)
    ensures WellFormed(u) && u.columns == a.columns + b.columns
    ensures |u.rows| == |a.rows| + |b.rows|
  {
    var cols := a.columns + b.columns;
    MapRowsEach(PadOp(cols), a.rows);
    MapRowsEach(PadOp(cols), b.rows);
    Table(cols, MapRows(PadOp(cols), a.rows) + MapRows(PadOp(cols), b.rows))
  }

  /** `pd.concat([a, b])` holds all rows of `a` in order, then all rows of `b`
      in order, over the union of the columns, with nothing dropped or merged;
      a cell a source row lacks is NaN. */
  lemma ConcatCells(a: Table, b: Table)
    requires WellFormed(a) && WellFormed(b)
    ensures forall i, c :: 0 <= i < |a.rows| && c in a.columns + b.columns ==>
      Concat(a, b).rows[i][c] == if c in a.columns then a.rows[i][c] else Blank
    ensures forall k, c :: |a.rows| <= k < |a.rows| + |b.rows| && c in a.columns + b.columns ==>
      Concat(a, b).rows[k][c] == if c in b.columns then b.rows[k - |a.rows|][c] else Blank
  {
    var cols := a.columns + b.columns;
    MapRowsEach(PadOp(cols), a.rows);
    MapRowsEach(PadOp(cols), b.rows);
  }

  /** Row `k` of `pd.concat([a, b])` is row `k` of `a`, or row `k - |a.rows|`
      of `b`, padded to the union of the columns. */
  lemma ConcatAt(a: Table, b: Table, k: nat)
    requires WellFormed(a) && WellFormed(b) && k < |a.rows| + |b.rows|
    ensures Concat(a, b).rows[k] ==
      if k < |a.rows| then Apply(PadOp(a.columns + b.columns), a.rows[k])
      else Apply(PadOp(a.columns + b.columns), b.rows[k - |a.rows|])
  {
    if k < |a.rows| {
      MapRowsAt(PadOp(a.columns + b.columns), a.rows, k);
    } else {
      MapRowsAt(PadOp(a.columns + b.columns), b.rows, k - |a.rows|);
    }
  }

  /** The columns of `cols` assigned `v`, one after another. */
  function AssignedAll(t: Table, cols: seq<string>, v: Cell): (u: Table)
    requires WellFormed(t)
    ensures WellFormed(u) && |u.rows| == |t.rows|
    decreases |cols|
  {
    if cols == [] then t
    else Assigned(AssignedAll(t, cols[..|cols| - 1], v), cols[|cols| - 1], v)
  }

  /** What assigning `v` to each column of `cols` does to one row. */
  function AssignRowAll(r: Row, cols: seq<string>, v: Cell): Row
    decreases |cols|
  {
    if cols == [] then r else Apply(AssignOp(cols[|cols| - 1], v), AssignRowAll(r, cols[..|cols| - 1], v))
  }

  /** After the assignments a row has the columns of `cols` besides its own;
      each of them holds `v`, and every other cell is unchanged. */
  lemma {:induction false} AssignRowAllCells(r: Row, cols: seq<string>, v: Cell)
    ensures AssignRowAll(r, cols, v).Keys == r.Keys + set c | c in cols
    ensures forall c :: c in cols ==> AssignRowAll(r, cols, v)[c] == v
    ensures forall c :: c in r && c !in cols ==> AssignRowAll(r, cols, v)[c] == r[c]
    decreases |cols|
  {
    if cols != [] {
      var init := cols[..|cols| - 1];
      AssignRowAllCells(r, init, v);
      assert cols == init + [cols[|cols| - 1]];
      assert forall c :: c in cols <==> c in init || c == cols[|cols| - 1];
    }
  }

  /** Row `i` of the table after the assignments is row `i` after them. */
  lemma {:induction false} AssignedAllAt(t: Table, cols: seq<string>, v: Cell, i: nat)
    requires WellFormed(t) && i < |t.rows|
    ensures AssignedAll(t, cols, v).rows[i] == AssignRowAll(t.rows[i], cols, v)
    decreases |cols|
  {
    if cols != [] {
      var init := cols[..|cols| - 1];
      AssignedAllAt(t, init, v, i);
      MapRowsAt(AssignOp(cols[|cols| - 1], v), AssignedAll(t, init, v).rows, i);
    }
  }

  /** Assigning the columns of `cols` adds exactly those columns. */
  lemma {:induction false} AssignedAllColumns(t: Table, cols: seq<string>, v: Cell)
    requires WellFormed(t)
    ensures AssignedAll(t, cols, v).columns == t.columns + set c | c in cols
    decreases |cols|
  {
    if cols != [] {
      var init := cols[..|cols| - 1];
      AssignedAllColumns(t, init, v);
      assert cols == init + [cols[|cols| - 1]];
      assert forall c :: c in cols <==> c in init || c == cols[|cols| - 1];
    }
  }

  /** After assigning every column of `cols`, each of them holds `v` in every
      row, and every other cell is unchanged. */
  lemma AssignedAllCells(t: Table, cols: seq<string>, v: Cell)
    requires WellFormed(t)
    ensures AssignedAll(t, cols, v).columns == t.columns + set c | c in cols
    ensures forall i, c :: 0 <= i < |t.rows| && c in cols ==> AssignedAll(t, cols, v).rows[i][c] == v
    ensures forall i, c :: 0 <= i < |t.rows| && c in t.columns && c !in cols ==>
      AssignedAll(t, cols, v).rows[i][c] == t.rows[i][c]
  {
    AssignedAllColumns(t, cols, v);
    forall i | 0 <= i < |t.rows|
      ensures AssignedAll(t, cols, v).rows[i] == AssignRowAll(t.rows[i], cols, v)
    {
      AssignedAllAt(t, cols, v, i);
    }
    forall i | 0 <= i < |t.rows|
      ensures forall c :: c in cols ==> AssignRowAll(t.rows[i], cols, v)[c] == v
      ensures forall c :: c in t.rows[i] && c !in cols ==> AssignRowAll(t.rows[i], cols, v)[c] == t.rows[i][c]
    {
      AssignRowAllCells(t.rows[i], cols, v);
    }
  }

  /** The columns of `cols` mapped through `f`, one after another. */
  function MappedAll(t: Table, cols: seq<string>, f: string -> string): (u: Table)
    requires WellFormed(t) && forall c :: c in cols ==> c in t.columns
    ensures WellFormed(u) && u.columns == t.columns && |u.rows| == |t.rows|
    decreases |cols|
  {
    if cols == [] then t
    else ColumnMapped(MappedAll(t, cols[..|cols| - 1], f), cols[|cols| - 1], f)
  }

  predicate Distinct(cols: seq<string>) {
    forall i, j :: 0 <= i < j < |cols| ==> cols[i] != cols[j]
  }

  /** What mapping the columns of `cols` through `f` does to one row. */
  function MapRowAll(r: Row, cols: seq<string>, f: string -> string): Row
    decreases |cols|
  {
    if cols == [] then r else Apply(MapOp(cols[|cols| - 1], f), MapRowAll(r, cols[..|cols| - 1], f))
  }

  /** Mapping a list of distinct columns keeps the row's columns, maps each of
      their cells through `f` exactly once and leaves every other cell
      unchanged. */
  lemma {:induction false} MapRowAllCells(r: Row, cols: seq<string>, f: string -> string)
    requires Distinct(cols)
    ensures MapRowAll(r, cols, f).Keys == r.Keys
    ensures forall c :: c in r && c in cols ==> MapRowAll(r, cols, f)[c] == MapCell(r[c], f)
    ensures forall c :: c in r && c !in cols ==> MapRowAll(r, cols, f)[c] == r[c]
    decreases |cols|
  {
    if cols != [] {
      var init := cols[..|cols| - 1];
      var last := cols[|cols| - 1];
      assert cols == init + [last];
      assert forall c :: c in cols <==> c in init || c == last;
      assert last !in init by {
        forall k | 0 <= k < |init| ensures init[k] != last {
          assert init[k] == cols[k];
        }
      }
      MapRowAllCells(r, init, f);
    }
  }

  /** Row `i` of the table after the mappings is row `i` after them. */
  lemma {:induction false} MappedAllAt(t: Table, cols: seq<string>, f: string -> string, i: nat)
    requires WellFormed(t) && (forall c :: c in cols ==> c in t.columns) && i < |t.rows|
    ensures MappedAll(t, cols, f).rows[i] == MapRowAll(t.rows[i], cols, f)
    decreases |cols|
  {
    if cols != [] {
      var init := cols[..|cols| - 1];
      MappedAllAt(t, init, f, i);
      MapRowsAt(MapOp(cols[|cols| - 1], f), MappedAll(t, init, f).rows, i);
    }
  }

  /** Mapping a list of distinct columns maps each of their cells through `f`
      exactly once and leaves every other cell unchanged. */
  lemma MappedAllCells(t: Table, cols: seq<string>, f: string -> string)
    requires WellFormed(t) && Distinct(cols) && forall c :: c in cols ==> c in t.columns
    ensures forall i, c :: 0 <= i < |t.rows| && c in cols ==>
      MappedAll(t, cols, f).rows[i][c] == MapCell(t.rows[i][c], f)
    ensures forall i, c :: 0 <= i < |t.rows| && c in t.columns && c !in cols ==>
      MappedAll(t, cols, f).rows[i][c] == t.rows[i][c]
  {
    forall i | 0 <= i < |t.rows|
      ensures MappedAll(t, cols, f).rows[i] == MapRowAll(t.rows[i], cols, f)
    {
      MappedAllAt(t, cols, f, i);
    }
    forall i | 0 <= i < |t.rows|
      ensures forall c :: c in t.rows[i] && c in cols ==> MapRowAll(t.rows[i], cols, f)[c] == MapCell(t.rows[i][c], f)
      ensures forall c :: c in t.rows[i] && c !in cols ==> MapRowAll(t.rows[i], cols, f)[c] == t.rows[i][c]
    {
      MapRowAllCells(t.rows[i], cols, f);
    }
  }
}
