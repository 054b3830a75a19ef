/** A data frame whose columns are changed in place, as the merge script
    changes `entry_1`, `entry_2` and `combined`. */
module Frames {
  import opened Tables

  class Frame {
    var columns: set<string>
    var rows: seq<Row>

    /** The frame is rectangular. */
    ghost predicate Valid()
      reads this
    {
      WellFormed(Table(columns, rows))
    }

    /** The table the frame currently holds. */
    function Contents(): Table
      reads this
    {
      Table(columns, rows)
    }

    /** A frame holding the table `t`. */
    constructor (t: Table)
      requires WellFormed(t)
      ensures Valid() && Contents() == t
    {
      columns := t.columns;
      rows := t.rows;
    }

    /** `copy()`: a new frame with the same table, so that changing one
        never changes the other. */
    method Copy() returns (f: Frame)
      requires Valid()
      ensures fresh(f) && f.Valid() && f.Contents() == Contents()
    {
      f := new Frame(Contents());
    }

    /** `rename(columns={from: to}, inplace=True)`. */
    method Rename(from: string, to: string)
      requires Valid()
      modifies this
      ensures Valid() && Contents() == Renamed(old(Contents()), from, to)
    {
      var t := Renamed(Contents(), from, to);
      columns, rows := t.columns, t.rows;
    }

    /** `self[col] = self[col].astype(str)`: reading the column needs it. */
    method AsStrings(col: string)
      requires Valid() && col in columns
      modifies this
      ensures Valid() && Contents() == Stringified(old(Contents()), col)
    {
      var t := Stringified(Contents(), col);
      columns, rows := t.columns, t.rows;
    }

    /** `replace({col: {r'([0-9]{4})': r'year/\1'}}, regex=True, inplace=True)`. */
    method ReplaceYears(col: string)
      requires Valid()
      modifies this
      ensures Valid() && Contents() == YearsReplaced(old(Contents()), col)
    {
      var t := YearsReplaced(Contents(), col);
      columns, rows := t.columns, t.rows;
    }

    /** `self[col] = v`. */
    method Assign(col: string, v: Cell)
      requires Valid()
      modifies this
      ensures Valid() && Contents() == Assigned(old(Contents()), col, v)
    {
      var t := Assigned(Contents(), col, v);
      columns, rows := t.columns, t.rows;
    }

    /** `self[col] = self[col].map(f)`. */
    method MapColumn(col: string, f: string -> string)
      requires Valid() && col in columns
      modifies this
      ensures Valid() && Contents() == ColumnMapped(old(Contents()), col, f)
    {
      var t := ColumnMapped(Contents(), col, f);
      columns, rows := t.columns, t.rows;
    }
  }

  /** `pd.concat([a, b])`: a new frame; neither argument changes. */
  method ConcatFrames(a: Frame, b: Frame) returns (c: Frame)
    requires a.Valid() && b.Valid()
    ensures fresh(c) && c.Valid() && c.Contents() == Concat(a.Contents(), b.Contents())
  {
    c := new Frame(Concat(a.Contents(), b.Contents()));
  }
}
