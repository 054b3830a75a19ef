/** The observation merge of `main.py`: the country-of-nationality table (vi_05)
    and the application-category table (vi_01_q) are brought onto one schema
    and concatenated, and their categorical columns are replaced by notation
    codes. */
module Merge {
  import opened Periods
  import opened Tables
  import opened Frames

  const Year: string := "Year"
  const Period: string := "Period"
  const CountryOfNationality: string := "Country of nationality"
  const HoCountry: string := "HO Country of Nationality"
  const ApplicationType: string := "Application type"
  const ApplicantType: string := "Applicant type"
  const ApplicationCategory: string := "Application category"
  const Resolution: string := "Resolution"
  const MeasureType: string := "Measure Type"
  const Unit: string := "Unit"

  /** The dimensions vi_05 does not break down by, filled with `All`. */
  const CategoryDimensions: seq<string> := [ApplicationType, ApplicantType, ApplicationCategory, Resolution]

  /** The columns whose labels are replaced by notation codes. */
  const NotationDimensions: seq<string> := [HoCountry, ApplicantType, ApplicationCategory, ApplicationType, Resolution]

  /** The notation columns are distinct; they are the country and the filled
      dimensions, and none of the other columns the script names. */
  lemma DimensionNames()
    ensures Distinct(NotationDimensions)
    ensures HoCountry in NotationDimensions
    ensures forall c :: c in NotationDimensions <==> c == HoCountry || c in CategoryDimensions
    ensures forall c :: c in NotationDimensions ==> c !in {Year, Period, CountryOfNationality, MeasureType, Unit}
    ensures forall c :: c in CategoryDimensions ==> c != HoCountry
  {
  }

  /** Each column name of the vi_05 table as it is called after the rename. */
  function RenamedColumn(c: string): string {
    if c == Year then Period else if c == CountryOfNationality then HoCountry else c
  }

  /** The column names of vi_05 after the rename. */
  function RenamedNames(cols: set<string>): set<string> {
    set c | c in cols :: RenamedColumn(c)
  }

  /** What lines 34-42 do to one row of vi_05. Whenever the row has a Year or
      a Period, the row of `entry_1` has a Period, and it is a string. */
  function NationalityEntry(r: Row): (e: Row)
    ensures Year in r || Period in r ==> Period in e && e[Period].Text?
  {
    var renamed := Apply(RenameOp(CountryOfNationality, HoCountry), Apply(RenameOp(Year, Period), r));
    var periods := Apply(RewriteOp(Period), Apply(StringifyOp(Period), renamed));
    DimensionNames();
    AssignRowAllCells(periods, CategoryDimensions, Text("All"));
    AssignRowAll(periods, CategoryDimensions, Text("All"))
  }

  /** A row of `entry_1`: its columns are the renamed columns of the vi_05 row
      and the filled dimensions; the period is the rewritten year (or, without
      a Year column, the rewritten existing Period); the country is the
      country of nationality; the filled dimensions hold `All`; every other
      cell is unchanged. */
  lemma NationalityEntryCells(r: Row)
    ensures Year in r || Period in r ==> Period in NationalityEntry(r)
    ensures CountryOfNationality in r ==> HoCountry in NationalityEntry(r)
    ensures forall c :: c in r && c != Year && c != CountryOfNationality ==> c in NationalityEntry(r)
    ensures forall c :: c in CategoryDimensions ==> c in NationalityEntry(r) && NationalityEntry(r)[c] == Text("All")
    ensures Year in r ==> NationalityEntry(r)[Period] == RewriteCell(AsString(r[Year]))
    ensures Year !in r && Period in r ==> NationalityEntry(r)[Period] == RewriteCell(AsString(r[Period]))
    ensures CountryOfNationality in r ==> NationalityEntry(r)[HoCountry] == r[CountryOfNationality]
    ensures forall c :: (c in r && c !in {Year, Period, CountryOfNationality, HoCountry} && c !in CategoryDimensions) ==>
      NationalityEntry(r)[c] == r[c]
  {
    DimensionNames();
    var renamed := Apply(RenameOp(CountryOfNationality, HoCountry), Apply(RenameOp(Year, Period), r));
    AssignRowAllCells(Apply(RewriteOp(Period), Apply(StringifyOp(Period), renamed)), CategoryDimensions, Text("All"));
  }

  /** What line 44 does to one row of vi_01_q: it gains the country `Rest of
      world`. */
  function CategoryEntry(r: Row): (e: Row)
    ensures e.Keys == r.Keys + {HoCountry}
    ensures e[HoCountry] == Text("Rest of world")
  {
    r[HoCountry := Text("Rest of world")]
  }

  /** A row of `entry_2`: the country is `Rest of world`; every other cell
      is unchanged. */
  lemma CategoryEntryCells(r: Row)
    ensures CategoryEntry(r).Keys == r.Keys + {HoCountry}
    ensures forall c :: c in r && c != HoCountry ==> CategoryEntry(r)[c] == r[c]
  {
  }

  /** What lines 46-47 do to one row of the concatenation: Measure Type is
      `Count` and Unit is `Applications`. */
  function Labelled(r: Row): (l: Row)
    ensures l.Keys == r.Keys + {MeasureType, Unit}
    ensures l[MeasureType] == Text("Count") && l[Unit] == Text("Applications")
  {
    Apply(AssignOp(Unit, Text("Applications")), Apply(AssignOp(MeasureType, Text("Count")), r))
  }

  /** What lines 45-54 make of one row of `entry_1` or `entry_2`, where `cols`
      are the columns of the concatenation. */
  function Observation(r: Row, cols: set<string>, pathify: string -> string): (o: Row)
    ensures o.Keys == r.Keys + cols + {MeasureType, Unit}
  {
    DimensionNames();
    MapRowAllCells(Labelled(Apply(PadOp(cols), r)), NotationDimensions, pathify);
    MapRowAll(Labelled(Apply(PadOp(cols), r)), NotationDimensions, pathify)
  }

  /** An observation has Measure Type `Count` and Unit `Applications`; each
      notation column holds the notation of the entry's cell (NaN where the
      entry lacks it); every other column holds the entry's cell or NaN. */
  lemma ObservationCells(r: Row, cols: set<string>, pathify: string -> string)
    ensures Observation(r, cols, pathify)[MeasureType] == Text("Count")
    ensures Observation(r, cols, pathify)[Unit] == Text("Applications")
    ensures forall c :: c in cols && c in NotationDimensions ==>
      Observation(r, cols, pathify)[c] == MapCell(if c in r then r[c] else Blank, pathify)
    ensures forall c :: c in cols && c !in NotationDimensions && c != MeasureType && c != Unit ==>
      Observation(r, cols, pathify)[c] == if c in r then r[c] else Blank
  {
    var labelled := Labelled(Apply(PadOp(cols), r));
    assert labelled.Keys == r.Keys + cols + {MeasureType, Unit};
    assert forall c :: c in cols && c != MeasureType && c != Unit ==> labelled[c] == if c in r then r[c] else Blank;
    DimensionNames();
    MapRowAllCells(labelled, NotationDimensions, pathify);
  }

  /** The table `entry_1` becomes: columns renamed, years rewritten into period
      tokens, category dimensions filled with `All`. */
  function Entry1(byNationality: Table): (e: Table)
    requires WellFormed(byNationality)
    ensures WellFormed(e) && |e.rows| == |byNationality.rows|
    ensures forall c :: c in CategoryDimensions ==> c in e.columns
    ensures Year in byNationality.columns || Period in byNationality.columns ==> Period in e.columns
    ensures CountryOfNationality in byNationality.columns ==> HoCountry in e.columns
    ensures forall c :: c in byNationality.columns && c != Year && c != CountryOfNationality ==> c in e.columns
  {
    var renamed := Renamed(Renamed(byNationality, Year, Period), CountryOfNationality, HoCountry);
    var periods := YearsReplaced(Stringified(renamed, Period), Period);
    AssignedAllColumns(periods, CategoryDimensions, Text("All"));
    AssignedAll(periods, CategoryDimensions, Text("All"))
  }

  /** Row `i` of `entry_1` is row `i` of vi_05 carried through lines 34-42. */
  lemma Entry1At(byNationality: Table, i: nat)
    requires WellFormed(byNationality) && i < |byNationality.rows|
    ensures Entry1(byNationality).rows[i] == NationalityEntry(byNationality.rows[i])
  {
    var t1 := Renamed(byNationality, Year, Period);
    var t2 := Renamed(t1, CountryOfNationality, HoCountry);
    var t3 := Stringified(t2, Period);
    var t4 := YearsReplaced(t3, Period);
    MapRowsAt(RenameOp(Year, Period), byNationality.rows, i);
    MapRowsAt(RenameOp(CountryOfNationality, HoCountry), t1.rows, i);
    MapRowsAt(StringifyOp(Period), t2.rows, i);
    MapRowsAt(RewriteOp(Period), t3.rows, i);
    AssignedAllAt(t4, CategoryDimensions, Text("All"), i);
  }

  /** The table `entry_2` becomes: every country is `Rest of world`. */
  function Entry2(byCategory: Table): (e: Table)
    requires WellFormed(byCategory)
    ensures WellFormed(e) && |e.rows| == |byCategory.rows|
    ensures e.columns == byCategory.columns + {HoCountry}
  {
    Assigned(byCategory, HoCountry, Text("Rest of world"))
  }

  /** Row `j` of `entry_2` is row `j` of vi_01_q carried through line 44. */
  lemma Entry2At(byCategory: Table, j: nat)
    requires WellFormed(byCategory) && j < |byCategory.rows|
    ensures Entry2(byCategory).rows[j] == CategoryEntry(byCategory.rows[j])
  {
    MapRowsAt(AssignOp(HoCountry, Text("Rest of world")), byCategory.rows, j);
  }

  /** The table `combined` before the notation mapping. */
  function Combined(entry1: Table, entry2: Table): (c: Table)
    requires WellFormed(entry1) && WellFormed(entry2)
    ensures WellFormed(c) && |c.rows| == |entry1.rows| + |entry2.rows|
    ensures c.columns == entry1.columns + entry2.columns + {MeasureType, Unit}
  {
    Assigned(Assigned(Concat(entry1, entry2), MeasureType, Text("Count")), Unit, Text("Applications"))
  }

  /** Row `x` of `combined` is row `x` of `entry_1`, or row `x - |entry1.rows|`
      of `entry_2`, padded to the union of the columns and labelled. */
  lemma CombinedAt(entry1: Table, entry2: Table, x: nat)
    requires WellFormed(entry1) && WellFormed(entry2)
    requires x < |entry1.rows| + |entry2.rows|
    ensures Combined(entry1, entry2).rows[x] == Labelled(Apply(PadOp(entry1.columns + entry2.columns),
      if x < |entry1.rows| then entry1.rows[x] else entry2.rows[x - |entry1.rows|]))
  {
    var cat := Concat(entry1, entry2);
    ConcatAt(entry1, entry2, x);
    MapRowsAt(AssignOp(MeasureType, Text("Count")), cat.rows, x);
    MapRowsAt(AssignOp(Unit, Text("Applications")), Assigned(cat, MeasureType, Text("Count")).rows, x);
  }

  /** The observations the script writes, before any file output. */
  function MergedObservations(byNationality: Table, byCategory: Table, pathify: string -> string): (m: Table)
    requires WellFormed(byNationality) && WellFormed(byCategory)
    ensures WellFormed(m) && |m.rows| == |byNationality.rows| + |byCategory.rows|
    ensures m.columns == Entry1(byNationality).columns + byCategory.columns + {HoCountry, MeasureType, Unit}
  {
    var c := Combined(Entry1(byNationality), Entry2(byCategory));
    DimensionNames();
    MappedAll(c, NotationDimensions, pathify)
  }

  /** A row found at `x` is the row at `|t.rows| + j` when the two are equal. */
  lemma RowAfter(rows: seq<Row>, t: Table, j: nat, x: nat, o: Row)
    requires x == |t.rows| + j < |rows| && rows[x] == o
    ensures rows[|t.rows| + j] == o
  {
  }

  /** Observation `x = n + j` is row `j` of vi_01_q carried through line 44
      and lines 45-54, for a variable `x`. */
  lemma MergedCategoryRow(byNationality: Table, byCategory: Table, pathify: string -> string, j: nat, x: nat)
    requires WellFormed(byNationality) && WellFormed(byCategory)
    requires j < |byCategory.rows| && x == |byNationality.rows| + j
    ensures MergedObservations(byNationality, byCategory, pathify).rows[x] ==
      Observation(CategoryEntry(byCategory.rows[j]), Entry1(byNationality).columns + Entry2(byCategory).columns, pathify)
  {
    var entry1, entry2 := Entry1(byNationality), Entry2(byCategory);
    var c := Combined(entry1, entry2);
    assert entry2.rows[j] == CategoryEntry(byCategory.rows[j]) by {
      Entry2At(byCategory, j);
    }
    assert c.rows[x] == Labelled(Apply(PadOp(entry1.columns + entry2.columns), entry2.rows[j])) by {
      CombinedAt(entry1, entry2, x);
      assert x - |entry1.rows| == j;
    }
    DimensionNames();
    MappedAllAt(c, NotationDimensions, pathify, x);
  }



  /** The first observations are the rows of vi_05, in order, each carried
      through lines 34-42 and then the shared steps. */
  lemma MergedNationalityAt(byNationality: Table, byCategory: Table, pathify: string -> string, i: nat)
    requires WellFormed(byNationality) && WellFormed(byCategory)
    requires i < |byNationality.rows|
    ensures MergedObservations(byNationality, byCategory, pathify).rows[i] ==
      Observation(NationalityEntry(byNationality.rows[i]), Entry1(byNationality).columns + Entry2(byCategory).columns, pathify)
  {
    var e1 := Entry1(byNationality);
    var e2 := Entry2(byCategory);
    var entry := NationalityEntry(byNationality.rows[i]);
    var cols := e1.columns + e2.columns;
    var m := MergedObservations(byNationality, byCategory, pathify);
    assert Combined(e1, e2).rows[i] == Labelled(Apply(PadOp(cols), entry)) by {
      Entry1At(byNationality, i);
      CombinedAt(e1, e2, i);
    }
    assert m.rows[i] == MapRowAll(Combined(e1, e2).rows[i], NotationDimensions, pathify) by {
      DimensionNames();
      MappedAllAt(Combined(e1, e2), NotationDimensions, pathify, i);
    }
  }

  /** They are followed by the rows of vi_01_q, in order, each carried through
      line 44 and then the shared steps. */
  lemma MergedCategoryAt(byNationality: Table, byCategory: Table, pathify: string -> string, j: nat)
    requires WellFormed(byNationality) && WellFormed(byCategory)
    requires j < |byCategory.rows|
    ensures MergedObservations(byNationality, byCategory, pathify).rows[|byNationality.rows| + j] ==
      Observation(CategoryEntry(byCategory.rows[j]), Entry1(byNationality).columns + Entry2(byCategory).columns, pathify)
  {
    var x := |byNationality.rows| + j;
    var o := Observation(CategoryEntry(byCategory.rows[j]), Entry1(byNationality).columns + Entry2(byCategory).columns, pathify);
    MergedCategoryRow(byNationality, byCategory, pathify, j, x);
    RowAfter(MergedObservations(byNationality, byCategory, pathify).rows, byNationality, j, x, o);
  }


  /** After the two renames the vi_05 columns are called as `RenamedColumn`
      says. */
  lemma RenamedColumns(byNationality: Table)
    requires WellFormed(byNationality)
    ensures Renamed(Renamed(byNationality, Year, Period), CountryOfNationality, HoCountry).columns ==
      RenamedNames(byNationality.columns)
  {
    var n := byNationality.columns;
    var renamed := Renamed(Renamed(byNationality, Year, Period), CountryOfNationality, HoCountry).columns;
    forall c | c in renamed ensures c in RenamedNames(n) {
      if c == Period && Year in n {
        assert RenamedColumn(Year) == c;
      } else if c == HoCountry && CountryOfNationality in n {
        assert RenamedColumn(CountryOfNationality) == c;
      } else {
        assert RenamedColumn(c) == c;
      }
    }
  }

  /** The columns of `entry_1`: the renamed vi_05 columns and the filled
      dimensions. */
  lemma Entry1Columns(byNationality: Table)
    requires WellFormed(byNationality)
    ensures Entry1(byNationality).columns ==
      RenamedNames(byNationality.columns) + {ApplicationType, ApplicantType, ApplicationCategory, Resolution}
  {
    var renamed := Renamed(Renamed(byNationality, Year, Period), CountryOfNationality, HoCountry);
    var periods := YearsReplaced(Stringified(renamed, Period), Period);
    assert periods.columns == RenamedNames(byNationality.columns) by {
      RenamedColumns(byNationality);
    }
    assert Entry1(byNationality).columns == periods.columns + set c | c in CategoryDimensions by {
      assert Entry1(byNationality) == AssignedAll(periods, CategoryDimensions, Text("All"));
      AssignedAllColumns(periods, CategoryDimensions, Text("All"));
    }
    assert (set c | c in CategoryDimensions) == {ApplicationType, ApplicantType, ApplicationCategory, Resolution};
  }

  /** The columns every observation has: the renamed vi_05 columns, the
      vi_01_q columns, the filled dimensions and the two constant columns. */
  lemma MergedColumns(byNationality: Table, byCategory: Table, pathify: string -> string)
    requires WellFormed(byNationality) && WellFormed(byCategory)
    ensures MergedObservations(byNationality, byCategory, pathify).columns ==
      RenamedNames(byNationality.columns) + byCategory.columns
      + {ApplicationType, ApplicantType, ApplicationCategory, Resolution, HoCountry, MeasureType, Unit}
  {
    Entry1Columns(byNationality);
  }

  /** Observation `i`, from row `i` of vi_05, has Measure Type `Count` and
      Unit `Applications`. */
  lemma MergedNationalityConstants(byNationality: Table, byCategory: Table, pathify: string -> string, i: nat)
    requires WellFormed(byNationality) && WellFormed(byCategory)
    requires i < |byNationality.rows|
    ensures MergedObservations(byNationality, byCategory, pathify).rows[i][MeasureType] == Text("Count")
    ensures MergedObservations(byNationality, byCategory, pathify).rows[i][Unit] == Text("Applications")
  {
    var cols := Entry1(byNationality).columns + Entry2(byCategory).columns;
    MergedNationalityAt(byNationality, byCategory, pathify, i);
    ObservationCells(NationalityEntry(byNationality.rows[i]), cols, pathify);
  }

  /** So has observation `|byNationality.rows| + j`, from row `j` of
      vi_01_q: every observation carries the two constants. */
  lemma MergedCategoryConstants(byNationality: Table, byCategory: Table, pathify: string -> string, j: nat)
    requires WellFormed(byNationality) && WellFormed(byCategory)
    requires j < |byCategory.rows|
    ensures MergedObservations(byNationality, byCategory, pathify).rows[|byNationality.rows| + j][MeasureType] == Text("Count")
    ensures MergedObservations(byNationality, byCategory, pathify).rows[|byNationality.rows| + j][Unit] == Text("Applications")
  {
    var cols := Entry1(byNationality).columns + Entry2(byCategory).columns;
    MergedCategoryAt(byNationality, byCategory, pathify, j);
    ObservationCells(CategoryEntry(byCategory.rows[j]), cols, pathify);
  }

  /** Observation `i` (from row `i` of vi_05) has the notation of `All` in each
      of the four category dimensions. */
  lemma MergedNationalityDimensions(byNationality: Table, byCategory: Table, pathify: string -> string, i: nat)
    requires WellFormed(byNationality) && WellFormed(byCategory)
    requires i < |byNationality.rows|
    ensures forall c :: c in CategoryDimensions ==>
      MergedObservations(byNationality, byCategory, pathify).rows[i][c] == Text(pathify("All"))
  {
    var cols := Entry1(byNationality).columns + Entry2(byCategory).columns;
    DimensionNames();
    MergedNationalityAt(byNationality, byCategory, pathify, i);
    NationalityEntryCells(byNationality.rows[i]);
    ObservationCells(NationalityEntry(byNationality.rows[i]), cols, pathify);
  }

  /** The period of observation `i` is the year of row `i` of vi_05 with the
      year rewrite applied (it is not mapped to a notation). */
  lemma MergedNationalityPeriod(byNationality: Table, byCategory: Table, pathify: string -> string, i: nat)
    requires WellFormed(byNationality) && WellFormed(byCategory)
    requires i < |byNationality.rows|
    ensures var n := byNationality.columns;
            var r := byNationality.rows[i];
            var o := MergedObservations(byNationality, byCategory, pathify).rows[i];
            && (Year in n || Period in n ==> o[Period].Text?)
            && (Year in n ==> o[Period] == RewriteCell(AsString(r[Year])))
            && (Year !in n && Period in n ==> o[Period] == RewriteCell(AsString(r[Period])))
  {
    var cols := Entry1(byNationality).columns + Entry2(byCategory).columns;
    var r := byNationality.rows[i];
    var e := NationalityEntry(r);
    MergedNationalityAt(byNationality, byCategory, pathify, i);
    NationalityEntryCells(r);
    if Year in r || Period in r {
      DimensionNames();
      assert Period in cols && Period !in NotationDimensions;
      ObservationCells(e, cols, pathify);
    }
  }

  /** A vi_05 row whose Year is an integer `YYYY` gives an observation whose
      period is the token `year/YYYY`. */
  lemma MergedNationalityYear(byNationality: Table, byCategory: Table, pathify: string -> string, i: nat, y: nat)
    requires WellFormed(byNationality) && WellFormed(byCategory)
    requires i < |byNationality.rows| && Year in byNationality.columns
    requires byNationality.rows[i][Year] == Number(y) && 1000 <= y <= 9999
    ensures MergedObservations(byNationality, byCategory, pathify).rows[i][Period] == Text(YearPrefix + DecimalDigits(y))
  {
    MergedNationalityPeriod(byNationality, byCategory, pathify, i);
    YearCellBecomesToken(y);
  }

  /** The country of observation `i` is the notation of the country of
      nationality of row `i` of vi_05. */
  lemma MergedNationalityCountry(byNationality: Table, byCategory: Table, pathify: string -> string, i: nat)
    requires WellFormed(byNationality) && WellFormed(byCategory)
    requires i < |byNationality.rows| && CountryOfNationality in byNationality.columns
    ensures MergedObservations(byNationality, byCategory, pathify).rows[i][HoCountry]
      == MapCell(byNationality.rows[i][CountryOfNationality], pathify)
  {
    var cols := Entry1(byNationality).columns + Entry2(byCategory).columns;
    DimensionNames();
    MergedNationalityAt(byNationality, byCategory, pathify, i);
    NationalityEntryCells(byNationality.rows[i]);
    assert RenamedColumn(CountryOfNationality) == HoCountry;
    ObservationCells(NationalityEntry(byNationality.rows[i]), cols, pathify);
  }

  /** Every other cell of row `i` of vi_05 (its Value among them) reaches
      observation `i` unchanged. */
  lemma MergedNationalityOthers(byNationality: Table, byCategory: Table, pathify: string -> string, i: nat)
    requires WellFormed(byNationality) && WellFormed(byCategory)
    requires i < |byNationality.rows|
    ensures forall c :: (c in byNationality.columns && c !in {Year, Period, CountryOfNationality, HoCountry, MeasureType, Unit}
                  && c !in CategoryDimensions) ==>
      MergedObservations(byNationality, byCategory, pathify).rows[i][c] == byNationality.rows[i][c]
  {
    var cols := Entry1(byNationality).columns + Entry2(byCategory).columns;
    DimensionNames();
    MergedNationalityAt(byNationality, byCategory, pathify, i);
    NationalityEntryCells(byNationality.rows[i]);
    ObservationCells(NationalityEntry(byNationality.rows[i]), cols, pathify);
  }

  /** Observation `|byNationality.rows| + j` comes from row `j` of vi_01_q; its
      country is the notation of `Rest of world`. */
  lemma MergedCategoryCountry(byNationality: Table, byCategory: Table, pathify: string -> string, j: nat)
    requires WellFormed(byNationality) && WellFormed(byCategory)
    requires j < |byCategory.rows|
    ensures MergedObservations(byNationality, byCategory, pathify).rows[|byNationality.rows| + j][HoCountry]
      == Text(pathify("Rest of world"))
  {
    var cols := Entry1(byNationality).columns + Entry2(byCategory).columns;
    DimensionNames();
    MergedCategoryAt(byNationality, byCategory, pathify, j);
    ObservationCells(CategoryEntry(byCategory.rows[j]), cols, pathify);
  }

  /** The category dimensions of that observation are the notations of row
      `j`'s own labels, or NaN where vi_01_q lacks the column. */
  lemma MergedCategoryDimensions(byNationality: Table, byCategory: Table, pathify: string -> string, j: nat)
    requires WellFormed(byNationality) && WellFormed(byCategory)
    requires j < |byCategory.rows|
    ensures forall c :: c in CategoryDimensions ==>
      MergedObservations(byNationality, byCategory, pathify).rows[|byNationality.rows| + j][c]
      == if c in byCategory.columns then MapCell(byCategory.rows[j][c], pathify) else Blank
  {
    var cols := Entry1(byNationality).columns + Entry2(byCategory).columns;
    DimensionNames();
    MergedCategoryAt(byNationality, byCategory, pathify, j);
    CategoryEntryCells(byCategory.rows[j]);
    ObservationCells(CategoryEntry(byCategory.rows[j]), cols, pathify);
  }

  /** Every other cell of row `j` of vi_01_q reaches that observation
      unchanged, its Value among them. */
  lemma MergedCategoryOthers(byNationality: Table, byCategory: Table, pathify: string -> string, j: nat)
    requires WellFormed(byNationality) && WellFormed(byCategory)
    requires j < |byCategory.rows|
    ensures forall c :: (c in byCategory.columns && c !in {HoCountry, MeasureType, Unit} && c !in CategoryDimensions) ==>
      MergedObservations(byNationality, byCategory, pathify).rows[|byNationality.rows| + j][c] == byCategory.rows[j][c]
  {
    var cols := Entry1(byNationality).columns + Entry2(byCategory).columns;
    var r := byCategory.rows[j];
    var o := MergedObservations(byNationality, byCategory, pathify).rows[|byNationality.rows| + j];
    MergedCategoryAt(byNationality, byCategory, pathify, j);
    CategoryEntryCells(r);
    ObservationCells(CategoryEntry(r), cols, pathify);
    DimensionNames();
    forall c | c in byCategory.columns && c !in {HoCountry, MeasureType, Unit} && c !in CategoryDimensions
      ensures o[c] == r[c]
    {
      assert c in cols && c !in NotationDimensions && c in CategoryEntry(r);
      assert CategoryEntry(r)[c] == r[c];
      assert o[c] == CategoryEntry(r)[c];
    }
  }

  /** The period of that observation is row `j`'s own: the year rewrite is
      never applied to vi_01_q. */
  lemma MergedCategoryPeriod(byNationality: Table, byCategory: Table, pathify: string -> string, j: nat)
    requires WellFormed(byNationality) && WellFormed(byCategory)
    requires j < |byCategory.rows| && Period in byCategory.columns
    ensures MergedObservations(byNationality, byCategory, pathify).rows[|byNationality.rows| + j][Period] == byCategory.rows[j][Period]
  {
    MergedCategoryOthers(byNationality, byCategory, pathify, j);
  }

  /** Lines 29 and 34-42: `entry_1` is a copy of the vi_05 frame that is
      renamed, has its periods written as strings and rewritten, and has its
      category dimensions filled in place. Reading `entry_1['Period']` at
      line 37 needs a Year or a Period column. */
  method BuildEntry1(byNationality: Frame) returns (entry1: Frame)
    requires byNationality.Valid()
    requires Year in byNationality.columns || Period in byNationality.columns
    ensures fresh(entry1) && entry1.Valid() && entry1.Contents() == Entry1(byNationality.Contents())
  {
    entry1 := byNationality.Copy();
    entry1.Rename(Year, Period);
    assert Period in entry1.columns;
    entry1.Rename(CountryOfNationality, HoCountry);
    assert Period in entry1.columns;
    entry1.AsStrings(Period);
    entry1.ReplaceYears(Period);
    ghost var periods := entry1.Contents();
    for k := 0 to |CategoryDimensions|
      invariant entry1.Valid() && entry1.Contents() == AssignedAll(periods, CategoryDimensions[..k], Text("All"))
    {
      assert CategoryDimensions[..k + 1][..k] == CategoryDimensions[..k];
      entry1.Assign(CategoryDimensions[k], Text("All"));
    }
    assert CategoryDimensions[..|CategoryDimensions|] == CategoryDimensions;
  }

  /** Lines 33 and 44: `entry_2` is a copy of the vi_01_q frame whose country
      is set to `Rest of world`. */
  method BuildEntry2(byCategory: Frame) returns (entry2: Frame)
    requires byCategory.Valid()
    ensures fresh(entry2) && entry2.Valid() && entry2.Contents() == Entry2(byCategory.Contents())
  {
    entry2 := byCategory.Copy();
    entry2.Assign(HoCountry, Text("Rest of world"));
  }

  /** Lines 52-54: each notation column of `combined` is mapped through
      `pathify` in place. */
  method MapToNotation(combined: Frame, pathify: string -> string)
    requires combined.Valid() && forall c :: c in NotationDimensions ==> c in combined.columns
    modifies combined
    ensures combined.Valid() && combined.Contents() == MappedAll(old(combined.Contents()), NotationDimensions, pathify)
  {
    ghost var labelled := combined.Contents();
    for k := 0 to |NotationDimensions|
      invariant combined.Valid() && combined.Contents() == MappedAll(labelled, NotationDimensions[..k], pathify)
    {
      assert NotationDimensions[..k + 1][..k] == NotationDimensions[..k];
      combined.MapColumn(NotationDimensions[k], pathify);
    }
    assert NotationDimensions[..|NotationDimensions|] == NotationDimensions;
  }

  /** The script body of lines 29-54 on frames: both inputs are copied, the
      copies are changed in place, and the result is a new frame holding
      `MergedObservations` of the inputs; the inputs themselves are left as
      they were. Reading `entry_1['Period']` at line 37 needs a Year or a
      Period column. */
  method MergeObservations(byNationality: Frame, byCategory: Frame, pathify: string -> string) returns (combined: Frame)
    requires byNationality.Valid() && byCategory.Valid()
    requires Year in byNationality.columns || Period in byNationality.columns
    ensures fresh(combined) && combined.Valid()
    ensures combined.Contents() == MergedObservations(byNationality.Contents(), byCategory.Contents(), pathify)
    ensures unchanged(byNationality, byCategory)
  {
    var entry1 := BuildEntry1(byNationality);
    var entry2 := BuildEntry2(byCategory);
    combined := ConcatFrames(entry1, entry2);
    combined.Assign(MeasureType, Text("Count"));
    combined.Assign(Unit, Text("Applications"));
    DimensionNames();
    MapToNotation(combined, pathify);
  }

}
