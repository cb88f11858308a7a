/** The FDR schedule page: looking up a fixture's difficulty for a position
    group, styling every cell of the schedule, and ordering the schedule by
    team. */
module Schedule {
  import opened Wrappers
  import opened Lex
  import opened Sorting
  import opened Difficulty

  /** One row of the small difficulty table: a fixture code (None when the
      cell is NaN) and one optional score per position-group column. */
  datatype Row = Row(fixture: Option<string>, fdrKee: Option<real>, fdrDef: Option<real>, fdrMidAtt: Option<real>)

  /** The three score columns of the difficulty table. */
  datatype ScoreColumn = FdrKee | FdrDef | FdrMidAtt

  /** Python's KeyError, carrying the missing key. */
  datatype KeyError = KeyError(key: string)

  /** The position-group to column table. */
  const ColumnMap: map<string, ScoreColumn> := map["KEE" := FdrKee, "DEF" := FdrDef, "MID/ATT" := FdrMidAtt]

  /** Reads one score column of a row. */
  function Field(row: Row, col: ScoreColumn): Option<real> {
    match col
    case FdrKee => row.fdrKee
    case FdrDef => row.fdrDef
    case FdrMidAtt => row.fdrMidAtt
  }

  /** The only position groups with a column, and the column each selects. */
  lemma ColumnMapContents(group: string)
    ensures group in ColumnMap <==> group in {"KEE", "DEF", "MID/ATT"}
    ensures group == "KEE" ==> ColumnMap[group] == FdrKee
    ensures group == "DEF" ==> ColumnMap[group] == FdrDef
    ensures group == "MID/ATT" ==> ColumnMap[group] == FdrMidAtt
  {
  }

  /** The index of the first row whose fixture equals f. A row whose fixture
      is NaN matches nothing. */
  function FirstMatch(table: seq<Row>, f: string): (r: Option<nat>)
    ensures r.Some? ==> r.value < |table| && table[r.value].fixture == Some(f)
    ensures r.Some? ==> forall j :: 0 <= j < r.value ==> table[j].fixture != Some(f)
    ensures r.None? ==> forall j :: 0 <= j < |table| ==> table[j].fixture != Some(f)
    decreases |table|
  {
    if |table| == 0 then None
    else if table[0].fixture == Some(f) then Some(0)
    else
      match FirstMatch(table[1..], f)
      case None => None
      case Some(i) => Some(i + 1)
  }

  /** The difficulty of fixture for position group `group`: a missing
      fixture has no score, before the group is even looked at; an unknown
      group raises KeyError; otherwise the first row with that fixture
      supplies the score, and no matching row means no score. */
  function FdrScore(fixture: Option<string>, table: seq<Row>, group: string): (r: Result<Option<real>, KeyError>)
    ensures fixture.None? ==> r == Success(None)
    ensures fixture.Some? ==> (r.Failure? <==> group !in ColumnMap)
    ensures r.Failure? ==> r.error == KeyError(group)
    ensures fixture.Some? && r.Success? && r.value.Some? ==>
      exists i :: 0 <= i < |table| && table[i].fixture == fixture && Field(table[i], ColumnMap[group]) == r.value
    ensures fixture.Some? && group in ColumnMap && (forall j :: 0 <= j < |table| ==> table[j].fixture != fixture) ==>
      r == Success(None)
  {
    match fixture
    case None => Success(None)
    case Some(f) =>
      if group !in ColumnMap then Failure(KeyError(group))
      else
        match FirstMatch(table, f)
        case None => Success(None)
        case Some(i) => Success(Field(table[i], ColumnMap[group]))
  }

  /** First-match semantics: when row i is the first with the fixture, its
      score is the answer, whatever later rows hold. */
  lemma FirstRowWins(f: string, table: seq<Row>, group: string, i: nat)
    requires group in ColumnMap
    requires i < |table| && table[i].fixture == Some(f)
    requires forall j :: 0 <= j < i ==> table[j].fixture != Some(f)
    ensures FdrScore(Some(f), table, group) == Success(Field(table[i], ColumnMap[group]))
  {
  }

  /** Rows appended after a matching row never change the score. */
  lemma LaterRowsIgnored(f: string, table: seq<Row>, more: seq<Row>, group: string)
    requires exists i :: 0 <= i < |table| && table[i].fixture == Some(f)
    ensures FdrScore(Some(f), table + more, group) == FdrScore(Some(f), table, group)
  {
    if group in ColumnMap {
      var m := FirstMatch(table, f);
      var i := m.value;
      assert (table + more)[i] == table[i];
      forall j | 0 <= j < i
        ensures (table + more)[j].fixture != Some(f)
      {
        assert (table + more)[j] == table[j];
      }
      FirstRowWins(f, table + more, group, i);
    }
  }

  /** A missing fixture has no score for every position group, the unknown
      ones included. */
  lemma MissingFixtureNeverRaises(table: seq<Row>, group: string)
    ensures FdrScore(None, table, group) == Success(None)
    ensures StyleOf(FdrScore(None, table, group).value) == Plain
  {
  }

  // ---------------------------------------------------------------------
  // Styling the schedule.

  /** A schedule cell: a fixture code or a team name, None when NaN. */
  type Cell = Option<string>

  /** A table: column names and rows of cells. */
  datatype Frame = Frame(header: seq<string>, rows: seq<seq<Cell>>)

  /** Every row has one cell per column. */
  predicate WellFormed(f: Frame) {
    forall i :: 0 <= i < |f.rows| ==> |f.rows[i]| == |f.header|
  }

  const TeamColumn: string := "Team"

  /** The style of one cell, given the name of its column. */
  function ApplyColour(val: Cell, column: string, table: seq<Row>, group: string): (r: Result<CellStyle, KeyError>)
    ensures column == TeamColumn ==> r == Success(Plain)
    ensures r.Failure? ==> r.error == KeyError(group)
    ensures column != TeamColumn && r.Success? ==>
              FdrScore(val, table, group).Success? && r.value == StyleOf(FdrScore(val, table, group).value)
    ensures column != TeamColumn && val.None? ==> r == Success(Plain)
  {
    if column == TeamColumn then Success(Plain)
    else FdrScore(val, table, group).MapValue(StyleOf)
  }

  /** A cell's styling raises exactly when it is a present value outside the
      Team column and the position group has no column; the Team column
      never raises, whatever the group. */
  lemma ApplyColourFailsIff(val: Cell, column: string, table: seq<Row>, group: string)
    ensures ApplyColour(val, column, table, group).Failure? <==>
      (column != TeamColumn && val.Some? && group !in ColumnMap)
  {
  }

  /** Styling some cell of the frame raises. */
  ghost predicate SomeCellFails(frame: Frame, table: seq<Row>, group: string)
    requires WellFormed(frame)
  {
    exists c, i :: 0 <= c < |frame.header| && 0 <= i < |frame.rows| &&
      ApplyColour(frame.rows[i][c], frame.header[c], table, group).Failure?
  }

  /** Styling the schedule raises exactly when the position group has no
      column and some column other than Team holds a present value. */
  lemma SomeCellFailsIff(frame: Frame, table: seq<Row>, group: string)
    requires WellFormed(frame)
    ensures SomeCellFails(frame, table, group) <==>
      (group !in ColumnMap && exists c, i :: 0 <= c < |frame.header| && 0 <= i < |frame.rows| &&
                                             frame.header[c] != TeamColumn && frame.rows[i][c].Some?)
  {
  }

  /** Styles every column of the schedule, column by column, each column
      cell by cell. On success styles[c][i] is the style of row i in column c,
      so every column keeps its length and order. */
  method StyleFrame(frame: Frame, table: seq<Row>, group: string) returns (r: Result<seq<seq<CellStyle>>, KeyError>)
    requires WellFormed(frame)
    ensures r.Success? ==> |r.value| == |frame.header|
    ensures r.Success? ==> forall c :: 0 <= c < |frame.header| ==> |r.value[c]| == |frame.rows|
    ensures r.Success? ==> forall c, i :: 0 <= c < |frame.header| && 0 <= i < |frame.rows| ==>
      Success(r.value[c][i]) == ApplyColour(frame.rows[i][c], frame.header[c], table, group)
    ensures r.Failure? <==> SomeCellFails(frame, table, group)
    ensures r.Failure? ==> r.error == KeyError(group)
  {
    var styles: seq<seq<CellStyle>> := [];
    var c := 0;
    while c < |frame.header|
      invariant 0 <= c <= |frame.header|
      invariant |styles| == c
      invariant forall k :: 0 <= k < c ==> |styles[k]| == |frame.rows|
      invariant forall k, i :: 0 <= k < c && 0 <= i < |frame.rows| ==>
        Success(styles[k][i]) == ApplyColour(frame.rows[i][k], frame.header[k], table, group)
    {
      var column: seq<CellStyle> := [];
      var i := 0;
      while i < |frame.rows|
        invariant 0 <= i <= |frame.rows|
        invariant |column| == i
        invariant forall j :: 0 <= j < i ==>
          Success(column[j]) == ApplyColour(frame.rows[j][c], frame.header[c], table, group)
      {
        var s := ApplyColour(frame.rows[i][c], frame.header[c], table, group);
        if s.Failure? {
          return Failure(s.error);
        }
        column := column + [s.value];
        i := i + 1;
      }
      styles := styles + [column];
      c := c + 1;
    }
    r := Success(styles);
  }

  // ---------------------------------------------------------------------
  // Ordering the schedule by team.

  /** Sort key of a cell: present strings by code point, NaN after all of them. */
  function CellKey(v: Cell): (k: seq<int>)
    ensures |k| > 0
    ensures k[0] == 0 <==> v.Some?
  {
    match v
    case Some(s) => [0] + Codes(s)
    case None => [1]
  }

  /** A NaN cell sorts after every present cell. */
  lemma MissingSortsLast(s: string)
    ensures LexLe(CellKey(Some(s)), CellKey(None))
    ensures !LexLe(CellKey(None), CellKey(Some(s)))
  {
    LeadingSmaller(CellKey(Some(s)), CellKey(None));
  }

  /** The position of the first column called name. */
  function ColumnIndex(header: seq<string>, name: string): (r: Option<nat>)
    ensures r.Some? ==> r.value < |header| && header[r.value] == name
    ensures r.None? <==> name !in header
    decreases |header|
  {
    if |header| == 0 then None
    else if header[0] == name then Some(0)
    else
      match ColumnIndex(header[1..], name)
      case None => None
      case Some(i) => Some(i + 1)
  }

  /** Sorts the schedule rows by the Team column; a schedule without that
      column raises KeyError. */
  function SortByTeam(frame: Frame): (r: Result<Frame, KeyError>)
    requires WellFormed(frame)
    ensures r.Failure? <==> TeamColumn !in frame.header
    ensures r.Failure? ==> r.error == KeyError(TeamColumn)
    ensures r.Success? ==> r.value.header == frame.header && WellFormed(r.value)
    ensures r.Success? ==> multiset(r.value.rows) == multiset(frame.rows)
    ensures r.Success? ==> forall i, j :: 0 <= i < j < |frame.rows| ==>
      var t := ColumnIndex(frame.header, TeamColumn).value;
      LexLe(CellKey(r.value.rows[i][t]), CellKey(r.value.rows[j][t]))
  {
    match ColumnIndex(frame.header, TeamColumn)
    case None => Failure(KeyError(TeamColumn))
    case Some(t) =>
      var key := (row: seq<Cell>) => if t < |row| then CellKey(row[t]) else [];
      var sorted := SortBy(frame.rows, key);
      SortedRowsWellFormed(frame.rows, sorted, |frame.header|);
      assert |sorted| == |frame.rows| by {
        assert |multiset(sorted)| == |multiset(frame.rows)|;
      }
      Success(Frame(frame.header, sorted))
  }

  /** Reordering rows keeps every row's width. */
  lemma SortedRowsWellFormed(rows: seq<seq<Cell>>, sorted: seq<seq<Cell>>, width: nat)
    requires forall i :: 0 <= i < |rows| ==> |rows[i]| == width
    requires multiset(sorted) == multiset(rows)
    ensures forall i :: 0 <= i < |sorted| ==> |sorted[i]| == width
  {
    forall i | 0 <= i < |sorted|
      ensures |sorted[i]| == width
    {
      assert sorted[i] in multiset(sorted);
      assert sorted[i] in multiset(rows);
      assert sorted[i] in rows;
    }
  }
}
