/** The expected-standings page: which file a methodology choice reads, the
    order of the loaded table, and the column formatters of each table. */
module Standings {
  import opened Wrappers
  import opened Lex
  import opened Sorting
  import opened Decimal

  /** The three ways of computing expected standings. */
  datatype Methodology = Expected | Adjusted | NonPenalty {

    /** The label the page offers for this methodology. */
    function Label(): string {
      match this
      case Expected => "Expected Standings"
      case Adjusted => "Adjusted Expected Standings"
      case NonPenalty => "Non-Penalty Expected Standings"
    }

    /** The data file holding this methodology's table. */
    function File(): string {
      match this
      case Expected => "expected_standings.csv"
      case Adjusted => "expected_adj_standings.csv"
      case NonPenalty => "expected_np_standings.csv"
    }

    /** The prefix of this methodology's expected-goals columns. */
    function Prefix(): string {
      match this
      case Expected => ""
      case Adjusted => "adj"
      case NonPenalty => "np"
    }
  }

  /** The case split shared by the loader and the formatter table: the first
      two labels are recognised, every other string means non-penalty. */
  function MethodologyOf(choice: string): (m: Methodology)
    ensures m == Expected <==> choice == Expected.Label()
    ensures m == Adjusted <==> choice == Adjusted.Label()
    ensures m == NonPenalty <==> choice != Expected.Label() && choice != Adjusted.Label()
  {
    if choice == "Expected Standings" then Expected
    else if choice == "Adjusted Expected Standings" then Adjusted
    else NonPenalty
  }

  /** Each methodology's label selects that methodology back. */
  lemma LabelRoundTrip(m: Methodology)
    ensures MethodologyOf(m.Label()) == m
  {
  }

  /** Different methodologies read different files and use different column prefixes. */
  lemma MethodologiesDistinguishable(m1: Methodology, m2: Methodology)
    requires m1 != m2
    ensures m1.File() != m2.File()
    ensures m1.Prefix() != m2.Prefix()
  {
  }

  // ---------------------------------------------------------------------
  // Loading.

  /** One row of a standings file: its Rank and the other columns by name. */
  datatype StandingsRow = StandingsRow(rank: int, team: string, columns: map<string, real>)

  /** Python's FileNotFoundError, carrying the file name. */
  datatype FileNotFound = FileNotFound(name: string)

  /** The file a choice reads. */
  function SourceFile(choice: string): (f: string)
    ensures f == "expected_standings.csv" <==> choice == "Expected Standings"
    ensures f == "expected_adj_standings.csv" <==> choice == "Adjusted Expected Standings"
    ensures f == "expected_np_standings.csv" <==> choice != "Expected Standings" && choice != "Adjusted Expected Standings"
  {
    MethodologyOf(choice).File()
  }

  function RankKey(row: StandingsRow): seq<int> {
    [row.rank]
  }

  /** Loads the chosen table from `disk` (file name to rows) and sorts it by
      Rank, ascending; a file missing from `disk` raises. */
  function LoadStandings(choice: string, disk: map<string, seq<StandingsRow>>): (r: Result<seq<StandingsRow>, FileNotFound>)
    ensures r.Failure? <==> SourceFile(choice) !in disk
    ensures r.Failure? ==> r.error == FileNotFound(SourceFile(choice))
    ensures r.Success? ==> multiset(r.value) == multiset(disk[SourceFile(choice)])
    ensures r.Success? ==> forall i, j :: 0 <= i < j < |r.value| ==> r.value[i].rank <= r.value[j].rank
  {
    var file := SourceFile(choice);
    if file !in disk then Failure(FileNotFound(file))
    else
      var sorted := SortBy(disk[file], RankKey);
      assert forall i, j :: 0 <= i < j < |sorted| ==> sorted[i].rank <= sorted[j].rank by {
        forall i, j | 0 <= i < j < |sorted|
          ensures sorted[i].rank <= sorted[j].rank
        {
          SingletonOrder(sorted[i].rank, sorted[j].rank);
        }
      }
      Success(sorted)
  }

  // ---------------------------------------------------------------------
  // Formatting.

  /** `plus_formatter`: the truncated value, with an explicit '+' when the
      value itself is positive. */
  function PlusFormatter(x: real): (s: string)
    ensures ParseInt(s) == Some(Trunc(x))
    ensures '+' in s <==> x > 0.0
    ensures x > 0.0 ==> s[0] == '+'
  {
    var digits := IntToString(Trunc(x));
    IntToStringRoundTrip(Trunc(x));
    if x > 0.0 then
      assert ("+" + digits)[1..] == digits;
      "+" + digits
    else
      digits
  }

  /** On an integer goal difference: '+' and the digits when positive, "0"
      for zero, '-' and the digits when negative. */
  lemma PlusFormatterOnIntegers(n: int)
    ensures n > 0 ==> PlusFormatter(n as real) == "+" + NatToString(n)
    ensures n == 0 ==> PlusFormatter(n as real) == "0"
    ensures n < 0 ==> PlusFormatter(n as real) == "-" + NatToString(-n)
  {
  }

  /** The sign test looks at the value before truncation: a positive fraction
      renders as "+0", a negative one above -1 as plain "0". */
  lemma PlusFormatterOnFractions(x: real)
    ensures 0.0 < x < 1.0 ==> PlusFormatter(x) == "+0"
    ensures -1.0 < x <= 0.0 ==> PlusFormatter(x) == "0"
  {
  }

  /** The formatters a standings table applies to its columns. */
  datatype Formatter = SignedInteger | SignedOneDecimal | OneDecimal

  /** What a formatter renders for a value. SignedInteger is `plus_formatter`;
      the one-decimal formatters depend on Python's float rounding and are not
      modelled, so they render None. */
  function Render(f: Formatter, x: real): (r: Option<string>)
    ensures r.Some? <==> f == SignedInteger
    ensures r.Some? ==> ParseInt(r.value) == Some(Trunc(x))
  {
    match f
    case SignedInteger => Some(PlusFormatter(x))
    case SignedOneDecimal => None
    case OneDecimal => None
  }

  /** The uniform shape of every format table: the goal difference as a
      signed integer, the prefixed expected goal difference signed to one
      decimal, the other prefixed expected-goals columns to one decimal. */
  function ColumnFormats(p: string): (d: map<string, Formatter>)
    ensures d.Keys == {"GD", p + "xGD", p + "xG", p + "xGA", p + "xPTS"}
    ensures |d| == 5
    ensures d["GD"] == SignedInteger
    ensures forall k :: k in d ==> (d[k] == SignedOneDecimal <==> k == p + "xGD")
    ensures forall k :: k in d ==> (d[k] == OneDecimal <==> k != "GD" && k != p + "xGD")
  {
    var gd, xgd, xg, xga, xpts := "GD", p + "xGD", p + "xG", p + "xGA", p + "xPTS";
    assert xgd[|p| + 2] == 'D' && xga[|p| + 2] == 'A';
    assert |xg| < |xgd| < |xpts|;
    assert p == "" ==> xg[0] == 'x';
    map[gd := SignedInteger, xgd := SignedOneDecimal, xg := OneDecimal, xga := OneDecimal, xpts := OneDecimal]
  }

  /** `get_format_dict`: the format table of a choice, written out per branch;
      it is the uniform table for the choice's prefix. */
  function FormatDict(choice: string): (d: map<string, Formatter>)
    ensures d == ColumnFormats(MethodologyOf(choice).Prefix())
    ensures |d| == 5 && "GD" in d && d["GD"] == SignedInteger
    ensures forall x :: Render(d["GD"], x) == Some(PlusFormatter(x))
  {
    if choice == "Expected Standings" then
      assert "" + "xGD" == "xGD" && "" + "xG" == "xG" && "" + "xGA" == "xGA" && "" + "xPTS" == "xPTS";
      map["GD" := SignedInteger, "xGD" := SignedOneDecimal, "xG" := OneDecimal,
          "xGA" := OneDecimal, "xPTS" := OneDecimal]
    else if choice == "Adjusted Expected Standings" then
      assert "adj" + "xGD" == "adjxGD" && "adj" + "xG" == "adjxG" && "adj" + "xGA" == "adjxGA" && "adj" + "xPTS" == "adjxPTS";
      map["GD" := SignedInteger, "adjxGD" := SignedOneDecimal, "adjxG" := OneDecimal,
          "adjxGA" := OneDecimal, "adjxPTS" := OneDecimal]
    else
      assert "np" + "xGD" == "npxGD" && "np" + "xG" == "npxG" && "np" + "xGA" == "npxGA" && "np" + "xPTS" == "npxPTS";
      map["GD" := SignedInteger, "npxGD" := SignedOneDecimal, "npxG" := OneDecimal,
          "npxGA" := OneDecimal, "npxPTS" := OneDecimal]
  }
}
