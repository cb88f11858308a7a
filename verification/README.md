# Eredivisie Analyst: fixture difficulty and standings formatting in Dafny

This project models the small pieces of logic behind two pages of the
Eredivisie Analyst dashboard:

- **Fantasy Eredivisie** (`pages/Fantasy_Eredivisie.py`): the Fixture
  Difficulty Rating (FDR) schedule. A fixture code in the schedule is looked
  up in the small difficulty table, in the column of the selected position
  group (KEE, DEF or MID/ATT). The score found is sorted into one of five
  coloured bands with cut-offs 0.2, 0.4, 0.6 and 0.8. A missing score gets
  the neutral white style. The Team column is always white. The schedule is
  ordered by team.
- **Expected Standings** (`pages/Expected_Standings.py`): the choice of
  methodology (expected, adjusted, non-penalty) selects the data file and the
  table of column formatters. The loaded table is ordered by Rank. Goal
  difference is rendered with an explicit `+` when positive.

Files:

| file | module | contents |
|---|---|---|
| `wrappers.dfy` | `Wrappers` | `Option` (None is pandas' NaN) and `Result` (a value or a raised exception) |
| `ordering.dfy` | `Lex` | lexicographic order on integer sequences, the order of Python strings read as code points |
| `sorting.dfy` | `Sorting` | `sort_values` as a sort by key: sorted and a permutation |
| `difficulty.dfy` | `Difficulty` | bands, `get_color_from_score` and its CSS strings |
| `schedule.dfy` | `Schedule` | `column_map`, `get_fdr_score`, `apply_color`, `style_dataframe`, the sort by Team |
| `decimal.dfy` | `Decimal` | Python's `str(int)`, `int(str)` and `int(float)` |
| `standings.dfy` | `Standings` | file choice, sort by Rank, `plus_formatter`, `get_format_dict` |

Modelling decisions:

- Scores are `Option<real>`, and None stands for NaN. Scores are compared with
  the cut-offs as exact reals. This abstracts from binary floating point.
- The difficulty table is a sequence of rows. Each row has an optional fixture
  code (a NaN fixture matches nothing) and three optional scores.
- The schedule is a `Frame`: column names plus rows of optional strings.
  Styling walks it column by column, as `style.apply(axis=0)` does. It returns
  styles column-major: `styles[c][i]` is the style of row i in column c.
- A Python `KeyError` or `FileNotFoundError` is a `Result.Failure` carrying the
  missing key or file name. Reading a CSV file is a lookup in a map from file
  name to rows, which is passed in as a parameter.
- Both `sort_values` calls use one insertion sort keyed by integer sequences.
  A string is keyed by its code points. A NaN Team cell sorts after every
  present one, which is pandas' default `na_position='last'`. An integer Rank
  n is keyed by `[n]`. pandas' default sort is not stable, so only sortedness
  and permutation are promised.

Two facts about the code are worth stating up front:

- The standings page shows a formatted table, with one formatter per column.
  It draws no chart.
- Fixture-difficulty scores are not range-checked. Negative scores fall in
  band 1, and every score from 0.8 upwards falls in band 5, including scores
  above 1 (`Difficulty.OutOfRangeScores`).

## Model

| member | source | states |
|---|---|---|
| Difficulty.BandOf | pages/Fantasy_Eredivisie.py:33-42 | a present score lands in a band whose half-open interval [lower, upper) contains it |
| Difficulty.StyleOf | pages/Fantasy_Eredivisie.py:30-42 | a score gets the neutral style exactly when it is missing (NaN); a present score gets the band containing it |
| Difficulty.ColourFromScore | pages/Fantasy_Eredivisie.py:30-42 | a missing score yields exactly `background-color: white`; the returned CSS names white text exactly when the score is present and its band is drawn in white |
| Difficulty.ColourFromScoreLiterals | pages/Fantasy_Eredivisie.py:33-42 | the exact CSS string returned for a score in each of the five intervals |
| Difficulty.CssWhiteText | pages/Fantasy_Eredivisie.py:32-42 | the `; color: white` suffix appears exactly for the dark green, light red and dark red bands, never for the neutral style |
| Difficulty.WhiteTextBands | pages/Fantasy_Eredivisie.py:32-42 | white text is added exactly for bands 1, 4 and 5, and never for bands 2, 3 or a missing score |
| Difficulty.BandsDisjoint | pages/Fantasy_Eredivisie.py:33-42 | no score lies in two bands |
| Difficulty.BandOfIff | pages/Fantasy_Eredivisie.py:33-42 | the cascade of tests picks band b if and only if b's interval contains the score, so every score has exactly one band |
| Difficulty.CutOffsGoToHarderBand | pages/Fantasy_Eredivisie.py:33-41 | a score equal to a cut-off (0.2, 0.4, 0.6, 0.8) belongs to the harder band |
| Difficulty.OutOfRangeScores | pages/Fantasy_Eredivisie.py:33-42 | negative scores go to band 1 and scores of 0.8 or more, including above 1, go to band 5 |
| Difficulty.BandMonotone | pages/Fantasy_Eredivisie.py:33-42 | the band number never decreases as the score increases |
| Difficulty.CssInjective | pages/Fantasy_Eredivisie.py:32-42 | the six styles render as six different CSS strings |
| Schedule.ColumnMapContents | pages/Fantasy_Eredivisie.py:48-53 | exactly KEE, DEF and MID/ATT have a column, and they select `fdr_kee`, `fdr_def` and `fdr_mid_att` |
| Schedule.FirstMatch | pages/Fantasy_Eredivisie.py:54-56 | the index found holds the fixture and no earlier row does; no index means no row holds it |
| Schedule.FdrScore | pages/Fantasy_Eredivisie.py:45-57 | a missing fixture has no score for any group; a present fixture with an unknown group raises KeyError for that group; a found score comes from a row with that fixture in the group's column; no matching row gives no score, not an error |
| Schedule.FirstRowWins | pages/Fantasy_Eredivisie.py:54-56 | when several rows share the fixture, the first one's score is returned |
| Schedule.LaterRowsIgnored | pages/Fantasy_Eredivisie.py:54-56 | rows appended after a matching row never change the score |
| Schedule.MissingFixtureNeverRaises | pages/Fantasy_Eredivisie.py:46-47 | a missing fixture yields no score and the white style for every position group, unknown groups included |
| Schedule.ApplyColour | pages/Fantasy_Eredivisie.py:61-65 | a Team cell is white whatever its value and whatever the group; a NaN cell elsewhere is white; any other cell gets the style of its looked-up score, and the only error is KeyError for the group |
| Schedule.ApplyColourFailsIff | pages/Fantasy_Eredivisie.py:61-65 | styling a cell raises if and only if it is a present value outside the Team column and the group is unknown |
| Schedule.SomeCellFailsIff | pages/Fantasy_Eredivisie.py:60-70 | styling the schedule raises if and only if the group is unknown and some non-Team column holds a present value |
| Schedule.StyleFrame | pages/Fantasy_Eredivisie.py:60-70 | on success there is one style per cell, each column keeping its length and order, each the cell's own style; it fails exactly when some cell's styling raises, with KeyError for the group |
| Schedule.MissingSortsLast | pages/Fantasy_Eredivisie.py:81 | a NaN Team cell sorts after every present team name |
| Schedule.SortByTeam | pages/Fantasy_Eredivisie.py:81 | the rows are reordered, as a permutation, ascending by Team; the columns are unchanged; a schedule without a Team column raises KeyError |
| Sorting.SortBy | pages/Expected_Standings.py:20 | the result is ordered by the key and is a permutation of the input |
| Decimal.IntToStringRoundTrip | pages/Expected_Standings.py:65 | parsing the decimal rendering of an integer gives the integer back |
| Decimal.Trunc | pages/Expected_Standings.py:65 | `int(x)` truncates toward zero: it is within 1 of x, never farther from zero than x |
| Standings.MethodologyOf | pages/Expected_Standings.py:12-17 | the two recognised labels select their methodology; every other string selects non-penalty |
| Standings.LabelRoundTrip | pages/Expected_Standings.py:12-17 | each methodology's label selects that methodology back |
| Standings.MethodologiesDistinguishable | pages/Expected_Standings.py:12-17 | different methodologies read different files and use different column prefixes |
| Standings.SourceFile | pages/Expected_Standings.py:12-17 | each recognised label reads its own file; any other string reads the non-penalty file |
| Standings.LoadStandings | pages/Expected_Standings.py:11-20 | the result is a permutation of the chosen file's rows, ascending by Rank; a missing file raises FileNotFoundError naming it |
| Standings.PlusFormatter | pages/Expected_Standings.py:64-65 | parsing the output gives `int(x)` back; a `+` appears exactly when x is positive, and then in front |
| Standings.PlusFormatterOnIntegers | pages/Expected_Standings.py:64-65 | a positive n renders as `+` and its digits, zero as `0`, a negative n as `-` and the digits of -n |
| Standings.PlusFormatterOnFractions | pages/Expected_Standings.py:65 | the sign test comes before truncation: 0 < x < 1 renders as `+0`, and -1 < x <= 0 renders as `0` |
| Standings.ColumnFormats | pages/Expected_Standings.py:73-96 | a format table has exactly five keys: GD as a signed integer, the prefixed xGD signed to one decimal, and the prefixed xG, xGA and xPTS to one decimal |
| Standings.FormatDict | pages/Expected_Standings.py:72-96 | each choice's table has five keys, GD renders every value exactly as `plus_formatter` does, and the table equals the table for the choice's prefix ("", "adj", or "np" for any other string) |
| Standings.Render | pages/Expected_Standings.py:75-95 | the signed-integer formatter renders a value whose parse is the truncated value; the two one-decimal formatters have no modelled rendering |

## Left out

- Page layout, titles, markdown, radio and select widgets, `st.dataframe`, the
  injected CSS and the HTML FDR legend: presentation only. The legend's
  colours are the same as `Band.Colour`.
- `@st.cache_data` memoisation: it changes no result.
- `pd.read_csv` and the `FileNotFoundError` handling in the fantasy page's
  `main`: file I/O. Only the choice of file and the error's presence are
  modelled.
- `plus_formatter_1decimal` and the `"{:.1f}".format` formatters: they depend
  on binary-float `round` and Python's float formatting. They appear only as
  the tags `SignedOneDecimal` and `OneDecimal`, which `Standings.Render` maps
  to no rendering.
- Standings.PlusFormatter: the goal difference is an exact real, not a Python
  float. So two errors of `int(x)` are not modelled: ValueError on a NaN goal
  difference, and OverflowError on an infinite one.
- `load_results_data` (column renaming, percentages times 100) and the
  gameweek filter: pandas wrappers with float arithmetic and no promises of
  their own.
- `Styler.format`, which applies the format table to the standings columns:
  rendering inside pandas.
- Schedule.SortByTeam: uses the first column named Team. Duplicate Team
  columns make pandas raise, but CSV loading renames duplicate column names,
  so they cannot arise there.
- Standings.LoadStandings: Rank is an integer. A NaN or fractional Rank is not
  modelled.
- Decimal.IntToStringRoundTrip: `int()` also accepts surrounding whitespace and
  underscores. `ParseInt` models only an optional sign followed by decimal
  digits, which covers every string the formatter produces.
