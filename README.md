# FPL season aggregation and dataset helpers, in Dafny

This project models the core of a football statistics pipeline that prepares
a dataset for predicting Fantasy Premier League outcomes. `PlayerData.data_lister`
(player_data.py) takes one season's fixture list. It applies the caller's
filter options (home, away, team, date range, match range, gameweek range) and
starts zero-filled tables: one player table and one goalkeeper table per
selected team, plus one teams table. It then folds every selected fixture into
those tables:

- each player's match sheet is added column by column (age set once,
  position codes counted, starts, substitutions and 60-minute matches
  counted);
- the gameweek's fantasy record adds points and replaces the value;
- goalkeeper sheets are added;
- each team row takes the result, goals, clean sheets, points, five-match
  form windows, managers and formations;
- card totals are summed from the player tables.

It ends by computing the percentage columns and clamping `value_change`.
The dataset helpers (dataset_generator.py) derive formula columns, classify a
player's dominant position, parse ages, drop players under a minutes
threshold, number the teams, and set the outcome labels.

Modules:

- `Basics`: Option, Result, counting.
- `Text`: Python's `str.split`, string order, `sorted`, fantasy-name
  normalisation.
- `Numbers`: floating-point values with ±inf and NaN as pandas produces them.
- `Fixtures`: option validation and fixture selection.
- `Rows`: the row records and the per-match steps on one row.
- `Aggregation`: the whole of `data_lister` as functions.
- `Invariants`: what the fold keeps true.
- `Lister`: the loops of `data_lister`, a class whose methods update the
  tables in place, each proved equal to the `Aggregation` functions. Like
  them, it uses the corrected halves of the first three findings below.
- `Dataset`: the dataset helpers.

Inputs the code reads from files are parameters. A `Season` holds the fixture
list, the roster and the team names. A `Store` holds the match reports and the
fantasy gameweek records. A `Schema` holds the column headers.

## Model

| member | source | states |
|---|---|---|
| Fixtures.PlayedMembership | player_data.py:141-142 | a fixture is kept exactly when some fixture-list row with the same teams and gameweek has a date, a score and a report |
| Fixtures.Filter | player_data.py:215-216 | a boolean mask keeps exactly the fixtures in the list that satisfy it, and never adds rows |
| Fixtures.FilterFilter | player_data.py:148-216 | two masks applied one after the other keep what their conjunction keeps, in the same order |
| Fixtures.WindowPositions | player_data.py:192-202 | `reset_index().loc[a:b-1]` keeps exactly the rows at positions a..b-1, in order, and negative starts are clamped |
| Fixtures.FirstInvalidTeam | player_data.py:153-158 | a team option raises exactly when one of its names is not a team of the season, and it names such a team |
| Fixtures.FirstUnknownKey | player_data.py:137-139 | no error is reported exactly when every option key is a valid one |
| Fixtures.ApplyOptionSound | player_data.py:148-216 | every fixture an option keeps was in its input and satisfies that option, and every team it names is rostered |
| Fixtures.NarrowErrorStands | player_data.py:148-221 | once an option raises, the later options do not change the outcome |
| Fixtures.NarrowTeamsInRoster | player_data.py:153-169 | every name collected into the team list is a rostered team |
| Fixtures.NarrowSound | player_data.py:148-221 | the selected fixtures satisfy every option, and with at least one option the selection is never empty |
| Fixtures.UnknownKeyRaisesFirst | player_data.py:137-139 | an unknown key raises InvalidOption before any option is applied |
| Fixtures.FirstUnknownKeyAt | player_data.py:137-139 | the key reported is the first unknown key in option order |
| Fixtures.SelectSound | player_data.py:134-229 | a successful selection has a non-empty team list of rostered teams, and only played fixtures that satisfy every option |
| Fixtures.SelectFixtures | player_data.py:134-229 | the option loop computes the selection that `Select` specifies, errors included |
| Fixtures.GameweekRangeExact | player_data.py:205-213 | `[g]` keeps exactly gameweek g, and `[a, b]` keeps exactly a <= gameweek < b |
| Fixtures.LabelWeekOutsideFeatureWindow | player_data.py:209-213 | the label gameweek `[b]` shares no fixture with the feature window `[a, b]` |
| Fixtures.MatchRangeExact | player_data.py:192-202 | `[n]` keeps the first n rows, and `[a, b]` keeps rows a..b-1 |
| Fixtures.DateRangeTwoBoundsRaises | player_data.py:174-190 | two date bounds always raise "Date range is not valid", and more than two raise the too-many-bounds error |
| Text.JoinSplit | player_data.py:385 | joining the parts of `split(sep)` with `sep` gives back the original string |
| Text.SplitJoin | player_data.py:385 | splitting a join of parts that avoid the separator gives back the parts |
| Text.SplitOnlyAtSeparator | player_data.py:295 | a string is left whole by `split` exactly when it does not contain the separator |
| Text.Sort | player_data.py:331 | `sorted` returns an ordered permutation of its input |
| Text.SortSorted | player_data.py:228-229 | sorting an already sorted list changes nothing |
| Text.SameLengthDigitsOrder | player_data.py:498 | for numerals of equal length, string order is numeric order |
| Text.DigitsOrderCounterexample | player_data.py:498 | "10" sorts before "9" as strings, although 10 > 9 |
| Text.LexTotal | player_data.py:498-514 | any two strings are ordered one way or the other |
| Text.LegacyName | player_data.py:309-312 | the pre-2018 fantasy name has no underscore left and keeps its length |
| Text.ModernNameOfTaggedName | player_data.py:304-308 | "first_second_id" becomes "first second" from 2018 on |
| Text.ModernNameIsPrefixOfLegacy | player_data.py:304-312 | the 2018 rule's name is a prefix of the older rule's name, and the two agree when there is at most one underscore |
| Text.ManagerName | player_data.py:440-443 | the manager is the suffix after the last ": ", has no ": " left, and is the whole entry when there is no ": " |
| Numbers.FillNaN | player_data.py:623 | `fillna(0)` turns NaN into 0 and leaves every other value |
| Numbers.RatioWithZeroDivisor | player_data.py:597-623 | a zero total gives 0 for a zero count, +inf for a positive count and −inf for a negative one |
| Numbers.DivMulInverse | player_data.py:597-620 | dividing by a non-zero total undoes multiplying by it, including for the infinities |
| Numbers.ZeroNaNAndPosInfIdempotent | dataset_generator.py:35 | replacing NaN and +inf by 0 twice is the same as once, and leaves only finite values and −inf |
| Rows.PushForm | player_data.py:517-524 | a result pushed onto a form window of at most five is the last five of the window plus it, and it is the newest entry |
| Rows.PushAllKeepsLatest | player_data.py:569-574 | pushing results one by one keeps exactly the last five results of the whole sequence |
| Rows.BumpCounts | player_data.py:387-391 | counting a code adds one to that code only, and appends the code when it is new |
| Rows.AddCodesCounts | player_data.py:383-391 | after a match, each code's count grows by its number of occurrences in the comma-split position string |
| Rows.AddCodesDistinct | player_data.py:387-391 | the position dictionary never holds a code twice |
| Rows.AddPositions | player_data.py:387-391 | the loop over the split codes computes `AddCodes` |
| Rows.InitialPlayer | player_data.py:241-255 | a new row has the player's name, no matches, no age, no positions, and a zero for every stat column except player, position and age |
| Rows.StepPlayer | player_data.py:339-410 | the column loop and the fantasy update compute `PlayerStep`, whose fantasy effect `PlayerStepFantasy` states |
| Rows.ColumnsFoldCounters | player_data.py:341-364 | after a sheet, starts or sub_ins, sub_outs and played_60 grew once per "minutes" column, by the substitution map and by minutes > 60 |
| Rows.ColumnsFoldStats | player_data.py:341-345 | each stat column grows by the sheet's value, once per time the column is listed |
| Rows.ColumnsFoldAge | player_data.py:366-374 | the age is taken from the sheet only while it is still unset |
| Rows.ColumnsFoldPositions | player_data.py:376-391 | each position code's count grows by its occurrences in the sheet's position string, once per "position" column |
| Rows.ColumnsFoldCodesDistinct | player_data.py:376-391 | a sheet never puts a position code in the dictionary twice |
| Rows.PlayerStepKeepsValid | player_data.py:346-395 | a match adds one appearance; starts plus sub_ins stay equal to appearances, and sub_outs and played_60 never exceed them (scaled by how often "minutes" is listed) |
| Rows.PlayerStepFantasy | player_data.py:397-410 | with exactly one fantasy row for the player, `value` becomes that row's value and `value_change` the new value minus the stored one; otherwise the fantasy columns stay; the name is kept |
| Rows.FantasyStepEffect | player_data.py:397-410 | for any stored value: one matching fantasy row replaces the value, records new − stored as the change and adds the points columns; none or several leave everything unchanged |
| Rows.FantasyStepRecoversPrevious | player_data.py:405-410 | the stored value is the new value minus the recorded change |
| Rows.FirstSightingChange | player_data.py:404-410 | the first fantasy value seen gives a value_change equal to the value itself |
| Rows.InitialKeeper | player_data.py:260-266 | a new goalkeeper row has its name, no appearances, no age and a zero for every stat column |
| Rows.StepKeeper | player_data.py:418-437 | the goalkeeper column loop computes `KeeperStep` |
| Rows.KeeperColumnsFoldEffect | player_data.py:423-435 | each goalkeeper stat grows by the sheet's value per listing, and the age is set only while unset |
| Rows.NumericOutcome | player_data.py:497-515 | a win exactly when more goals were scored than conceded, a draw exactly when equal, a loss exactly when fewer |
| Rows.AddIfMissing | player_data.py:463-476 | the manager or formation is in the list afterwards, nothing else is added, and the list keeps no duplicates |
| Rows.InitialTeamValid | player_data.py:271-278 | a zero-filled team row is consistent |
| Rows.TallyKeepsValid | player_data.py:481-576 | recording a result keeps wins + draws + losses = matches, pts = 3·wins + draws, cleansheets ≤ matches and the form length at min(matches, 5) |
| Rows.TeamStepKeepsValid | player_data.py:458-576 | a match keeps the row consistent with its home/away split, adds one match, the outcome's points and the goals, and a clean sheet exactly when nothing was conceded |
| Rows.StringScoreComparisonCounterexample | player_data.py:498-515 | a 10–9 home win is recorded as a loss with no points as written, and as a win by the numeric rule |
| Rows.AsWrittenAgreesOnSingleDigitHome | player_data.py:481-524 | with one-digit scores the string comparison gives the numeric result |
| Rows.AwayCleansheetCounterexample | player_data.py:531-534 | an away side that lost 1–0 gets an away clean sheet but no overall clean sheet, which breaks the row's consistency |
| Aggregation.InitialPlayers | player_data.py:239-258 | the table has as many rows as the roster has outfield players and goalkeepers; `InitialPlayersRows` states which rows |
| Aggregation.InitialPlayersRows | player_data.py:239-255 | the player table's names are sorted and are the roster's outfield players and goalkeepers with their multiplicities, and each row is the zero-filled `InitialPlayer` of its name |
| Aggregation.InitialKeepers | player_data.py:260-269 | the table has as many rows as the roster has goalkeepers; `InitialKeepersRows` states which rows |
| Aggregation.InitialKeepersRows | player_data.py:260-266 | the goalkeeper table's names are sorted and are the roster's goalkeepers with their multiplicities, and each row is the zero-filled `InitialKeeper` of its name |
| Aggregation.InitialTeams | player_data.py:271-278 | one team row per team-list entry |
| Aggregation.Normalise | player_data.py:302-312 | every fantasy row keeps its points and value and gets the season's name rule applied |
| Aggregation.Named | player_data.py:337 | the fantasy rows that match a player are exactly the rows carrying that name |
| Aggregation.FirstPlayerClash | player_data.py:333-410 | no error exactly when no sheet name is on two rows of the player table while the headers list "age" or one fantasy row carries the name; an error names such a sheet name |
| Aggregation.FirstKeeperClash | player_data.py:418-434 | no error exactly when the goalkeeper headers lack "age" or no sheet name is on two rows of the goalkeeper table; an error names such a sheet name |
| Aggregation.DuplicateRosterNameRaises | player_data.py:333-374 | a sheet name on two rows of the team's player table raises DuplicatePlayer when the headers list "age" |
| Aggregation.DistinctNamesNeverClash | player_data.py:239-258 | a player table whose names are distinct never raises for a duplicate |
| Aggregation.RowOf | player_data.py:335-339 | a sheet row is found exactly when the name is on the sheet, and it carries that name |
| Aggregation.KeeperRowOf | player_data.py:420-421 | a goalkeeper sheet row is found exactly when the name is on the sheet |
| Aggregation.CardTotals | player_data.py:580-593 | every team row gets the card sums of its own team's player table |
| Aggregation.CardTotalsMisaligned | player_data.py:584-593 | with team list [x, y] and rows sorted [y, x], the code writes x's totals into y's row |
| Aggregation.CardTotalsAgreeWhenSorted | player_data.py:584-593 | when the team list is already sorted, the code's positional assignment is the by-name one |
| Aggregation.FirstMissing | player_data.py:580-620 | no column is reported exactly when every needed column is in the headers; a reported column is needed, missing, and every needed column before it is present |
| Aggregation.CardColumnsMissing | player_data.py:580-593 | the card totals go through exactly when a team is selected and the headers have the three card columns |
| Aggregation.FixtureStepNeedsCardColumns | player_data.py:289-593 | a fixture that goes through had a team selected and all three card columns |
| Aggregation.FoldErrorStands | player_data.py:289-593 | once a fixture raises, the later fixtures do not change the outcome |
| Aggregation.Ratio | player_data.py:597-623 | a ratio column is never NaN; it is the quotient for a non-zero total, and for a zero total it is 0 exactly when the count is 0 and +inf exactly when it is positive |
| Aggregation.ClampChange | player_data.py:625-627 | value_change never exceeds 30; a larger change becomes 0 and any other is kept |
| Aggregation.FinaliseRows | player_data.py:595-627 | each row of a player table is `FinaliseRow` of its input row, in place, and the table keeps its length |
| Aggregation.DataListerSpecNeedsColumns | player_data.py:580-620 | a successful call had every ratio column when a team is selected, and every card column when a fixture was folded |
| Aggregation.RatioColumnRequired | player_data.py:595-620 | without a ratio column, a call with a team selected raises MissingStatColumn for a ratio column once the fold goes through |
| Invariants.InitialTeamsValid | player_data.py:271-278 | every zero-filled team row is consistent |
| Invariants.TeamPassEffect | player_data.py:458-576 | a side's update keeps names, adds one match to the rows of that team only, and keeps each row consistent |
| Invariants.SquadStepKeepsTeamsValid | player_data.py:319-578 | one side of a fixture keeps every team row consistent |
| Invariants.FixtureStepKeepsTeamsValid | player_data.py:289-593 | one fixture keeps every team row consistent |
| Invariants.FoldKeepsTeamsValid | player_data.py:289-593 | the whole fold keeps every team row consistent |
| Invariants.SquadStepCountsMatches | player_data.py:576 | one side adds one match to its own selected team's rows and changes no name |
| Invariants.FixtureStepCountsMatches | player_data.py:319-578 | one fixture adds one match to each selected team that played in it |
| Invariants.FoldCountsMatches | player_data.py:289-576 | after the fold, a selected team's matches_played is its number of selected fixtures |
| Invariants.PlayerPassKeepsValid | player_data.py:333-410 | one sheet name keeps every player row's appearance counters consistent |
| Invariants.PlayersPassKeepsValid | player_data.py:331-410 | a whole sheet keeps the appearance counters consistent |
| Invariants.SquadStepKeepsPlayersValid | player_data.py:319-437 | one side of a fixture keeps the counters consistent in every player table |
| Invariants.FixtureStepKeepsPlayersValid | player_data.py:289-593 | one fixture keeps the counters consistent |
| Invariants.InitialPlayersValid | player_data.py:239-258 | the zero-filled player tables are consistent |
| Invariants.FoldKeepsPlayersValid | player_data.py:289-593 | the whole fold keeps the counters consistent |
| Invariants.FoldCardsMatch | player_data.py:580-593 | after at least one fixture, every team row carries its own team's card totals |
| Invariants.FinaliseRowFinished | player_data.py:595-627 | a finished row has all eight percentage columns, none NaN, each replacing the summed column of the same name, every other stat column unchanged, and value_change ≤ 30 |
| Invariants.FinaliseBounds | player_data.py:595-627 | every row of every player table is finished |
| Invariants.ShareBounded | player_data.py:597-605 | a won share of non-negative counts (aerials, dribble tackles) is a finite value between 0 and 1 |
| Invariants.DataListerTeams | player_data.py:134-629 | the result's team rows are consistent, one per team-list entry in sorted order, each with matches_played equal to its number of selected fixtures |
| Lister.SeasonTables.constructor | player_data.py:225-281 | the tables start as `InitialTables` |
| Lister.SeasonTables.PlayerTables | player_data.py:239-258 | the per-team loop builds the zero-filled player tables |
| Lister.SeasonTables.KeeperTables | player_data.py:260-269 | the per-team loop builds the zero-filled goalkeeper tables |
| Lister.SeasonTables.PlayerSheet | player_data.py:331-410 | the sorted-name loop updates only the team's player table, as `PlayersPass` says |
| Lister.SeasonTables.PlayerRows | player_data.py:333-410 | the rows carrying one name take that player's match, as `PlayerPass` says |
| Lister.SeasonTables.KeeperSheet | player_data.py:412-437 | the goalkeeper loop updates only the team's goalkeeper table, as `KeepersPass` says |
| Lister.SeasonTables.KeeperRows | player_data.py:418-437 | the rows carrying one goalkeeper name take the match |
| Lister.SeasonTables.TeamRows | player_data.py:458-576 | the rows of the team take the match, as `TeamPass` says |
| Lister.SeasonTables.FoldSide | player_data.py:319-578 | one side updates the tables as `SquadStep` says, or returns its error |
| Lister.SeasonTables.SumCards | player_data.py:586 | the loop adds up a column over a player table |
| Lister.SeasonTables.RecomputeCards | player_data.py:580-593 | the teams table takes the card totals of `CardTotals` |
| Lister.SeasonTables.FoldFixture | player_data.py:289-593 | one fixture updates the tables as `FixtureStep` says, or returns its error |
| Lister.SeasonTables.Finish | player_data.py:595-627 | the final pass leaves the tables as `Finalise` says |
| Lister.DataLister | player_data.py:134-629 | the whole call returns what `DataListerSpec` specifies, errors included |
| Dataset.Cleaned | dataset_generator.py:35 | the new column has no NaN and no +inf, and keeps every finite value and −inf |
| Dataset.EvalErrorStands | dataset_generator.py:16-33 | once an operand column is missing, the later tokens do not change the outcome |
| Dataset.EvalTokensHeight | dataset_generator.py:16-33 | evaluating a formula keeps the frame's height |
| Dataset.CreateColumnClean | dataset_generator.py:9-35 | a created column has the frame's height and no NaN or +inf |
| Dataset.LeftToRight | dataset_generator.py:16-33 | `a op1 b op2 d` evaluates as `(a op1 b) op2 d`, with no operator precedence |
| Dataset.NoPrecedenceExample | dataset_generator.py:16-33 | `a - b / d` with 10, 4, 2 gives 3 |
| Dataset.UnknownOperatorSkips | dataset_generator.py:16-33 | an unknown operator leaves the running column and skips its operand, even a missing one |
| Dataset.Frame.CreateColumn | dataset_generator.py:9-35 | the token loop adds or replaces exactly the formula's column as `CreateColumnSpec` says, or returns its error, and keeps the frame rectangular |
| Dataset.FirstMaxIndex | dataset_generator.py:245-246 | the index holds the maximum count, and every earlier count is strictly smaller |
| Dataset.PlaceOf | dataset_generator.py:241-258 | "Nil" exactly for an empty dictionary; the only error is an empty dominant code |
| Dataset.DominantPositionDecides | dataset_generator.py:241-256 | a code counted strictly more than every other decides the class, wherever it sits |
| Dataset.TieGoesToFirstRecorded | dataset_generator.py:241-256 | on a tie the code recorded first wins, and {"CM": 3, "RB": 2} gives Mid |
| Dataset.Places | dataset_generator.py:239-260 | the loop gives each player the class `PlaceOf` computes, or raises at the first player whose class raises |
| Dataset.Ages | dataset_generator.py:261-263 | a table without an "age" column raises; otherwise each age becomes its years, and the column raises exactly when some age is not "years-days" |
| Dataset.AgeOfYearsDays | dataset_generator.py:262 | "years-days" parses to years, whatever follows the dash |
| Dataset.MinutesFilter | dataset_generator.py:270-272 | a table without a "minutes" column raises exactly then, with that column's name; otherwise a row is kept exactly when its minutes are strictly above the threshold |
| Dataset.Retained | dataset_generator.py:269-272 | every kept row was in the table and has minutes strictly above the threshold |
| Dataset.RetainedComplete | dataset_generator.py:269-272 | every row with minutes strictly above the threshold is kept |
| Dataset.RetainedAppend | dataset_generator.py:269-274 | the filter keeps row order |
| Dataset.RetainedExact | dataset_generator.py:270-272 | a row is kept exactly when it is in the table with minutes strictly above the threshold |
| Dataset.FilteredNames | dataset_generator.py:275-276 | one name per kept row, and a name is listed exactly when some row carrying it has minutes strictly above the threshold |
| Dataset.PositionsAsWritten | dataset_generator.py:279-283 | the code assigns one position per team row |
| Dataset.PositionsIgnorePoints | dataset_generator.py:279-283 | as written, the positions never depend on the points |
| Dataset.PositionsArePlaces | dataset_generator.py:279-283 | the points-sort positions are 1..n, each used once, and fewer points give a smaller position |
| Dataset.PositionCounterexample | dataset_generator.py:279-283 | rows with 3 and 0 points get positions 1, 2 as written but 2, 1 from the sort |
| Dataset.LabelsOf | dataset_generator.py:331-352 | THREE+ implies THREE implies TWO implies ONE for goals and for assists, and PLAYED_60+ implies PLAYED_60 |
| Dataset.GoalBands | dataset_generator.py:331-352 | for whole counts the flags mark exactly one, two, three or more goals, and exactly 60 minutes sets PLAYED_60 alone |
| Dataset.FirstNamed | dataset_generator.py:325-326 | the row found is on the table and carries the name, and none is found only when no row carries it |
| Dataset.FirstIndex | dataset_generator.py:328-329 | the index holds the name, and no earlier index does |
| Dataset.LabelStepError | dataset_generator.py:325-352 | a player's step raises exactly when its row is missing or the table lacks "goals", "assists" or "minutes", in the order the code reads them |
| Dataset.LabelPass | dataset_generator.py:306-352 | the label table has one row per filtered player |
| Dataset.LabelPassNeedsColumns | dataset_generator.py:331-352 | once a player is labelled, success means the table has "goals", "assists" and "minutes", and a table without "goals" raises on it |
| Dataset.LabelPassRows | dataset_generator.py:322-352 | with distinct names each row carries its player's labels, and rows not yet reached are all false |
| Dataset.DuplicateNameLeavesRowUnset | dataset_generator.py:328-329 | a name listed twice writes the first row twice and leaves the second all false |
| Dataset.LabelErrorStands | dataset_generator.py:322-332 | once a player is missing from the label table, the pass ends with that error |
| Dataset.LabelRows | dataset_generator.py:322-352 | the loop computes `LabelPass` over all filtered players |

## Left out

- File and network input: the CSV and JSON loading (player_data.py:19-56, 299-300, 322-325, 414-415) and the whole scraper (data_retriever.py). Their records are the `Season`, `Store` and `Schema` parameters.
- Floating-point rounding and signed zero: numbers are reals with explicit ±inf and NaN. The stat sheets hold no NaN.
- Parsing of dates, possession and xG: dates are day numbers, and possession and xG are given as parsed numbers.
- Python's `int()` accepts signs, spaces and underscores. The model accepts only plain digits, in scores (`Aggregation.WellFormedScore`) and ages (`Dataset.AgeYears`). Any other text raises.
- Aggregation.SquadStep: raises MalformedReport when the team's sheet misses a schema column or lists a name twice, or when the match info is short. The code raises only when it reaches the missing cell, and with a different exception.
- Dataset.Retained: reads each row's minutes cell, and a row without one reads 0.0. Whether the table has the column is decided once, from its header, by `Dataset.MinutesFilter`. `Dataset.LabelStepError` does the same for "goals", "assists" and "minutes", and `Dataset.Ages` for "age". A row that lacks a cell its header lists is not modelled as an error; data_lister's rows start with a cell for every header column (`Rows.InitialPlayer`).
- The teams table columns `number_of_players` and `active_players` are created and never updated, so they are not modelled.
- Card columns: the code creates them only when at least one fixture is folded. The model starts them at zero.
- Aggregation.DataListerSpec: the fold uses the corrected team step and card assignment of the first three findings. Scores are compared as numbers, the away clean sheet counts goals conceded, and card totals go to rows by team name. The result differs from the code's on a 10–9 score, an away 1–0 defeat and an unsorted team option.
- Lister.DataLister: it computes `DataListerSpec`, so it carries the same three corrections.
- Lister.SeasonTables.FoldFixture: it computes `FixtureStep`, which uses the corrected team step and the by-name card totals.
- Lister.SeasonTables.FoldSide: it computes `SquadStep`, whose team rows take the corrected team step.
- Aggregation.PlayerPass: with a roster name listed twice, no "age" header and no single fantasy row, the code counts position codes only on the first of the two rows. The model updates both alike.
- Aggregation.KeeperPass: a goalkeeper on the sheet but missing from the roster is skipped. The code compares an empty age array with 0, and the outcome depends on the numpy version.
- Duplicate entries in the team list: `managers[0].append` reaches only the first row with that name, through a shared list. The model updates every row with the name alike.
- Ties in the points sort: pandas' default sort does not fix their order. `Dataset.Positions` breaks ties by row order. It ranks in the code's ascending order, fewest points first.
- The dataset assembly glue (dataset_generator.py:285-300, 355-369), the label column naming and the file writing.
- The unused `matplotlib` import (dataset_generator.py:1) and the data-frame `reset_index` bookkeeping.

## Findings

The rest of the model, the fold and the `Lister` class included, uses the corrected member of each row.

| source | as written | input that shows it | evidently intended | confidence | as-written member | corrected member |
|---|---|---|---|---|---|---|
| player_data.py:498-515 | `score[0] > score[1]` compares the score halves as strings | a 10–9 home win | compare the goals as numbers | high, not executed | Rows.StringScoreComparisonCounterexample | Rows.TeamStepKeepsValid |
| player_data.py:533-534 | the away clean sheet tests `score[1]`, the away side's own goals | an away side losing 1–0 | test `score[0]`, the goals it conceded, as the overall clean sheet does at 531-532 | high, not executed | Rows.AwayCleansheetCounterexample | Rows.TeamStepKeepsValid |
| player_data.py:584-593 | card totals are listed in team-list order but written by position into rows sorted by name | team option ["b", "a"] | each row gets its own team's totals | high, not executed | Aggregation.CardTotalsMisaligned | Invariants.FoldCardsMatch |
| dataset_generator.py:279-283 | the sorted frame's fresh index is assigned by position, so row i gets i + 1 | rows with 3 and 0 points | each team gets its place in the points order | medium, not executed | Dataset.PositionCounterexample | Dataset.PositionsArePlaces |
