/** What `data_lister` computes, as functions (player_data.py:225-627): the
    zero-filled tables for the selected teams, the fold of every selected
    fixture into them, and the ratios computed at the end. The fold uses the
    corrected team step and card assignment; the steps as written are kept
    beside them (`TeamStepAsWritten`, `CardTotalsAsWritten`). The class in
    lister.dfy runs the same computation step by step. */
module Aggregation {
  import opened Basics
  import opened Text
  import opened Numbers
  import opened Fixtures
  import opened Rows

  // ---------------------------------------------------------------------
  // What the fold reads

  /** The parts of a fixture's match-info record the fold reads: the
      "Role: Name" entries (the home manager first, the away manager
      third), expected goals, formations and possession of the two sides
      in home-away order, and each team's substitutions. */
  datatype MatchInfo = MatchInfo(
    managersCaptains: seq<string>, xgs: seq<real>, formations: seq<string>,
    possession: seq<int>, substitutes: map<string, Substitutions>)

  /** A fixture's report folder: each team's outfield sheet and goalkeeper
      sheet, and the match info. */
  datatype Report = Report(
    sheets: map<string, seq<SheetRow>>, keeperSheets: map<string, seq<KeeperSheetRow>>, info: MatchInfo)

  /** The files the fold reads: report folders keyed by (home, away) and
      the fantasy file of each gameweek. */
  datatype Store = Store(reports: map<(string, string), Report>, fantasy: map<int, seq<FantasyRow>>)

  /** The column headers of the outfield sheets and of the goalkeeper sheets. */
  datatype Schema = Schema(columns: seq<string>, keeperColumns: seq<string>)

  /** The card columns the team totals sum (player_data.py:582). */
  const CardColumns: seq<string> := ["cards_yellow", "cards_red", "cards_yellow_red"]

  /** The columns the percentage columns read, in the order the code reads
      them (player_data.py:597-620). */
  const RatioColumns: seq<string> := [
    "aerials_lost", "aerials_won", "dribble_tackles", "dribbled_past", "dribbles_completed", "dribbles",
    "passes_completed", "passes", "passes_completed_medium", "passes_medium", "passes_completed_long",
    "passes_long", "passes_received", "pass_targets", "pressure_regains", "pressures"]

  /** The first needed column the headers lack: the key of the code's first
      failing column lookup. */
  function FirstMissing(columns: seq<string>, needed: seq<string>): (r: Option<string>)
    ensures r.None? <==> forall c :: c in needed ==> c in columns
    ensures r.Some? ==> r.value in needed && r.value !in columns
    ensures r.Some? ==>
      exists k :: (0 <= k < |needed| && needed[k] == r.value &&
        forall m :: 0 <= m < k ==> needed[m] in columns)
    decreases |needed|
  {
    if needed == [] then None
    else if needed[0] !in columns then Some(needed[0])
    else
      var r := FirstMissing(columns, needed[1..]);
      assert r.Some? ==>
        exists k :: (1 <= k < |needed| && needed[k] == r.value &&
          forall m :: 0 <= m < k ==> needed[m] in columns) by {
        if r.Some? {
          var k :| 0 <= k < |needed[1..]| && needed[1..][k] == r.value &&
            forall m :: 0 <= m < k ==> needed[1..][m] in columns;
          assert needed[k + 1] == r.value;
          assert forall m :: 0 <= m < k + 1 ==> needed[m] in columns by {
            forall m | 0 <= m < k + 1 ensures needed[m] in columns {
              if m > 0 { assert needed[m] == needed[1..][m - 1]; }
            }
          }
        }
      }
      r
  }

  /** Everything one call of `data_lister` works with once the options are
      applied. */
  datatype Context = Context(season: Season, schema: Schema, teamList: seq<string>, store: Store)

  /** The tables under construction: each selected team's player table and
      goalkeeper table, and the teams table, one row per entry of the team
      list in sorted order. */
  datatype Tables = Tables(
    players: map<string, seq<PlayerRow>>, keepers: map<string, seq<KeeperRow>>, teams: seq<TeamRow>)

  // ---------------------------------------------------------------------
  // The zero-filled tables (player_data.py:225-278)

  function RosterOf(season: Season, team: string): Squad
  {
    if team in season.roster then season.roster[team] else Squad([], [])
  }

  /** A team's player table, built from the sorted roster names. */
  function InitialPlayers(squad: Squad, columns: seq<string>): (rows: seq<PlayerRow>)
    ensures |rows| == |squad.outfield| + |squad.goalkeepers|
  {
    var names := Sort(squad.outfield + squad.goalkeepers);
    seq(|names|, i requires 0 <= i < |names| => InitialPlayer(names[i], columns))
  }

  /** The player table holds one zero-filled row per outfield player and
      goalkeeper of the roster, in sorted name order. */
  lemma InitialPlayersRows(squad: Squad, columns: seq<string>)
    ensures var rows := InitialPlayers(squad, columns);
      Sorted(PlayerRowNames(rows)) &&
      multiset(PlayerRowNames(rows)) == multiset(squad.outfield + squad.goalkeepers) &&
      forall i :: 0 <= i < |rows| ==> rows[i] == InitialPlayer(rows[i].name, columns)
  {
    assert PlayerRowNames(InitialPlayers(squad, columns)) == Sort(squad.outfield + squad.goalkeepers);
  }

  /** A team's goalkeeper table, built from the sorted goalkeeper names. */
  function InitialKeepers(squad: Squad, columns: seq<string>): (rows: seq<KeeperRow>)
    ensures |rows| == |squad.goalkeepers|
  {
    var names := Sort(squad.goalkeepers);
    seq(|names|, i requires 0 <= i < |names| => InitialKeeper(names[i], columns))
  }

  /** The goalkeeper table holds one zero-filled row per rostered
      goalkeeper, in sorted name order. */
  lemma InitialKeepersRows(squad: Squad, columns: seq<string>)
    ensures var rows := InitialKeepers(squad, columns);
      Sorted(KeeperRowNames(rows)) &&
      multiset(KeeperRowNames(rows)) == multiset(squad.goalkeepers) &&
      forall i :: 0 <= i < |rows| ==> rows[i] == InitialKeeper(rows[i].name, columns)
  {
    assert KeeperRowNames(InitialKeepers(squad, columns)) == Sort(squad.goalkeepers);
  }

  function InitialTeams(teamList: seq<string>): (rows: seq<TeamRow>)
    ensures |rows| == |teamList|
  {
    var names := Sort(teamList);
    seq(|names|, i requires 0 <= i < |names| => InitialTeam(names[i]))
  }

  function InitialTables(ctx: Context): Tables
  {
    Tables(
      map t | t in ctx.teamList :: InitialPlayers(RosterOf(ctx.season, t), ctx.schema.columns),
      map t | t in ctx.teamList :: InitialKeepers(RosterOf(ctx.season, t), ctx.schema.keeperColumns),
      InitialTeams(ctx.teamList))
  }

  // ---------------------------------------------------------------------
  // Reading a report

  /** The separator of the two halves of a score: an en dash. */
  const ScoreSeparator: string := "\U{2013}"

  /** A score both of whose halves are numerals. */
  predicate WellFormedScore(score: string) {
    var parts := Split(score, ScoreSeparator);
    |parts| >= 2 && IsNumeral(parts[0]) && IsNumeral(parts[1])
  }

  function HomeText(score: string): string
    requires WellFormedScore(score)
  {
    Split(score, ScoreSeparator)[0]
  }

  function AwayText(score: string): string
    requires WellFormedScore(score)
  {
    Split(score, ScoreSeparator)[1]
  }

  function SheetNames(sheet: seq<SheetRow>): (names: seq<string>)
    ensures |names| == |sheet| && forall i :: 0 <= i < |sheet| ==> names[i] == sheet[i].name
  {
    seq(|sheet|, i requires 0 <= i < |sheet| => sheet[i].name)
  }

  function KeeperNames(sheet: seq<KeeperSheetRow>): (names: seq<string>)
    ensures |names| == |sheet| && forall i :: 0 <= i < |sheet| ==> names[i] == sheet[i].name
  {
    seq(|sheet|, i requires 0 <= i < |sheet| => sheet[i].name)
  }

  /** A sheet the code can read: no name twice, and every summed column
      present on every row. */
  predicate SheetReady(sheet: seq<SheetRow>, columns: seq<string>) {
    NoDuplicates(SheetNames(sheet)) &&
    forall i, c :: 0 <= i < |sheet| && c in columns && c !in IdentityColumns ==> c in sheet[i].stats
  }

  predicate KeeperSheetReady(sheet: seq<KeeperSheetRow>, columns: seq<string>) {
    NoDuplicates(KeeperNames(sheet)) &&
    forall i, c :: 0 <= i < |sheet| && c in columns && c !in KeeperIdentityColumns ==> c in sheet[i].stats
  }

  /** Match info with an entry for each side. */
  predicate InfoReady(info: MatchInfo) {
    |info.managersCaptains| >= 3 && |info.xgs| >= 2 && |info.formations| >= 2 && |info.possession| >= 2
  }

  /** A report the fold can read for `squad`. */
  predicate ReportReady(rep: Report, squad: string, schema: Schema) {
    squad in rep.sheets && squad in rep.keeperSheets && squad in rep.info.substitutes &&
    SheetReady(rep.sheets[squad], schema.columns) &&
    KeeperSheetReady(rep.keeperSheets[squad], schema.keeperColumns) &&
    InfoReady(rep.info)
  }

  /** The entry of the match-info arrays that belongs to a side. The code
      keys them by team name, so when both sides carry the same name the
      away entry wins. */
  function SideIndex(f: Fixture, side: Side): (i: nat)
    ensures i < 2
  {
    if side == AwaySide || f.home == f.away then 1 else 0
  }

  function FactsOf(info: MatchInfo, i: nat): SideFacts
    requires InfoReady(info) && i < 2
  {
    SideFacts(ManagerName(info.managersCaptains[if i == 0 then 0 else 2]),
      info.formations[i], info.possession[i], info.xgs[i])
  }

  // ---------------------------------------------------------------------
  // One team's sheets applied to its tables (player_data.py:325-436)

  /** The fantasy file with its names normalised for the season. */
  function Normalise(rows: seq<FantasyRow>, season: int): (r: seq<FantasyRow>)
    ensures |r| == |rows|
    ensures forall i :: 0 <= i < |rows| ==>
      r[i].name == FantasyName(season, rows[i].name) && r[i].points == rows[i].points && r[i].value == rows[i].value
  {
    seq(|rows|, i requires 0 <= i < |rows| => rows[i].(name := FantasyName(season, rows[i].name)))
  }

  /** The fantasy rows carrying a name. */
  function Named(rows: seq<FantasyRow>, name: string): (r: seq<FantasyRow>)
    ensures forall x :: x in r <==> x in rows && x.name == name
  {
    if rows == [] then []
    else (if rows[0].name == name then [rows[0]] else []) + Named(rows[1..], name)
  }

  /** The first sheet row carrying a name. */
  function RowOf(sheet: seq<SheetRow>, name: string): (r: Option<SheetRow>)
    ensures r.Some? <==> name in SheetNames(sheet)
    ensures r.Some? ==> r.value in sheet && r.value.name == name
  {
    if sheet == [] then None
    else if sheet[0].name == name then Some(sheet[0])
    else
      assert SheetNames(sheet) == [sheet[0].name] + SheetNames(sheet[1..]);
      RowOf(sheet[1..], name)
  }

  function KeeperRowOf(sheet: seq<KeeperSheetRow>, name: string): (r: Option<KeeperSheetRow>)
    ensures r.Some? <==> name in KeeperNames(sheet)
    ensures r.Some? ==> r.value in sheet && r.value.name == name
  {
    if sheet == [] then None
    else if sheet[0].name == name then Some(sheet[0])
    else
      assert KeeperNames(sheet) == [sheet[0].name] + KeeperNames(sheet[1..]);
      KeeperRowOf(sheet[1..], name)
  }

  /** One sheet name: every row of the player table with that name takes
      the match; a name not in the table changes nothing. */
  function PlayerPass(rows: seq<PlayerRow>, name: string, sheet: seq<SheetRow>, columns: seq<string>,
                      subs: Substitutions, fantasy: seq<FantasyRow>): (r: seq<PlayerRow>)
    ensures |r| == |rows|
  {
    match RowOf(sheet, name)
    case None => rows
    case Some(s) =>
      seq(|rows|, i requires 0 <= i < |rows| =>
        if rows[i].name == name then PlayerStep(rows[i], s, columns, subs, Named(fantasy, name)) else rows[i])
  }

  /** The sheet's names taken in order. */
  function PlayersPass(rows: seq<PlayerRow>, names: seq<string>, sheet: seq<SheetRow>, columns: seq<string>,
                       subs: Substitutions, fantasy: seq<FantasyRow>): (r: seq<PlayerRow>)
    ensures |r| == |rows|
    decreases |names|
  {
    if names == [] then rows
    else
      var n := |names| - 1;
      PlayerPass(PlayersPass(rows, names[..n], sheet, columns, subs, fantasy), names[n], sheet, columns, subs, fantasy)
  }

  function KeeperPass(rows: seq<KeeperRow>, name: string, sheet: seq<KeeperSheetRow>, columns: seq<string>): (r: seq<KeeperRow>)
    ensures |r| == |rows|
  {
    match KeeperRowOf(sheet, name)
    case None => rows
    case Some(s) =>
      seq(|rows|, i requires 0 <= i < |rows| => if rows[i].name == name then KeeperStep(rows[i], s, columns) else rows[i])
  }

  function KeepersPass(rows: seq<KeeperRow>, names: seq<string>, sheet: seq<KeeperSheetRow>, columns: seq<string>): (r: seq<KeeperRow>)
    ensures |r| == |rows|
    decreases |names|
  {
    if names == [] then rows
    else
      var n := |names| - 1;
      KeeperPass(KeepersPass(rows, names[..n], sheet, columns), names[n], sheet, columns)
  }

  /** Every row of the teams table named `squad` takes the match. */
  function TeamPass(rows: seq<TeamRow>, squad: string, side: Side, facts: SideFacts, gf: nat, ga: nat): (r: seq<TeamRow>)
    ensures |r| == |rows|
  {
    seq(|rows|, i requires 0 <= i < |rows| =>
      if rows[i].name == squad then TeamStep(rows[i], side, facts, gf, ga) else rows[i])
  }

  function Lookup<T>(m: map<string, seq<T>>, key: string): seq<T>
  {
    if key in m then m[key] else []
  }

  /** Two rows of a player table carry the name. */
  predicate Twice(rows: seq<PlayerRow>, name: string) {
    exists i, j :: 0 <= i < j < |rows| && rows[i].name == name && rows[j].name == name
  }

  predicate KeeperTwice(rows: seq<KeeperRow>, name: string) {
    exists i, j :: 0 <= i < j < |rows| && rows[i].name == name && rows[j].name == name
  }

  /** A sheet name the code cannot apply (player_data.py:366-370, 405-406):
      it matches two rows of the player table, and the update then tests a
      two-row age against 0 when the headers list "age", or reads a two-row
      value as one number when one fantasy row carries the name. */
  predicate PlayerClash(rows: seq<PlayerRow>, name: string, columns: seq<string>, fantasy: seq<FantasyRow>) {
    Twice(rows, name) && ("age" in columns || |Named(fantasy, name)| == 1)
  }

  /** The first sheet name, in the order the code visits them, that raises. */
  function FirstPlayerClash(rows: seq<PlayerRow>, names: seq<string>, columns: seq<string>,
                            fantasy: seq<FantasyRow>): (r: Option<string>)
    ensures r.None? <==> forall k :: 0 <= k < |names| ==> !PlayerClash(rows, names[k], columns, fantasy)
    ensures r.Some? ==> r.value in names && PlayerClash(rows, r.value, columns, fantasy)
    decreases |names|
  {
    if names == [] then None
    else if PlayerClash(rows, names[0], columns, fantasy) then Some(names[0])
    else
      var r := FirstPlayerClash(rows, names[1..], columns, fantasy);
      assert forall k :: 1 <= k < |names| ==> names[k] == names[1..][k - 1];
      r
  }

  /** The goalkeeper counterpart (player_data.py:428-434): a name on two
      rows of the goalkeeper table raises when the headers list "age". */
  function FirstKeeperClash(rows: seq<KeeperRow>, names: seq<string>, columns: seq<string>): (r: Option<string>)
    ensures r.None? <==> "age" !in columns || forall k :: 0 <= k < |names| ==> !KeeperTwice(rows, names[k])
    ensures r.Some? ==> r.value in names && KeeperTwice(rows, r.value)
    decreases |names|
  {
    if names == [] || "age" !in columns then None
    else if KeeperTwice(rows, names[0]) then Some(names[0])
    else
      var r := FirstKeeperClash(rows, names[1..], columns);
      assert forall k :: 1 <= k < |names| ==> names[k] == names[1..][k - 1];
      r
  }

  /** One side of a fixture applied to the tables, from a report that can
      be read. */
  function ApplyReport(ctx: Context, t: Tables, f: Fixture, side: Side, rep: Report, fantasy: seq<FantasyRow>): Tables
    requires ReportReady(rep, if side == HomeSide then f.home else f.away, ctx.schema)
    requires WellFormedScore(f.score)
  {
    var squad := if side == HomeSide then f.home else f.away;
    var sheet := rep.sheets[squad];
    var keeperSheet := rep.keeperSheets[squad];
    var hg, ag := DigitsValue(HomeText(f.score)), DigitsValue(AwayText(f.score));
    var gf, ga := if side == HomeSide then hg else ag, if side == HomeSide then ag else hg;
    Tables(
      t.players[squad := PlayersPass(Lookup(t.players, squad), Sort(SheetNames(sheet)), sheet,
        ctx.schema.columns, rep.info.substitutes[squad], fantasy)],
      t.keepers[squad := KeepersPass(Lookup(t.keepers, squad), Sort(KeeperNames(keeperSheet)), keeperSheet,
        ctx.schema.keeperColumns)],
      TeamPass(t.teams, squad, side, FactsOf(rep.info, SideIndex(f, side)), gf, ga))
  }

  /** One side of a fixture: skipped when the team is not selected, an
      error when its report cannot be read or a sheet name matches two
      rows the code cannot update together. */
  function SquadStep(ctx: Context, t: Tables, f: Fixture, side: Side, fantasy: seq<FantasyRow>): Result<Tables, Error>
  {
    var squad := if side == HomeSide then f.home else f.away;
    if squad !in ctx.teamList then Ok(t)
    else if (f.home, f.away) !in ctx.store.reports then Err(MissingReport(f.home, f.away))
    else
      var rep := ctx.store.reports[(f.home, f.away)];
      if !ReportReady(rep, squad, ctx.schema) then Err(MalformedReport(f.home, f.away))
      else if !WellFormedScore(f.score) then Err(MalformedScore(f.home, f.away))
      else
        var clash := FirstPlayerClash(Lookup(t.players, squad), Sort(SheetNames(rep.sheets[squad])),
          ctx.schema.columns, fantasy);
        var keeperClash := FirstKeeperClash(Lookup(t.keepers, squad), Sort(KeeperNames(rep.keeperSheets[squad])),
          ctx.schema.keeperColumns);
        if clash.Some? then Err(DuplicatePlayer(squad, clash.value))
        else if keeperClash.Some? then Err(DuplicatePlayer(squad, keeperClash.value))
        else Ok(ApplyReport(ctx, t, f, side, rep, fantasy))
  }

  /** A sheet name on two rows of the team's player table raises when the
      headers list "age", whatever else the report holds. */
  lemma DuplicateRosterNameRaises(ctx: Context, t: Tables, f: Fixture, side: Side, fantasy: seq<FantasyRow>,
                                  name: string)
    requires var squad := if side == HomeSide then f.home else f.away;
      squad in ctx.teamList && (f.home, f.away) in ctx.store.reports &&
      ReportReady(ctx.store.reports[(f.home, f.away)], squad, ctx.schema) && WellFormedScore(f.score) &&
      name in SheetNames(ctx.store.reports[(f.home, f.away)].sheets[squad]) &&
      "age" in ctx.schema.columns && Twice(Lookup(t.players, squad), name)
    ensures SquadStep(ctx, t, f, side, fantasy).Err?
    ensures SquadStep(ctx, t, f, side, fantasy).error.DuplicatePlayer?
  {
    var squad := if side == HomeSide then f.home else f.away;
    var names := SheetNames(ctx.store.reports[(f.home, f.away)].sheets[squad]);
    assert name in multiset(names);
    assert name in Sort(names);
  }

  /** A table whose names are distinct never raises for a duplicate. */
  lemma DistinctNamesNeverClash(rows: seq<PlayerRow>, names: seq<string>, columns: seq<string>,
                                fantasy: seq<FantasyRow>)
    requires forall i, j :: 0 <= i < j < |rows| ==> rows[i].name != rows[j].name
    ensures FirstPlayerClash(rows, names, columns, fantasy).None?
  {
  }

  // ---------------------------------------------------------------------
  // Card totals (player_data.py:580-593)

  /** The sum of a column over a player table. */
  function SumColumn(rows: seq<PlayerRow>, column: string): real
    decreases |rows|
  {
    if rows == [] then 0.0 else SumColumn(rows[..|rows| - 1], column) + Stat(rows[|rows| - 1].stats, column)
  }

  function CardsOf(players: map<string, seq<PlayerRow>>, team: string): Cards
  {
    var rows := Lookup(players, team);
    Cards(SumColumn(rows, "cards_yellow"), SumColumn(rows, "cards_red"), SumColumn(rows, "cards_yellow_red"))
  }

  /** Each team row takes the card totals of its own team's player table
      (the corrected assignment). */
  function CardTotals(t: Tables): (r: seq<TeamRow>)
    ensures |r| == |t.teams|
    ensures forall i :: 0 <= i < |r| ==> r[i] == t.teams[i].(cards := CardsOf(t.players, t.teams[i].name))
  {
    seq(|t.teams|, i requires 0 <= i < |t.teams| => t.teams[i].(cards := CardsOf(t.players, t.teams[i].name)))
  }

  /** The code's assignment: the totals are listed in team-list order and
      written row by row into the teams table, whose rows are in sorted
      order. */
  function CardTotalsAsWritten(t: Tables, teamList: seq<string>): (r: seq<TeamRow>)
    ensures |r| == |t.teams|
  {
    seq(|t.teams|, i requires 0 <= i < |t.teams| =>
      t.teams[i].(cards := if i < |teamList| then CardsOf(t.players, teamList[i]) else t.teams[i].cards))
  }

  /** Finding: with the team list ["b", "a"] the row of "a" (first in
      sorted order) receives the totals of "b". */
  lemma CardTotalsMisaligned(t: Tables, x: string, y: string)
    requires |t.teams| == 2 && t.teams[0].name == y && t.teams[1].name == x
    ensures CardTotalsAsWritten(t, [x, y])[0].cards == CardsOf(t.players, x)
    ensures CardTotals(t)[0].cards == CardsOf(t.players, y)
  {
  }

  /** When the team list is already sorted, as it is when no team option
      is given, the code's assignment is the corrected one. */
  lemma CardTotalsAgreeWhenSorted(ctx: Context, t: Tables)
    requires Sorted(ctx.teamList)
    requires |t.teams| == |ctx.teamList| && forall i :: 0 <= i < |t.teams| ==> t.teams[i].name == Sort(ctx.teamList)[i]
    ensures CardTotalsAsWritten(t, ctx.teamList) == CardTotals(t)
  {
    SortSorted(ctx.teamList);
  }

  // ---------------------------------------------------------------------
  // The fold over the fixtures (player_data.py:288-593)

  /** The key the card totals fail on (player_data.py:582-593): the first
      card column the headers lack, or, with no team selected, the empty
      totals dictionary's first key. */
  function CardColumnsMissing(ctx: Context): (r: Option<string>)
    ensures r.None? <==> ctx.teamList != [] && forall c :: c in CardColumns ==> c in ctx.schema.columns
    ensures r.Some? ==> r.value in CardColumns
  {
    if ctx.teamList == [] then Some(CardColumns[0]) else FirstMissing(ctx.schema.columns, CardColumns)
  }

  /** One fixture: the gameweek's fantasy file must exist; the home side
      then the away side are applied; the card totals are recomputed, which
      needs the card columns. */
  function FixtureStep(ctx: Context, t: Tables, f: Fixture): Result<Tables, Error>
  {
    if f.gameweek !in ctx.store.fantasy then Err(MissingFantasyWeek(f.gameweek))
    else
      var fantasy := Normalise(ctx.store.fantasy[f.gameweek], ctx.season.number);
      match SquadStep(ctx, t, f, HomeSide, fantasy)
      case Err(e) => Err(e)
      case Ok(t1) =>
        match SquadStep(ctx, t1, f, AwaySide, fantasy)
        case Err(e) => Err(e)
        case Ok(t2) =>
          match CardColumnsMissing(ctx)
          case Some(c) => Err(MissingStatColumn(c))
          case None => Ok(t2.(teams := CardTotals(t2)))
  }

  /** A fixture that goes through had the card columns to sum, and at
      least one team selected. */
  lemma FixtureStepNeedsCardColumns(ctx: Context, t: Tables, f: Fixture)
    requires FixtureStep(ctx, t, f).Ok?
    ensures ctx.teamList != [] && forall c :: c in CardColumns ==> c in ctx.schema.columns
  {
  }

  /** The fixtures folded in order; the first error ends the fold. */
  function Fold(ctx: Context, t: Tables, fs: seq<Fixture>): Result<Tables, Error>
    decreases |fs|
  {
    if fs == [] then Ok(t)
    else
      match Fold(ctx, t, fs[..|fs| - 1])
      case Err(e) => Err(e)
      case Ok(t1) => FixtureStep(ctx, t1, fs[|fs| - 1])
  }

  /** Once a fixture raises, the later fixtures do not change the outcome. */
  lemma {:induction false} FoldErrorStands(ctx: Context, t: Tables, fs: seq<Fixture>, j: nat)
    requires j <= |fs| && Fold(ctx, t, fs[..j]).Err?
    ensures Fold(ctx, t, fs) == Fold(ctx, t, fs[..j])
    decreases |fs|
  {
    if j < |fs| {
      var n := |fs| - 1;
      assert fs[..n][..j] == fs[..j];
      FoldErrorStands(ctx, t, fs[..n], j);
    } else {
      assert fs[..j] == fs;
    }
  }

  // ---------------------------------------------------------------------
  // Ratios and the value clamp (player_data.py:595-627)

  /** A percentage column: the quotient with NaN (0/0) filled with 0. */
  function Ratio(numerator: real, denominator: real): (r: Num)
    ensures !r.NaN?
    ensures denominator != 0.0 ==> r == Fin(numerator / denominator)
    ensures denominator == 0.0 ==> (numerator == 0.0 <==> r == Fin(0.0))
    ensures denominator == 0.0 ==> (numerator > 0.0 <==> r == PosInf)
  {
    FillNaN(Div(Fin(numerator), Fin(denominator)))
  }

  /** The names of the eight percentage columns. */
  const RatioNames: set<string> := {
    "aerials_won_pct", "dribble_tackles_pct", "dribbles_completed_pct", "passes_pct",
    "passes_pct_medium", "passes_pct_long", "passes_received_pct", "pressure_regain_pct"}

  /** The eight percentage columns of a player's row. */
  function Ratios(stats: map<string, real>): (r: map<string, Num>)
    ensures r.Keys == RatioNames
  {
    map[
      "aerials_won_pct" := Ratio(Stat(stats, "aerials_won"), Stat(stats, "aerials_lost") + Stat(stats, "aerials_won")),
      "dribble_tackles_pct" := Ratio(Stat(stats, "dribble_tackles"), Stat(stats, "dribble_tackles") + Stat(stats, "dribbled_past")),
      "dribbles_completed_pct" := Ratio(Stat(stats, "dribbles_completed"), Stat(stats, "dribbles")),
      "passes_pct" := Ratio(Stat(stats, "passes_completed"), Stat(stats, "passes")),
      "passes_pct_medium" := Ratio(Stat(stats, "passes_completed_medium"), Stat(stats, "passes_medium")),
      "passes_pct_long" := Ratio(Stat(stats, "passes_completed_long"), Stat(stats, "passes_long")),
      "passes_received_pct" := Ratio(Stat(stats, "passes_received"), Stat(stats, "pass_targets")),
      "pressure_regain_pct" := Ratio(Stat(stats, "pressure_regains"), Stat(stats, "pressures"))]
  }

  /** A value change above 30 means no earlier value was known, and
      becomes 0. */
  function ClampChange(change: real): (r: real)
    ensures r <= 30.0
    ensures r == change || r == 0.0
    ensures change <= 30.0 ==> r == change
  {
    if change > 30.0 then 0.0 else change
  }

  /** The finishing step of one row: each percentage column is replaced by
      its ratio, so the summed per-match percentages are dropped from
      `stats`, and the value change is clamped. */
  function FinaliseRow(row: PlayerRow): PlayerRow
  {
    row.(stats := row.stats - RatioNames, ratios := Ratios(row.stats),
         market := row.market.(valueChange := ClampChange(row.market.valueChange)))
  }

  function FinaliseRows(rows: seq<PlayerRow>): (r: seq<PlayerRow>)
    ensures |r| == |rows| && forall i :: 0 <= i < |rows| ==> r[i] == FinaliseRow(rows[i])
  {
    seq(|rows|, i requires 0 <= i < |rows| => FinaliseRow(rows[i]))
  }

  function Finalise(t: Tables): Tables
  {
    t.(players := map team | team in t.players :: FinaliseRows(t.players[team]))
  }

  // ---------------------------------------------------------------------
  // data_lister

  /** What `data_lister` returns: the tables and the fixtures folded. */
  datatype Data = Data(tables: Tables, playedFixtures: seq<Fixture>)

  /** The whole call: the option pass, the fold from the zero-filled tables,
      then the finishing pass, which needs the ratio columns whenever a team
      is selected; the first error ends the call. */
  function DataListerSpec(season: Season, schema: Schema, store: Store, options: seq<FilterOption>): Result<Data, Error>
  {
    match Select(season, options)
    case Err(e) => Err(e)
    case Ok(sel) =>
      var ctx := Context(season, schema, sel.teamList, store);
      match Fold(ctx, InitialTables(ctx), sel.fixtures)
      case Err(e) => Err(e)
      case Ok(t) =>
        if sel.teamList != [] && FirstMissing(schema.columns, RatioColumns).Some? then
          Err(MissingStatColumn(FirstMissing(schema.columns, RatioColumns).value))
        else Ok(Data(Finalise(t), sel.fixtures))
  }

  /** A successful call is a successful selection, a successful fold from
      the zero-filled tables and the finishing pass. */
  lemma DataListerSpecParts(season: Season, schema: Schema, store: Store, options: seq<FilterOption>)
    returns (sel: Selection, ctx: Context, t: Tables)
    requires DataListerSpec(season, schema, store, options).Ok?
    ensures Select(season, options) == Ok(sel)
    ensures ctx == Context(season, schema, sel.teamList, store)
    ensures Fold(ctx, InitialTables(ctx), sel.fixtures) == Ok(t)
    ensures DataListerSpec(season, schema, store, options) == Ok(Data(Finalise(t), sel.fixtures))
  {
    sel := Select(season, options).value;
    ctx := Context(season, schema, sel.teamList, store);
    t := Fold(ctx, InitialTables(ctx), sel.fixtures).value;
  }

  /** A successful call had every column it reads: the ratio columns when a
      team is selected, and the card columns when a fixture was folded. */
  lemma {:induction false} DataListerSpecNeedsColumns(season: Season, schema: Schema, store: Store,
                                                      options: seq<FilterOption>)
    requires DataListerSpec(season, schema, store, options).Ok?
    ensures var sel := Select(season, options).value;
      (sel.teamList != [] ==> forall c :: c in RatioColumns ==> c in schema.columns) &&
      (sel.fixtures != [] ==> forall c :: c in CardColumns ==> c in schema.columns)
  {
    var sel, ctx, t := DataListerSpecParts(season, schema, store, options);
    var fs := sel.fixtures;
    if fs != [] {
      var n := |fs| - 1;
      var t0 := InitialTables(ctx);
      assert Fold(ctx, t0, fs) == match Fold(ctx, t0, fs[..n])
        case Err(e) => Err(e)
        case Ok(t1) => FixtureStep(ctx, t1, fs[n]);
      FixtureStepNeedsCardColumns(ctx, Fold(ctx, t0, fs[..n]).value, fs[n]);
    }
  }

  /** Without one of the ratio columns a call with a team selected raises
      once the fold has gone through. */
  lemma RatioColumnRequired(season: Season, schema: Schema, store: Store, options: seq<FilterOption>, c: string)
    requires Select(season, options).Ok? && Select(season, options).value.teamList != []
    requires c in RatioColumns && c !in schema.columns
    ensures var sel := Select(season, options).value;
      var ctx := Context(season, schema, sel.teamList, store);
      Fold(ctx, InitialTables(ctx), sel.fixtures).Ok? ==>
        DataListerSpec(season, schema, store, options).Err? &&
        DataListerSpec(season, schema, store, options).error.MissingStatColumn? &&
        DataListerSpec(season, schema, store, options).error.column in RatioColumns
  {
  }
}
