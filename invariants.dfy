/** What the fold of `data_lister` keeps and guarantees: every team row
    stays consistent (results, points, splits, form), `matches_played`
    counts the fixtures the team played, the appearance counters of every
    player agree, the card totals are those of the team's own players, and
    the finished tables hold no value change above 30 and no NaN ratio. */
module Invariants {
  import opened Basics
  import opened Text
  import opened Numbers
  import opened Fixtures
  import opened Rows
  import opened Aggregation

  // ---------------------------------------------------------------------
  // Taking a fixture step apart

  /** A successful fixture step is a home step, an away step and the card
      totals. */
  lemma FixtureStepParts(ctx: Context, t: Tables, f: Fixture) returns (fantasy: seq<FantasyRow>, t1: Tables, t2: Tables)
    requires FixtureStep(ctx, t, f).Ok?
    ensures SquadStep(ctx, t, f, HomeSide, fantasy) == Ok(t1)
    ensures SquadStep(ctx, t1, f, AwaySide, fantasy) == Ok(t2)
    ensures FixtureStep(ctx, t, f) == Ok(t2.(teams := CardTotals(t2)))
  {
    fantasy := Normalise(ctx.store.fantasy[f.gameweek], ctx.season.number);
    t1 := SquadStep(ctx, t, f, HomeSide, fantasy).value;
    t2 := SquadStep(ctx, t1, f, AwaySide, fantasy).value;
  }

  /** A successful side step leaves the tables alone when the team is not
      selected, and otherwise passes the match to the team's rows. */
  lemma SquadStepTeams(ctx: Context, t: Tables, f: Fixture, side: Side, fantasy: seq<FantasyRow>)
    returns (facts: SideFacts, gf: nat, ga: nat)
    requires SquadStep(ctx, t, f, side, fantasy).Ok?
    ensures var squad := if side == HomeSide then f.home else f.away;
      var t' := SquadStep(ctx, t, f, side, fantasy).value;
      (squad !in ctx.teamList ==> t' == t) &&
      (squad in ctx.teamList ==> t'.teams == TeamPass(t.teams, squad, side, facts, gf, ga))
  {
    var squad := if side == HomeSide then f.home else f.away;
    if squad in ctx.teamList {
      var rep := ctx.store.reports[(f.home, f.away)];
      facts := FactsOf(rep.info, SideIndex(f, side));
      var hg, ag := DigitsValue(HomeText(f.score)), DigitsValue(AwayText(f.score));
      gf := if side == HomeSide then hg else ag;
      ga := if side == HomeSide then ag else hg;
    } else {
      facts, gf, ga := SideFacts("", "", 0, 0.0), 0, 0;
    }
  }

  // ---------------------------------------------------------------------
  // Team rows stay consistent

  ghost predicate TeamsValid(rows: seq<TeamRow>) {
    forall i :: 0 <= i < |rows| ==> TeamValid(rows[i])
  }

  lemma InitialTeamsValid(teamList: seq<string>)
    ensures TeamsValid(InitialTeams(teamList))
  {
    var rows := InitialTeams(teamList);
    forall i | 0 <= i < |rows| ensures TeamValid(rows[i]) {
      InitialTeamValid(rows[i].name);
    }
  }

  /** A team pass keeps every row's name, adds one match to the rows of
      the team and keeps every row consistent. */
  lemma TeamPassEffect(rows: seq<TeamRow>, squad: string, side: Side, facts: SideFacts, gf: nat, ga: nat)
    ensures var r := TeamPass(rows, squad, side, facts, gf, ga);
      forall i :: 0 <= i < |rows| ==>
        r[i].name == rows[i].name &&
        r[i].matchesPlayed == rows[i].matchesPlayed + (if rows[i].name == squad then 1 else 0) &&
        (TeamValid(rows[i]) ==> TeamValid(r[i]))
  {
    var r := TeamPass(rows, squad, side, facts, gf, ga);
    forall i | 0 <= i < |rows|
      ensures r[i].name == rows[i].name
      ensures r[i].matchesPlayed == rows[i].matchesPlayed + (if rows[i].name == squad then 1 else 0)
      ensures TeamValid(rows[i]) ==> TeamValid(r[i])
    {
      if rows[i].name == squad && TeamValid(rows[i]) {
        TeamStepKeepsValid(rows[i], side, facts, gf, ga);
      }
    }
  }

  lemma SquadStepKeepsTeamsValid(ctx: Context, t: Tables, f: Fixture, side: Side, fantasy: seq<FantasyRow>)
    requires TeamsValid(t.teams) && SquadStep(ctx, t, f, side, fantasy).Ok?
    ensures TeamsValid(SquadStep(ctx, t, f, side, fantasy).value.teams)
  {
    var facts, gf, ga := SquadStepTeams(ctx, t, f, side, fantasy);
    var squad := if side == HomeSide then f.home else f.away;
    TeamPassEffect(t.teams, squad, side, facts, gf, ga);
  }

  lemma FixtureStepKeepsTeamsValid(ctx: Context, t: Tables, f: Fixture)
    requires TeamsValid(t.teams) && FixtureStep(ctx, t, f).Ok?
    ensures TeamsValid(FixtureStep(ctx, t, f).value.teams)
  {
    var fantasy, t1, t2 := FixtureStepParts(ctx, t, f);
    SquadStepKeepsTeamsValid(ctx, t, f, HomeSide, fantasy);
    SquadStepKeepsTeamsValid(ctx, t1, f, AwaySide, fantasy);
  }

  /** Every team row the fold returns is consistent: wins, draws and
      losses add up to the matches played, points are 3 a win and 1 a
      draw, the home and away splits add up to the totals, each form queue
      holds the last min(5, matches) results, and no manager or formation
      is listed twice. */
  lemma {:induction false} FoldKeepsTeamsValid(ctx: Context, t: Tables, fs: seq<Fixture>)
    requires TeamsValid(t.teams) && Fold(ctx, t, fs).Ok?
    ensures TeamsValid(Fold(ctx, t, fs).value.teams)
    decreases |fs|
  {
    if fs != [] {
      var n := |fs| - 1;
      FoldKeepsTeamsValid(ctx, t, fs[..n]);
      FixtureStepKeepsTeamsValid(ctx, Fold(ctx, t, fs[..n]).value, fs[n]);
    }
  }

  // ---------------------------------------------------------------------
  // matches_played counts the fixtures a team played

  /** The number of sides a team took in a list of fixtures. */
  function Involving(fs: seq<Fixture>, team: string): nat
    decreases |fs|
  {
    if fs == [] then 0
    else
      var f := fs[|fs| - 1];
      Involving(fs[..|fs| - 1], team) + (if f.home == team then 1 else 0) + (if f.away == team then 1 else 0)
  }

  /** Rows keep their names, and a selected team's row gains one match per
      side it took in the fixture. */
  ghost predicate CountsOneFixture(before: seq<TeamRow>, after: seq<TeamRow>, teamList: seq<string>, f: Fixture) {
    |after| == |before| &&
    forall i :: 0 <= i < |before| ==>
      after[i].name == before[i].name &&
      (before[i].name in teamList ==>
        after[i].matchesPlayed == before[i].matchesPlayed +
          (if f.home == before[i].name then 1 else 0) + (if f.away == before[i].name then 1 else 0))
  }

  /** A successful side step keeps the rows' names and adds one match to
      the rows of the side's team when it is selected. */
  lemma SquadStepCountsMatches(ctx: Context, t: Tables, f: Fixture, side: Side, fantasy: seq<FantasyRow>)
    requires SquadStep(ctx, t, f, side, fantasy).Ok?
    ensures var squad := if side == HomeSide then f.home else f.away;
      var r := SquadStep(ctx, t, f, side, fantasy).value.teams;
      |r| == |t.teams| &&
      forall i :: 0 <= i < |t.teams| ==>
        r[i].name == t.teams[i].name &&
        (t.teams[i].name in ctx.teamList ==>
          r[i].matchesPlayed == t.teams[i].matchesPlayed + (if squad == t.teams[i].name then 1 else 0))
  {
    var squad := if side == HomeSide then f.home else f.away;
    var facts, gf, ga := SquadStepTeams(ctx, t, f, side, fantasy);
    TeamPassEffect(t.teams, squad, side, facts, gf, ga);
  }

  lemma FixtureStepCountsMatches(ctx: Context, t: Tables, f: Fixture)
    requires FixtureStep(ctx, t, f).Ok?
    ensures CountsOneFixture(t.teams, FixtureStep(ctx, t, f).value.teams, ctx.teamList, f)
  {
    var fantasy, t1, t2 := FixtureStepParts(ctx, t, f);
    SquadStepCountsMatches(ctx, t, f, HomeSide, fantasy);
    SquadStepCountsMatches(ctx, t1, f, AwaySide, fantasy);
    var r := FixtureStep(ctx, t, f).value.teams;
    assert r == CardTotals(t2);
    forall i | 0 <= i < |t.teams|
      ensures r[i].name == t.teams[i].name
      ensures t.teams[i].name in ctx.teamList ==>
        r[i].matchesPlayed == t.teams[i].matchesPlayed +
          (if f.home == t.teams[i].name then 1 else 0) + (if f.away == t.teams[i].name then 1 else 0)
    {
      assert r[i].name == t2.teams[i].name && r[i].matchesPlayed == t2.teams[i].matchesPlayed;
    }
  }

  /** After the fold, the row of every selected team has gained exactly one
      match per side the team took in the folded fixtures. */
  lemma {:induction false} FoldCountsMatches(ctx: Context, t: Tables, fs: seq<Fixture>)
    requires Fold(ctx, t, fs).Ok?
    ensures var r := Fold(ctx, t, fs).value.teams;
      |r| == |t.teams| &&
      forall i :: 0 <= i < |t.teams| ==>
        r[i].name == t.teams[i].name &&
        (t.teams[i].name in ctx.teamList ==>
          r[i].matchesPlayed == t.teams[i].matchesPlayed + Involving(fs, t.teams[i].name))
    decreases |fs|
  {
    if fs != [] {
      var n := |fs| - 1;
      FoldCountsMatches(ctx, t, fs[..n]);
      FixtureStepCountsMatches(ctx, Fold(ctx, t, fs[..n]).value, fs[n]);
    }
  }

  // ---------------------------------------------------------------------
  // Appearance counters of the players agree

  ghost predicate PlayersValid(players: map<string, seq<PlayerRow>>, k: nat) {
    forall team, i :: team in players && 0 <= i < |players[team]| ==> PlayerValid(players[team][i].apps, k)
  }

  ghost predicate RowsValid(rows: seq<PlayerRow>, k: nat) {
    forall i :: 0 <= i < |rows| ==> PlayerValid(rows[i].apps, k)
  }

  lemma PlayerPassKeepsValid(rows: seq<PlayerRow>, name: string, sheet: seq<SheetRow>, columns: seq<string>,
                             subs: Substitutions, fantasy: seq<FantasyRow>)
    requires RowsValid(rows, Occurrences(columns, "minutes"))
    ensures RowsValid(PlayerPass(rows, name, sheet, columns, subs, fantasy), Occurrences(columns, "minutes"))
  {
    var r := PlayerPass(rows, name, sheet, columns, subs, fantasy);
    match RowOf(sheet, name)
    case None =>
    case Some(s) =>
      forall i | 0 <= i < |rows| ensures PlayerValid(r[i].apps, Occurrences(columns, "minutes")) {
        if rows[i].name == name {
          PlayerStepKeepsValid(rows[i], s, columns, subs, Named(fantasy, name));
        }
      }
  }

  lemma {:induction false} PlayersPassKeepsValid(rows: seq<PlayerRow>, names: seq<string>, sheet: seq<SheetRow>,
                                                 columns: seq<string>, subs: Substitutions, fantasy: seq<FantasyRow>)
    requires RowsValid(rows, Occurrences(columns, "minutes"))
    ensures RowsValid(PlayersPass(rows, names, sheet, columns, subs, fantasy), Occurrences(columns, "minutes"))
    decreases |names|
  {
    if names != [] {
      var n := |names| - 1;
      PlayersPassKeepsValid(rows, names[..n], sheet, columns, subs, fantasy);
      PlayerPassKeepsValid(PlayersPass(rows, names[..n], sheet, columns, subs, fantasy), names[n], sheet, columns, subs, fantasy);
    }
  }

  lemma SquadStepKeepsPlayersValid(ctx: Context, t: Tables, f: Fixture, side: Side, fantasy: seq<FantasyRow>)
    requires PlayersValid(t.players, Occurrences(ctx.schema.columns, "minutes"))
    requires SquadStep(ctx, t, f, side, fantasy).Ok?
    ensures PlayersValid(SquadStep(ctx, t, f, side, fantasy).value.players, Occurrences(ctx.schema.columns, "minutes"))
  {
    var squad := if side == HomeSide then f.home else f.away;
    var k := Occurrences(ctx.schema.columns, "minutes");
    if squad in ctx.teamList {
      var rep := ctx.store.reports[(f.home, f.away)];
      var sheet := rep.sheets[squad];
      var rows := Lookup(t.players, squad);
      assert RowsValid(rows, k);
      PlayersPassKeepsValid(rows, Sort(SheetNames(sheet)), sheet, ctx.schema.columns, rep.info.substitutes[squad], fantasy);
    }
  }

  lemma FixtureStepKeepsPlayersValid(ctx: Context, t: Tables, f: Fixture)
    requires PlayersValid(t.players, Occurrences(ctx.schema.columns, "minutes")) && FixtureStep(ctx, t, f).Ok?
    ensures PlayersValid(FixtureStep(ctx, t, f).value.players, Occurrences(ctx.schema.columns, "minutes"))
  {
    var fantasy, t1, t2 := FixtureStepParts(ctx, t, f);
    SquadStepKeepsPlayersValid(ctx, t, f, HomeSide, fantasy);
    SquadStepKeepsPlayersValid(ctx, t1, f, AwaySide, fantasy);
  }

  lemma InitialPlayersValid(ctx: Context)
    ensures PlayersValid(InitialTables(ctx).players, Occurrences(ctx.schema.columns, "minutes"))
  {
  }

  /** For every player of every selected team, starts and appearances off
      the bench together are k times the matches (k being the number of
      "minutes" columns of the header), and substitutions off and matches
      of more than 60 minutes never exceed that. */
  lemma {:induction false} FoldKeepsPlayersValid(ctx: Context, t: Tables, fs: seq<Fixture>)
    requires PlayersValid(t.players, Occurrences(ctx.schema.columns, "minutes")) && Fold(ctx, t, fs).Ok?
    ensures PlayersValid(Fold(ctx, t, fs).value.players, Occurrences(ctx.schema.columns, "minutes"))
    decreases |fs|
  {
    if fs != [] {
      var n := |fs| - 1;
      FoldKeepsPlayersValid(ctx, t, fs[..n]);
      FixtureStepKeepsPlayersValid(ctx, Fold(ctx, t, fs[..n]).value, fs[n]);
    }
  }

  // ---------------------------------------------------------------------
  // Card totals

  ghost predicate CardsMatch(t: Tables) {
    forall i :: 0 <= i < |t.teams| ==> t.teams[i].cards == CardsOf(t.players, t.teams[i].name)
  }

  /** Once a fixture has been folded, every team row carries the card
      totals of its own team's player table. */
  lemma {:induction false} FoldCardsMatch(ctx: Context, t: Tables, fs: seq<Fixture>)
    requires fs != [] && Fold(ctx, t, fs).Ok?
    ensures CardsMatch(Fold(ctx, t, fs).value)
  {
    var n := |fs| - 1;
    var fantasy, t1, t2 := FixtureStepParts(ctx, Fold(ctx, t, fs[..n]).value, fs[n]);
  }

  // ---------------------------------------------------------------------
  // The finished tables

  /** A finished row: the value change is at most 30, the eight
      percentage columns are present and none is NaN, and no percentage
      column keeps its summed value beside the ratio. */
  ghost predicate FinishedRow(row: PlayerRow) {
    (forall c :: c in row.ratios ==> c !in row.stats) &&
    row.market.valueChange <= 30.0 &&
    "aerials_won_pct" in row.ratios && "dribble_tackles_pct" in row.ratios &&
    "dribbles_completed_pct" in row.ratios && "passes_pct" in row.ratios &&
    "passes_pct_medium" in row.ratios && "passes_pct_long" in row.ratios &&
    "passes_received_pct" in row.ratios && "pressure_regain_pct" in row.ratios &&
    forall c :: c in row.ratios ==> !row.ratios[c].NaN?
  }

  lemma FinaliseRowFinished(row: PlayerRow)
    ensures FinishedRow(FinaliseRow(row))
    ensures forall c :: c in row.stats && c !in FinaliseRow(row).ratios ==>
      c in FinaliseRow(row).stats && FinaliseRow(row).stats[c] == row.stats[c]
  {
    var m := Ratios(row.stats);
    forall c | c in m ensures !m[c].NaN? {
    }
  }

  /** After finalisation no player's value change is above 30, and every
      player carries the eight percentage columns, none of them NaN. */
  lemma FinaliseBounds(t: Tables)
    ensures var p := Finalise(t).players;
      forall team, i :: team in p && 0 <= i < |p[team]| ==> FinishedRow(p[team][i])
  {
    var p := Finalise(t).players;
    forall team, i | team in p && 0 <= i < |p[team]| ensures FinishedRow(p[team][i]) {
      FinaliseRowFinished(t.players[team][i]);
    }
  }

  /** A share of two non-negative counts, such as aerials won over aerials
      won and lost, lies between 0 and 1. */
  lemma ShareBounded(part: real, rest: real)
    requires part >= 0.0 && rest >= 0.0
    ensures Ratio(part, part + rest).Fin?
    ensures 0.0 <= Ratio(part, part + rest).v <= 1.0
  {
    if part + rest != 0.0 {
      assert part / (part + rest) <= 1.0;
    }
  }

  // ---------------------------------------------------------------------
  // data_lister as a whole

  /** A successful call returns one team row per selected team (sorted),
      each consistent and with one match per side played in the returned
      fixtures. */
  lemma DataListerTeams(season: Season, schema: Schema, store: Store, options: seq<FilterOption>)
    requires DataListerSpec(season, schema, store, options).Ok?
    ensures var d := DataListerSpec(season, schema, store, options).value;
      var sel := Select(season, options).value;
      TeamsValid(d.tables.teams) && |d.tables.teams| == |sel.teamList| &&
      forall i :: 0 <= i < |d.tables.teams| ==>
        d.tables.teams[i].name == Sort(sel.teamList)[i] &&
        d.tables.teams[i].matchesPlayed == Involving(d.playedFixtures, d.tables.teams[i].name)
  {
    var sel, ctx, t := DataListerSpecParts(season, schema, store, options);
    var t0 := InitialTables(ctx);
    var names := Sort(sel.teamList);
    assert Finalise(t).teams == t.teams;
    InitialTeamsValid(sel.teamList);
    FoldKeepsTeamsValid(ctx, t0, sel.fixtures);
    FoldCountsMatches(ctx, t0, sel.fixtures);
    forall i | 0 <= i < |t.teams|
      ensures t.teams[i].name == names[i]
      ensures t.teams[i].matchesPlayed == Involving(sel.fixtures, t.teams[i].name)
    {
      assert t0.teams[i] == InitialTeam(names[i]);
      assert names[i] in multiset(names);
    }
  }
}
