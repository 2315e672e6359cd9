/** The loops of `data_lister` (player_data.py:134-627): the tables are an
    object whose fields the fixture loop updates in place, team by team,
    sheet row by sheet row. Every method is proved to compute what the
    functions of the Aggregation module say, so the team rows follow the
    corrected result rule (scores compared as numbers, the away clean sheet
    counted on goals conceded) and the card totals are assigned by team
    name, where the code as written does neither. */
module Lister {
  import opened Basics
  import opened Text
  import opened Fixtures
  import opened Rows
  import opened Aggregation

  /** The `data` dictionary while the fixtures are folded into it. */
  class SeasonTables {
    const ctx: Context
    var players: map<string, seq<PlayerRow>>
    var keepers: map<string, seq<KeeperRow>>
    var teams: seq<TeamRow>

    function Contents(): Tables
      reads this
    {
      Tables(players, keepers, teams)
    }

    /** The zero-filled tables of the selected teams (player_data.py:225-278). */
    constructor(ctx: Context)
      ensures this.ctx == ctx && Contents() == InitialTables(ctx)
    {
      var ps := PlayerTables(ctx);
      var ks := KeeperTables(ctx);
      this.ctx := ctx;
      players := ps;
      keepers := ks;
      teams := InitialTeams(ctx.teamList);
    }

    /** One zero-filled player table per selected team, team by team. */
    static method PlayerTables(ctx: Context) returns (ps: map<string, seq<PlayerRow>>)
      ensures ps == InitialTables(ctx).players
    {
      ps := map[];
      for i := 0 to |ctx.teamList|
        invariant ps.Keys == set t | t in ctx.teamList[..i]
        invariant forall t :: t in ps ==> ps[t] == InitialPlayers(RosterOf(ctx.season, t), ctx.schema.columns)
      {
        var team := ctx.teamList[i];
        assert ctx.teamList[..i + 1] == ctx.teamList[..i] + [team];
        ps := ps[team := InitialPlayers(RosterOf(ctx.season, team), ctx.schema.columns)];
      }
      assert ctx.teamList[..|ctx.teamList|] == ctx.teamList;
    }

    /** One zero-filled goalkeeper table per selected team. */
    static method KeeperTables(ctx: Context) returns (ks: map<string, seq<KeeperRow>>)
      ensures ks == InitialTables(ctx).keepers
    {
      ks := map[];
      for i := 0 to |ctx.teamList|
        invariant ks.Keys == set t | t in ctx.teamList[..i]
        invariant forall t :: t in ks ==> ks[t] == InitialKeepers(RosterOf(ctx.season, t), ctx.schema.keeperColumns)
      {
        var team := ctx.teamList[i];
        assert ctx.teamList[..i + 1] == ctx.teamList[..i] + [team];
        ks := ks[team := InitialKeepers(RosterOf(ctx.season, team), ctx.schema.keeperColumns)];
      }
      assert ctx.teamList[..|ctx.teamList|] == ctx.teamList;
    }

    /** A team's outfield sheet applied name by name, in sorted order, to
        the rows of its player table (player_data.py:331-410). */
    method PlayerSheet(squad: string, sheet: seq<SheetRow>, subs: Substitutions, fantasy: seq<FantasyRow>)
      modifies this
      ensures players == old(players)[squad := PlayersPass(Lookup(old(players), squad), Sort(SheetNames(sheet)),
        sheet, ctx.schema.columns, subs, fantasy)]
      ensures keepers == old(keepers) && teams == old(teams)
    {
      var start := Lookup(players, squad);
      var names := Sort(SheetNames(sheet));
      var rows := start;
      for j := 0 to |names|
        invariant rows == PlayersPass(start, names[..j], sheet, ctx.schema.columns, subs, fantasy)
        invariant Contents() == old(Contents())
      {
        assert names[..j + 1][..j] == names[..j];
        rows := PlayerRows(rows, names[j], sheet, subs, fantasy);
      }
      assert names[..|names|] == names;
      players := players[squad := rows];
    }

    /** One sheet name: every row of the table carrying it takes the match. */
    method PlayerRows(rows: seq<PlayerRow>, name: string, sheet: seq<SheetRow>, subs: Substitutions,
                      fantasy: seq<FantasyRow>) returns (r: seq<PlayerRow>)
      ensures r == PlayerPass(rows, name, sheet, ctx.schema.columns, subs, fantasy)
    {
      r := rows;
      match RowOf(sheet, name)
      case None =>
      case Some(s) =>
        var matches := Named(fantasy, name);
        for i := 0 to |rows|
          invariant |r| == |rows|
          invariant forall k :: 0 <= k < |rows| ==>
            r[k] == if k < i && rows[k].name == name then PlayerStep(rows[k], s, ctx.schema.columns, subs, matches) else rows[k]
        {
          if rows[i].name == name {
            var updated := StepPlayer(rows[i], s, ctx.schema.columns, subs, matches);
            r := r[i := updated];
          }
        }
    }

    /** A team's goalkeeper sheet applied name by name, in sorted order
        (player_data.py:412-436). */
    method KeeperSheet(squad: string, sheet: seq<KeeperSheetRow>)
      modifies this
      ensures keepers == old(keepers)[squad := KeepersPass(Lookup(old(keepers), squad), Sort(KeeperNames(sheet)),
        sheet, ctx.schema.keeperColumns)]
      ensures players == old(players) && teams == old(teams)
    {
      var start := Lookup(keepers, squad);
      var names := Sort(KeeperNames(sheet));
      var rows := start;
      for j := 0 to |names|
        invariant rows == KeepersPass(start, names[..j], sheet, ctx.schema.keeperColumns)
        invariant Contents() == old(Contents())
      {
        assert names[..j + 1][..j] == names[..j];
        rows := KeeperRows(rows, names[j], sheet);
      }
      assert names[..|names|] == names;
      keepers := keepers[squad := rows];
    }

    method KeeperRows(rows: seq<KeeperRow>, name: string, sheet: seq<KeeperSheetRow>) returns (r: seq<KeeperRow>)
      ensures r == KeeperPass(rows, name, sheet, ctx.schema.keeperColumns)
    {
      r := rows;
      match KeeperRowOf(sheet, name)
      case None =>
      case Some(s) =>
        for i := 0 to |rows|
          invariant |r| == |rows|
          invariant forall k :: 0 <= k < |rows| ==>
            r[k] == if k < i && rows[k].name == name then KeeperStep(rows[k], s, ctx.schema.keeperColumns) else rows[k]
        {
          if rows[i].name == name {
            var updated := StepKeeper(rows[i], s, ctx.schema.keeperColumns);
            r := r[i := updated];
          }
        }
    }

    /** The team's rows of the teams table take the match
        (player_data.py:438-578). */
    method TeamRows(squad: string, side: Side, facts: SideFacts, gf: nat, ga: nat)
      modifies this
      ensures teams == TeamPass(old(teams), squad, side, facts, gf, ga)
      ensures players == old(players) && keepers == old(keepers)
    {
      var rows := teams;
      for i := 0 to |teams|
        invariant Contents() == old(Contents())
        invariant |rows| == |teams|
        invariant forall k :: 0 <= k < |teams| ==>
          rows[k] == if k < i && teams[k].name == squad then TeamStep(teams[k], side, facts, gf, ga) else teams[k]
      {
        if teams[i].name == squad {
          rows := rows[i := TeamStep(teams[i], side, facts, gf, ga)];
        }
      }
      teams := rows;
    }

    /** One side of a fixture (player_data.py:318-578); on an error the
        tables are left to be discarded. */
    method FoldSide(f: Fixture, side: Side, fantasy: seq<FantasyRow>) returns (err: Option<Error>)
      modifies this
      ensures match SquadStep(ctx, old(Contents()), f, side, fantasy)
        case Ok(t) => err.None? && Contents() == t
        case Err(e) => err == Some(e)
    {
      var squad := if side == HomeSide then f.home else f.away;
      if squad !in ctx.teamList {
        return None;
      }
      if (f.home, f.away) !in ctx.store.reports {
        return Some(MissingReport(f.home, f.away));
      }
      var rep := ctx.store.reports[(f.home, f.away)];
      if !ReportReady(rep, squad, ctx.schema) {
        return Some(MalformedReport(f.home, f.away));
      }
      if !WellFormedScore(f.score) {
        return Some(MalformedScore(f.home, f.away));
      }
      var clash := FirstPlayerClash(Lookup(players, squad), Sort(SheetNames(rep.sheets[squad])),
        ctx.schema.columns, fantasy);
      if clash.Some? {
        return Some(DuplicatePlayer(squad, clash.value));
      }
      var keeperClash := FirstKeeperClash(Lookup(keepers, squad), Sort(KeeperNames(rep.keeperSheets[squad])),
        ctx.schema.keeperColumns);
      if keeperClash.Some? {
        return Some(DuplicatePlayer(squad, keeperClash.value));
      }
      PlayerSheet(squad, rep.sheets[squad], rep.info.substitutes[squad], fantasy);
      KeeperSheet(squad, rep.keeperSheets[squad]);
      var hg, ag := DigitsValue(HomeText(f.score)), DigitsValue(AwayText(f.score));
      var gf, ga := if side == HomeSide then hg else ag, if side == HomeSide then ag else hg;
      TeamRows(squad, side, FactsOf(rep.info, SideIndex(f, side)), gf, ga);
      err := None;
    }

    /** The sum of a column over a player table, row by row. */
    static method SumCards(rows: seq<PlayerRow>, column: string) returns (total: real)
      ensures total == SumColumn(rows, column)
    {
      total := 0.0;
      for i := 0 to |rows|
        invariant total == SumColumn(rows[..i], column)
      {
        assert rows[..i + 1][..i] == rows[..i];
        total := total + Stat(rows[i].stats, column);
      }
      assert rows[..|rows|] == rows;
    }

    /** Every team row takes the card totals of its own player table. */
    method RecomputeCards()
      modifies this
      ensures teams == CardTotals(old(Contents()))
      ensures players == old(players) && keepers == old(keepers)
    {
      var rows := teams;
      for i := 0 to |teams|
        invariant Contents() == old(Contents())
        invariant |rows| == |teams|
        invariant forall k :: 0 <= k < |teams| ==>
          rows[k] == if k < i then teams[k].(cards := CardsOf(players, teams[k].name)) else teams[k]
      {
        var own := Lookup(players, teams[i].name);
        var yellow := SumCards(own, "cards_yellow");
        var red := SumCards(own, "cards_red");
        var yellowRed := SumCards(own, "cards_yellow_red");
        rows := rows[i := teams[i].(cards := Cards(yellow, red, yellowRed))];
      }
      teams := rows;
    }

    /** One fixture (player_data.py:289-593). */
    method FoldFixture(f: Fixture) returns (err: Option<Error>)
      modifies this
      ensures match FixtureStep(ctx, old(Contents()), f)
        case Ok(t) => err.None? && Contents() == t
        case Err(e) => err == Some(e)
    {
      if f.gameweek !in ctx.store.fantasy {
        return Some(MissingFantasyWeek(f.gameweek));
      }
      var fantasy := Normalise(ctx.store.fantasy[f.gameweek], ctx.season.number);
      err := FoldSide(f, HomeSide, fantasy);
      if err.Some? {
        return;
      }
      err := FoldSide(f, AwaySide, fantasy);
      if err.Some? {
        return;
      }
      var missing := CardColumnsMissing(ctx);
      if missing.Some? {
        return Some(MissingStatColumn(missing.value));
      }
      RecomputeCards();
    }

    /** The ratios and the value clamp (player_data.py:595-625), team by team. */
    method Finish()
      modifies this
      ensures Contents() == Aggregation.Finalise(old(Contents()))
    {
      var todo := players.Keys;
      var done: map<string, seq<PlayerRow>> := map[];
      while todo != {}
        invariant Contents() == old(Contents())
        invariant todo <= players.Keys
        invariant done.Keys == players.Keys - todo
        invariant forall k :: k in done ==> done[k] == FinaliseRows(players[k])
        decreases todo
      {
        var team :| team in todo;
        done := done[team := FinaliseRows(players[team])];
        todo := todo - {team};
      }
      assert done == map team | team in players :: FinaliseRows(players[team]);
      players := done;
    }
  }

  lemma FoldNext(ctx: Context, t: Tables, fs: seq<Fixture>, i: nat)
    requires i < |fs| && Fold(ctx, t, fs[..i]).Ok?
    ensures Fold(ctx, t, fs[..i + 1]) == FixtureStep(ctx, Fold(ctx, t, fs[..i]).value, fs[i])
  {
    assert fs[..i + 1][..i] == fs[..i];
  }

  /** `data_lister`: the option pass, the zero-filled tables, the fold of
      every selected fixture and the finishing pass; the first error ends
      the call. */
  method DataLister(season: Season, schema: Schema, store: Store, options: seq<FilterOption>)
    returns (r: Result<Data, Error>)
    ensures r == DataListerSpec(season, schema, store, options)
  {
    var sel := SelectFixtures(season, options);
    if sel.Err? {
      return Err(sel.error);
    }
    var ctx := Context(season, schema, sel.value.teamList, store);
    var fs := sel.value.fixtures;
    var tables := new SeasonTables(ctx);
    ghost var t0 := tables.Contents();
    for i := 0 to |fs|
      invariant tables.ctx == ctx
      invariant Fold(ctx, t0, fs[..i]) == Ok(tables.Contents())
    {
      FoldNext(ctx, t0, fs, i);
      var err := tables.FoldFixture(fs[i]);
      if err.Some? {
        FoldErrorStands(ctx, t0, fs, i + 1);
        return Err(err.value);
      }
    }
    assert fs[..|fs|] == fs;
    var missing := FirstMissing(schema.columns, RatioColumns);
    if ctx.teamList != [] && missing.Some? {
      return Err(MissingStatColumn(missing.value));
    }
    tables.Finish();
    r := Ok(Data(tables.Contents(), fs));
  }
}
