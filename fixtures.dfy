/** The season's fixture list and the option filters of `data_lister`
    (player_data.py:134-223): option keys are validated, the played
    fixtures are narrowed one option at a time, and the list of teams the
    tables are built for is collected. */
module Fixtures {
  import opened Basics
  import opened Text

  /** A row of the scores-and-fixtures table. A fixture not yet played has
      no date, score or match report; dates are day numbers. */
  datatype RawFixture = RawFixture(
    gameweek: int, date: Option<int>, home: string, away: string,
    score: Option<string>, report: Option<string>)

  /** A played fixture: every column is present. */
  datatype Fixture = Fixture(gameweek: int, date: int, home: string, away: string, score: string)

  /** The roster of one team: outfield players and goalkeepers. */
  datatype Squad = Squad(outfield: seq<string>, goalkeepers: seq<string>)

  /** What `PlayerData` loads for a season: its number (17 for 2017/18),
      its fixtures, and its roster keyed by team, with `teams` listing the
      roster's keys in file order. */
  datatype Season = Season(number: int, fixtures: seq<RawFixture>, roster: map<string, Squad>, teams: seq<string>)

  /** The roster file's shape: `teams` lists every team once, and within a
      team no player is listed twice. */
  ghost predicate ValidSeason(s: Season) {
    NoDuplicates(s.teams) && (forall t :: t in s.roster <==> t in s.teams) &&
    forall t :: t in s.roster ==>
      NoDuplicates(s.roster[t].outfield + s.roster[t].goalkeepers) &&
      NoDuplicates(s.roster[t].goalkeepers)
  }

  /** One keyword option of `data_lister`, its value already wrapped in a
      list as the code does for a single string or integer. */
  datatype FilterOption =
    | Home(teams: seq<string>)
    | Away(teams: seq<string>)
    | Team(teams: seq<string>)
    | DateRange(days: seq<int>)
    | MatchRange(rows: seq<int>)
    | GameweekRange(weeks: seq<int>)
    | Unknown(key: string)

  /** Every way `data_lister` and the fold it drives can raise. */
  datatype Error =
    | InvalidOption(key: string)
    | InvalidTeam(name: string)
    | TooManyBounds
    | MissingBound
    | DateRangeNotValid
    | NoFixtures
    | MissingFantasyWeek(gameweek: int)
    | MissingReport(home: string, away: string)
    | MalformedReport(home: string, away: string)
    | MalformedScore(home: string, away: string)
    | MissingStatColumn(column: string)
    | DuplicatePlayer(team: string, name: string)

  /** `self.fixtures.dropna()`: the fixtures with a date, a score and a
      match report, in table order. */
  function Played(raw: seq<RawFixture>): (fs: seq<Fixture>)
    ensures |fs| <= |raw|
    decreases |raw|
  {
    if raw == [] then []
    else
      var r := raw[0];
      var rest := Played(raw[1..]);
      if r.date.Some? && r.score.Some? && r.report.Some?
      then [Fixture(r.gameweek, r.date.value, r.home, r.away, r.score.value)] + rest
      else rest
  }

  /** Raw row `r` is the played fixture `f` with its report link present. */
  predicate PlayedAs(r: RawFixture, f: Fixture) {
    r.gameweek == f.gameweek && r.date == Some(f.date) && r.home == f.home &&
    r.away == f.away && r.score == Some(f.score) && r.report.Some?
  }

  /** dropna keeps exactly the rows that have a date, a score and a report. */
  lemma {:induction false} PlayedMembership(raw: seq<RawFixture>, f: Fixture)
    ensures f in Played(raw) <==> exists r :: r in raw && PlayedAs(r, f)
    decreases |raw|
  {
    if raw != [] {
      PlayedMembership(raw[1..], f);
      var r := raw[0];
      assert raw == [r] + raw[1..];
      assert (exists x :: x in raw && PlayedAs(x, f)) <==>
        PlayedAs(r, f) || exists x :: x in raw[1..] && PlayedAs(x, f);
      if r.date.Some? && r.score.Some? && r.report.Some? {
        var g := Fixture(r.gameweek, r.date.value, r.home, r.away, r.score.value);
        assert Played(raw) == [g] + Played(raw[1..]);
        assert PlayedAs(r, f) <==> f == g;
      }
    }
  }

  // ---------------------------------------------------------------------
  // Filtering

  /** The fixtures that `keep` accepts, in order (a boolean mask). */
  function Filter(fs: seq<Fixture>, keep: Fixture -> bool): (r: seq<Fixture>)
    ensures |r| <= |fs|
    ensures forall f :: f in r <==> f in fs && keep(f)
    decreases |fs|
  {
    if fs == [] then []
    else (if keep(fs[0]) then [fs[0]] else []) + Filter(fs[1..], keep)
  }

  /** A mask applied after another keeps what both accept. */
  lemma {:induction false} FilterFilter(fs: seq<Fixture>, p: Fixture -> bool, q: Fixture -> bool)
    ensures Filter(Filter(fs, p), q) == Filter(fs, (f: Fixture) => p(f) && q(f))
    decreases |fs|
  {
    if fs != [] {
      var pq := (f: Fixture) => p(f) && q(f);
      FilterFilter(fs[1..], p, q);
      assert Filter(fs, pq) == (if pq(fs[0]) then [fs[0]] else []) + Filter(fs[1..], pq);
      if p(fs[0]) {
        var fp := Filter(fs, p);
        assert fp == [fs[0]] + Filter(fs[1..], p);
        assert fp[1..] == Filter(fs[1..], p);
        assert Filter(fp, q) == (if q(fs[0]) then [fs[0]] else []) + Filter(fp[1..], q);
      } else {
        assert Filter(fs, p) == Filter(fs[1..], p);
      }
    }
  }

  /** `lo` clamped into `[min, max]`. */
  function Clamp(x: int, min: int, max: int): (r: int)
    requires min <= max
    ensures min <= r <= max
    ensures min <= x <= max ==> r == x
  {
    if x < min then min else if x > max then max else x
  }

  /** `reset_index().loc[lo:hi - 1]`: the rows whose fresh position p has
      lo <= p < hi. */
  function Window(fs: seq<Fixture>, lo: int, hi: int): (r: seq<Fixture>)
    ensures |r| <= |fs|
  {
    var l := Clamp(lo, 0, |fs|);
    var h := Clamp(hi, l, |fs|);
    fs[l..h]
  }

  /** The window keeps exactly the rows at positions in `[lo, hi)`, in order. */
  lemma WindowPositions(fs: seq<Fixture>, lo: int, hi: int)
    ensures var r := Window(fs, lo, hi);
      var first := if lo < 0 then 0 else lo;
      (forall k :: 0 <= k < |r| ==> first + k < hi && first + k < |fs| && r[k] == fs[first + k]) &&
      (forall p :: 0 <= p < |fs| && lo <= p < hi ==> p - first < |r| && r[p - first] == fs[p])
  {
  }

  /** The first name of `names` that is not a team of the roster. */
  function FirstInvalidTeam(names: seq<string>, roster: map<string, Squad>): (r: Option<string>)
    ensures r.Some? <==> exists n :: n in names && n !in roster
    ensures r.Some? ==> r.value in names && r.value !in roster
    decreases |names|
  {
    if names == [] then None
    else if names[0] !in roster then Some(names[0])
    else FirstInvalidTeam(names[1..], roster)
  }

  /** The names an option adds to the team list. */
  function TeamsOf(o: FilterOption): seq<string>
  {
    if o.Home? || o.Away? || o.Team? then o.teams else []
  }

  /** One option applied to the current fixture list: the narrowed list,
      or the exception the option raises. */
  function ApplyOption(fs: seq<Fixture>, o: FilterOption, roster: map<string, Squad>): (r: Result<seq<Fixture>, Error>)
    ensures r.Ok? ==> |r.value| <= |fs|
  {
    match o
    case Home(ts) =>
      if FirstInvalidTeam(ts, roster).Some? then Err(InvalidTeam(FirstInvalidTeam(ts, roster).value))
      else Ok(Filter(fs, (f: Fixture) => f.home in ts))
    case Away(ts) =>
      if FirstInvalidTeam(ts, roster).Some? then Err(InvalidTeam(FirstInvalidTeam(ts, roster).value))
      else Ok(Filter(fs, (f: Fixture) => f.away in ts))
    case Team(ts) =>
      if FirstInvalidTeam(ts, roster).Some? then Err(InvalidTeam(FirstInvalidTeam(ts, roster).value))
      else Ok(Filter(fs, (f: Fixture) => f.home in ts || f.away in ts))
    case DateRange(ds) =>
      // two bounds combine two Series with Python's `and`, which raises
      if |ds| > 2 then Err(TooManyBounds)
      else if |ds| == 1 then Ok(Filter(fs, (f: Fixture) => f.date < ds[0]))
      else if |ds| == 0 then Err(MissingBound)
      else Err(DateRangeNotValid)
    case MatchRange(ns) =>
      if |ns| > 2 then Err(TooManyBounds)
      else if |ns| == 1 then Ok(Window(fs, 0, ns[0]))
      else if |ns| == 0 then Err(MissingBound)
      else Ok(Window(fs, ns[0], ns[1]))
    case GameweekRange(ws) =>
      if |ws| > 2 then Err(TooManyBounds)
      else if |ws| == 1 then Ok(Filter(fs, (f: Fixture) => f.gameweek == ws[0]))
      else if |ws| == 0 then Err(MissingBound)
      else Ok(Filter(fs, (f: Fixture) => ws[0] <= f.gameweek < ws[1]))
    case Unknown(key) => Err(InvalidOption(key))
  }

  /** The result of the option pass: the fixtures to fold and the teams
      whose tables are built. */
  datatype Selection = Selection(fixtures: seq<Fixture>, teamList: seq<string>)

  /** The options applied in order; an option that leaves no fixture
      raises. Returns the list and the team names the options named. */
  function Narrow(fs: seq<Fixture>, options: seq<FilterOption>, roster: map<string, Squad>): (r: Result<Selection, Error>)
    decreases |options|
  {
    if options == [] then Ok(Selection(fs, []))
    else
      var n := |options| - 1;
      match Narrow(fs, options[..n], roster)
      case Err(e) => Err(e)
      case Ok(sel) =>
        match ApplyOption(sel.fixtures, options[n], roster)
        case Err(e) => Err(e)
        case Ok(kept) =>
          if kept == [] then Err(NoFixtures)
          else Ok(Selection(kept, sel.teamList + TeamsOf(options[n])))
  }

  /** Once an option raises, the later options do not change the outcome. */
  lemma {:induction false} NarrowErrorStands(fs: seq<Fixture>, options: seq<FilterOption>, j: nat, roster: map<string, Squad>)
    requires j <= |options| && Narrow(fs, options[..j], roster).Err?
    ensures Narrow(fs, options, roster) == Narrow(fs, options[..j], roster)
    decreases |options|
  {
    if j < |options| {
      var n := |options| - 1;
      assert options[..n][..j] == options[..j];
      NarrowErrorStands(fs, options[..n], j, roster);
    } else {
      assert options[..j] == options;
    }
  }

  /** The first option whose key is not one of the six valid ones. */
  function FirstUnknownKey(options: seq<FilterOption>): (r: Option<string>)
    ensures r.None? <==> forall k :: 0 <= k < |options| ==> !options[k].Unknown?
    decreases |options|
  {
    if options == [] then None
    else if options[0].Unknown? then Some(options[0].key)
    else FirstUnknownKey(options[1..])
  }

  /** `data_lister`'s option pass: keys are validated first, then the played
      fixtures are narrowed; with no team named, the team list is every
      team of the roster in sorted order. */
  function Select(season: Season, options: seq<FilterOption>): Result<Selection, Error>
  {
    if FirstUnknownKey(options).Some? then Err(InvalidOption(FirstUnknownKey(options).value))
    else
      match Narrow(Played(season.fixtures), options, season.roster)
      case Err(e) => Err(e)
      case Ok(sel) =>
        Ok(if sel.teamList == [] then sel.(teamList := Sort(season.teams)) else sel)
  }

  /** The option pass as the code runs it: a loop over the keys, then a
      loop that reassigns the played-fixture list option by option. */
  method SelectFixtures(season: Season, options: seq<FilterOption>) returns (r: Result<Selection, Error>)
    ensures r == Select(season, options)
  {
    var i := 0;
    while i < |options|
      invariant 0 <= i <= |options|
      invariant FirstUnknownKey(options) == FirstUnknownKey(options[i..])
    {
      if options[i].Unknown? {
        return Err(InvalidOption(options[i].key));
      }
      assert options[i..][1..] == options[i + 1..];
      i := i + 1;
    }
    var played := Played(season.fixtures);
    var teamList: seq<string> := [];
    i := 0;
    while i < |options|
      invariant 0 <= i <= |options|
      invariant Narrow(Played(season.fixtures), options[..i], season.roster) == Ok(Selection(played, teamList))
    {
      var kept := ApplyOption(played, options[i], season.roster);
      assert options[..i + 1][..i] == options[..i];
      if kept.Err? || kept.value == [] {
        NarrowErrorStands(Played(season.fixtures), options, i + 1, season.roster);
        return if kept.Err? then Err(kept.error) else Err(NoFixtures);
      }
      played := kept.value;
      teamList := teamList + TeamsOf(options[i]);
      i := i + 1;
    }
    assert options[..|options|] == options;
    if teamList == [] {
      teamList := Sort(season.teams);
    }
    r := Ok(Selection(played, teamList));
  }

  // ---------------------------------------------------------------------
  // What a successful selection guarantees

  /** What a fixture kept under option `o` satisfies. */
  predicate Satisfies(f: Fixture, o: FilterOption)
  {
    match o
    case Home(ts) => f.home in ts
    case Away(ts) => f.away in ts
    case Team(ts) => f.home in ts || f.away in ts
    case DateRange(ds) => |ds| == 1 && f.date < ds[0]
    case MatchRange(_) => true
    case GameweekRange(ws) =>
      (|ws| == 1 && f.gameweek == ws[0]) || (|ws| == 2 && ws[0] <= f.gameweek < ws[1])
    case Unknown(_) => false
  }

  /** An option that does not raise keeps fixtures of the list it narrows,
      and only ones satisfying it. */
  lemma ApplyOptionSound(fs: seq<Fixture>, o: FilterOption, roster: map<string, Squad>)
    requires ApplyOption(fs, o, roster).Ok?
    ensures forall f :: f in ApplyOption(fs, o, roster).value ==> f in fs && Satisfies(f, o)
    ensures forall n :: n in TeamsOf(o) ==> n in roster
  {
    if o.MatchRange? {
      var r := ApplyOption(fs, o, roster).value;
      forall f | f in r ensures f in fs {
        var k :| 0 <= k < |r| && r[k] == f;
        if |o.rows| == 1 { WindowPositions(fs, 0, o.rows[0]); } else { WindowPositions(fs, o.rows[0], o.rows[1]); }
      }
    }
  }

  /** A successful narrowing names only roster teams. */
  lemma {:induction false} NarrowTeamsInRoster(fs: seq<Fixture>, options: seq<FilterOption>, roster: map<string, Squad>)
    requires Narrow(fs, options, roster).Ok?
    ensures forall n :: n in Narrow(fs, options, roster).value.teamList ==> n in roster
    decreases |options|
  {
    if options != [] {
      var n := |options| - 1;
      NarrowTeamsInRoster(fs, options[..n], roster);
      var sel := Narrow(fs, options[..n], roster).value;
      ApplyOptionSound(sel.fixtures, options[n], roster);
    }
  }

  /** A successful narrowing keeps fixtures of its input that satisfy every
      option, and is not empty once an option was given. */
  lemma {:induction false} NarrowSound(fs: seq<Fixture>, options: seq<FilterOption>, roster: map<string, Squad>)
    requires Narrow(fs, options, roster).Ok?
    ensures var kept := Narrow(fs, options, roster).value.fixtures;
      (forall f :: f in kept ==> f in fs && forall k :: 0 <= k < |options| ==> Satisfies(f, options[k])) &&
      (options != [] ==> kept != [])
    decreases |options|
  {
    if options != [] {
      var n := |options| - 1;
      NarrowSound(fs, options[..n], roster);
      var sel := Narrow(fs, options[..n], roster).value;
      var kept := Narrow(fs, options, roster).value.fixtures;
      ApplyOptionSound(sel.fixtures, options[n], roster);
      forall f | f in kept ensures f in fs && forall k :: 0 <= k < |options| ==> Satisfies(f, options[k]) {
        assert f in sel.fixtures;
        forall k | 0 <= k < |options| ensures Satisfies(f, options[k]) {
          if k < n { assert options[k] == options[..n][k]; }
        }
      }
    }
  }

  /** With every key valid, the selection raises InvalidOption for the
      first unknown key before any fixture is considered. */
  lemma UnknownKeyRaisesFirst(season: Season, options: seq<FilterOption>, k: nat)
    requires k < |options| && options[k].Unknown?
    requires forall j :: 0 <= j < k ==> !options[j].Unknown?
    ensures Select(season, options) == Err(InvalidOption(options[k].key))
  {
    assert options == options[..k] + options[k..];
    FirstUnknownKeyAt(options, k);
  }

  lemma {:induction false} FirstUnknownKeyAt(options: seq<FilterOption>, k: nat)
    requires k < |options| && options[k].Unknown?
    requires forall j :: 0 <= j < k ==> !options[j].Unknown?
    ensures FirstUnknownKey(options) == Some(options[k].key)
    decreases k
  {
    if k > 0 {
      FirstUnknownKeyAt(options[1..], k - 1);
    }
  }

  /** A successful selection names only roster teams, never an empty team
      list, and folds only played fixtures satisfying every option. */
  lemma SelectSound(season: Season, options: seq<FilterOption>)
    requires ValidSeason(season) && season.teams != []
    requires Select(season, options).Ok?
    ensures var sel := Select(season, options).value;
      sel.teamList != [] &&
      (forall n :: n in sel.teamList ==> n in season.roster) &&
      (forall f :: f in sel.fixtures ==>
        f in Played(season.fixtures) && forall k :: 0 <= k < |options| ==> Satisfies(f, options[k])) &&
      (options != [] ==> sel.fixtures != [])
  {
    NarrowSound(Played(season.fixtures), options, season.roster);
    NarrowTeamsInRoster(Played(season.fixtures), options, season.roster);
    var sel := Narrow(Played(season.fixtures), options, season.roster).value;
    if sel.teamList == [] {
      var sorted := Sort(season.teams);
      assert multiset(sorted) == multiset(season.teams);
      forall n | n in sorted ensures n in season.roster {
        assert n in multiset(sorted);
      }
      assert season.teams[0] in multiset(sorted);
    }
  }

  /** `gameweek_range` [g] keeps exactly the fixtures of gameweek g, and
      [a, b] exactly those with a <= gameweek < b. */
  lemma GameweekRangeExact(fs: seq<Fixture>, ws: seq<int>, roster: map<string, Squad>, f: Fixture)
    requires 1 <= |ws| <= 2
    ensures ApplyOption(fs, GameweekRange(ws), roster).Ok?
    ensures f in ApplyOption(fs, GameweekRange(ws), roster).value <==>
      f in fs && (if |ws| == 1 then f.gameweek == ws[0] else ws[0] <= f.gameweek < ws[1])
  {
  }

  /** The label pass reads gameweek b alone while the features cover
      [a, b): no fixture is in both. */
  lemma LabelWeekOutsideFeatureWindow(fs: seq<Fixture>, a: int, b: int, roster: map<string, Squad>)
    ensures var features := ApplyOption(fs, GameweekRange([a, b]), roster).value;
      var labels := ApplyOption(fs, GameweekRange([b]), roster).value;
      forall f :: f in features ==> f !in labels
  {
  }

  /** `match_range` [n] keeps the first n fixtures of the current list, and
      [a, b] the ones at positions a..b-1. */
  lemma MatchRangeExact(fs: seq<Fixture>, ns: seq<int>, roster: map<string, Squad>)
    requires 1 <= |ns| <= 2
    ensures ApplyOption(fs, MatchRange(ns), roster).Ok?
    ensures |ns| == 1 && 0 <= ns[0] <= |fs| ==> ApplyOption(fs, MatchRange(ns), roster).value == fs[..ns[0]]
    ensures |ns| == 2 && 0 <= ns[0] <= ns[1] <= |fs| ==> ApplyOption(fs, MatchRange(ns), roster).value == fs[ns[0]..ns[1]]
  {
  }

  /** Two date bounds always raise "Date range is not valid", and more than
      two raise before that. */
  lemma DateRangeTwoBoundsRaises(fs: seq<Fixture>, ds: seq<int>, roster: map<string, Squad>)
    requires |ds| >= 2
    ensures ApplyOption(fs, DateRange(ds), roster) == Err(if |ds| == 2 then DateRangeNotValid else TooManyBounds)
  {
  }
}
