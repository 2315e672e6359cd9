/** The rows of the tables `data_lister` builds, and what one match does to
    one row: a player's row (player_data.py:333-410), a goalkeeper's row
    (player_data.py:412-436) and a team's row (player_data.py:438-578). */
module Rows {
  import opened Basics
  import opened Text
  import opened Numbers

  // ---------------------------------------------------------------------
  // Result queues (form, home_form, away_form)

  datatype Outcome = Win | Draw | Loss

  /** The number of results a form queue holds. */
  const FormLength: nat := 5

  /** The last `n` entries of `q`, or all of them when there are fewer. */
  function LastN<T>(q: seq<T>, n: nat): (r: seq<T>)
    ensures |r| == Min(|q|, n)
  {
    if |q| <= n then q else q[|q| - n..]
  }

  /** A result joins the queue; a full queue first drops its oldest entry. */
  function PushForm(q: seq<Outcome>, x: Outcome): (r: seq<Outcome>)
    ensures |q| <= FormLength ==> r == LastN(q + [x], FormLength)
    ensures |r| > 0 && r[|r| - 1] == x
  {
    if |q| == FormLength then q[1..] + [x] else q + [x]
  }

  /** The queue after the results `xs` were pushed one by one. */
  function PushAll(q: seq<Outcome>, xs: seq<Outcome>): seq<Outcome>
    decreases |xs|
  {
    if xs == [] then q else PushForm(PushAll(q, xs[..|xs| - 1]), xs[|xs| - 1])
  }

  lemma LastNOfPush(a: seq<Outcome>, x: Outcome)
    ensures LastN(LastN(a, FormLength) + [x], FormLength) == LastN(a + [x], FormLength)
  {
    if |a| > FormLength {
      assert (a + [x])[|a| + 1 - FormLength..] == a[|a| - FormLength..][1..] + [x];
    }
  }

  /** Pushing results one by one keeps exactly the five most recent
      results, oldest first. */
  lemma {:induction false} PushAllKeepsLatest(q: seq<Outcome>, xs: seq<Outcome>)
    requires |q| <= FormLength
    ensures PushAll(q, xs) == LastN(q + xs, FormLength)
    decreases |xs|
  {
    if xs == [] {
      assert q + xs == q;
    } else {
      var n := |xs| - 1;
      PushAllKeepsLatest(q, xs[..n]);
      LastNOfPush(q + xs[..n], xs[n]);
      assert q + xs == (q + xs[..n]) + [xs[n]];
    }
  }

  // ---------------------------------------------------------------------
  // Position counts: the per-player dict from position code to count

  datatype PositionCount = PositionCount(code: string, count: nat)

  /** The count recorded for `code` (0 when absent). */
  function CountOf(ps: seq<PositionCount>, code: string): nat
    decreases |ps|
  {
    if ps == [] then 0 else (if ps[0].code == code then ps[0].count else 0) + CountOf(ps[1..], code)
  }

  /** The codes in insertion order. */
  function Codes(ps: seq<PositionCount>): (cs: seq<string>)
    ensures |cs| == |ps|
    ensures forall i :: 0 <= i < |ps| ==> cs[i] == ps[i].code
  {
    if ps == [] then [] else [ps[0].code] + Codes(ps[1..])
  }

  /** One more match at `code`: a known code's count goes up by one, a new
      code is appended with count 1. */
  function Bump(ps: seq<PositionCount>, code: string): (r: seq<PositionCount>)
    decreases |ps|
  {
    if ps == [] then [PositionCount(code, 1)]
    else if ps[0].code == code then [ps[0].(count := ps[0].count + 1)] + ps[1..]
    else [ps[0]] + Bump(ps[1..], code)
  }

  lemma {:induction false} BumpCounts(ps: seq<PositionCount>, code: string, d: string)
    ensures CountOf(Bump(ps, code), d) == CountOf(ps, d) + (if code == d then 1 else 0)
    ensures code in Codes(ps) ==> Codes(Bump(ps, code)) == Codes(ps)
    ensures code !in Codes(ps) ==> Codes(Bump(ps, code)) == Codes(ps) + [code]
    decreases |ps|
  {
    if ps != [] {
      var r := Bump(ps, code);
      if ps[0].code == code {
        assert r[1..] == ps[1..];
      } else {
        BumpCounts(ps[1..], code, d);
        assert r[1..] == Bump(ps[1..], code);
        assert Codes(ps) == [ps[0].code] + Codes(ps[1..]);
      }
    }
  }

  /** Every code of a comma-separated position cell counted once. */
  function AddCodes(ps: seq<PositionCount>, codes: seq<string>): seq<PositionCount>
    decreases |codes|
  {
    if codes == [] then ps else Bump(AddCodes(ps, codes[..|codes| - 1]), codes[|codes| - 1])
  }

  /** Each code's count goes up by the number of times it occurs in the cell. */
  lemma {:induction false} AddCodesCounts(ps: seq<PositionCount>, codes: seq<string>, d: string)
    ensures CountOf(AddCodes(ps, codes), d) == CountOf(ps, d) + Occurrences(codes, d)
    decreases |codes|
  {
    if codes != [] {
      var n := |codes| - 1;
      AddCodesCounts(ps, codes[..n], d);
      BumpCounts(AddCodes(ps, codes[..n]), codes[n], d);
      assert codes == codes[..n] + [codes[n]];
      OccurrencesAppend(codes[..n], [codes[n]], d);
    }
  }

  lemma BumpDistinct(ps: seq<PositionCount>, code: string)
    requires NoDuplicates(Codes(ps))
    ensures NoDuplicates(Codes(Bump(ps, code)))
  {
    BumpCounts(ps, code, code);
  }

  /** A code already recorded is never appended again. */
  lemma {:induction false} AddCodesDistinct(ps: seq<PositionCount>, codes: seq<string>)
    requires NoDuplicates(Codes(ps))
    ensures NoDuplicates(Codes(AddCodes(ps, codes)))
    decreases |codes|
  {
    if codes != [] {
      var n := |codes| - 1;
      AddCodesDistinct(ps, codes[..n]);
      BumpDistinct(AddCodes(ps, codes[..n]), codes[n]);
    }
  }

  /** The position loop of the code (player_data.py:381-389), in place on
      the dict's contents. */
  method AddPositions(ps: seq<PositionCount>, codes: seq<string>) returns (r: seq<PositionCount>)
    ensures r == AddCodes(ps, codes)
  {
    r := ps;
    for i := 0 to |codes|
      invariant r == AddCodes(ps, codes[..i])
    {
      assert codes[..i + 1][..i] == codes[..i];
      r := Bump(r, codes[i]);
    }
    assert codes[..|codes|] == codes;
  }

  // ---------------------------------------------------------------------
  // Player rows

  /** A player's age cell: 0 until a match sheet gives it, then the sheet's
      text ("years-days"). */
  datatype Age = Unset | Given(text: string)

  /** The fantasy columns that accumulate (player_data.py:397-404). */
  datatype Fantasy = Fantasy(
    influence: real, creativity: real, threat: real, ictIndex: real, totalPoints: real,
    transfersBalance: real, transfersIn: real, transfersOut: real, bonus: real, bps: real)

  const NoFantasy := Fantasy(0.0, 0.0, 0.0, 0.0, 0.0, 0.0, 0.0, 0.0, 0.0, 0.0)

  function AddFantasy(a: Fantasy, b: Fantasy): Fantasy
  {
    Fantasy(a.influence + b.influence, a.creativity + b.creativity, a.threat + b.threat,
      a.ictIndex + b.ictIndex, a.totalPoints + b.totalPoints, a.transfersBalance + b.transfersBalance,
      a.transfersIn + b.transfersIn, a.transfersOut + b.transfersOut, a.bonus + b.bonus, a.bps + b.bps)
  }

  /** A row of a gameweek's fantasy file, its name already normalised. */
  datatype FantasyRow = FantasyRow(name: string, points: Fantasy, value: real)

  /** A player's line on a team's match sheet. */
  datatype SheetRow = SheetRow(name: string, stats: map<string, real>, position: string, age: string)

  /** The appearance counters of a player: matches, starts, appearances
      off the bench, substitutions off and matches of more than 60 minutes. */
  datatype Appearances = Appearances(matches: nat, starts: nat, subIns: nat, subOuts: nat, played60: nat)

  /** The fantasy columns of a player: the summed points columns, the
      current value and its change since the last value recorded. */
  datatype Market = Market(points: Fantasy, value: real, valueChange: real)

  /** A row of a team's `player_stats` table. `stats` holds the summed
      sheet columns, `ratios` the percentages computed at the end. */
  datatype PlayerRow = PlayerRow(
    name: string, stats: map<string, real>, age: Age, positions: seq<PositionCount>,
    apps: Appearances, market: Market, ratios: map<string, Num>)

  /** The sheet columns that are not added up. */
  const IdentityColumns: set<string> := {"player", "position", "age"}

  /** A numeric cell, 0 when the column is absent. */
  function Stat(m: map<string, real>, column: string): real
  {
    if column in m then m[column] else 0.0
  }

  /** The `player` column of a player table. */
  function PlayerRowNames(rows: seq<PlayerRow>): (names: seq<string>)
    ensures |names| == |rows| && forall i :: 0 <= i < |rows| ==> names[i] == rows[i].name
  {
    seq(|rows|, i requires 0 <= i < |rows| => rows[i].name)
  }

  /** The zero-filled row of a rostered player. */
  function InitialPlayer(name: string, columns: seq<string>): (r: PlayerRow)
    ensures r.name == name && r.apps.matches == 0 && r.age == Unset && r.positions == []
    ensures forall c :: c in r.stats <==> c in columns && c !in IdentityColumns
    ensures forall c :: c in r.stats ==> r.stats[c] == 0.0
  {
    PlayerRow(name, map c | c in columns && c !in IdentityColumns :: 0.0, Unset, [],
      Appearances(0, 0, 0, 0, 0), Market(NoFantasy, 0.0, 0.0), map[])
  }

  /** The substitution map of a team in a match: player subbed off to the
      player who came on. */
  type Substitutions = map<string, string>

  predicate CameOn(subs: Substitutions, name: string) { name in subs.Values }
  predicate WentOff(subs: Substitutions, name: string) { name in subs.Keys }

  /** `k` "minutes" cells of one sheet counted: each counts a start or an
      appearance off the bench, a substitution off when the player went
      off, and a match of more than 60 minutes when the cell says so. */
  function CountMinutes(a: Appearances, k: nat, over60: bool, on: bool, off: bool): Appearances
  {
    a.(starts := a.starts + (if on then 0 else k),
       subIns := a.subIns + (if on then k else 0),
       subOuts := a.subOuts + (if off then k else 0),
       played60 := a.played60 + (if over60 then k else 0))
  }

  /** One column of the sheet applied to a player's row. */
  function ColumnStep(row: PlayerRow, sheet: SheetRow, column: string, subs: Substitutions): PlayerRow
  {
    if column == "age" then
      if row.age.Unset? then row.(age := Given(sheet.age)) else row
    else if column == "position" then
      row.(positions := AddCodes(row.positions, Split(sheet.position, ",")))
    else if column == "player" then row
    else
      var v := Stat(sheet.stats, column);
      var r := row.(stats := row.stats[column := Stat(row.stats, column) + v]);
      if column != "minutes" then r
      else r.(apps := CountMinutes(r.apps, 1, v > 60.0, CameOn(subs, row.name), WentOff(subs, row.name)))
  }

  /** The sheet's columns applied in order. */
  function ColumnsFold(row: PlayerRow, sheet: SheetRow, columns: seq<string>, subs: Substitutions): PlayerRow
    decreases |columns|
  {
    if columns == [] then row
    else ColumnStep(ColumnsFold(row, sheet, columns[..|columns| - 1], subs), sheet, columns[|columns| - 1], subs)
  }

  /** The fantasy columns of the gameweek: applied only when exactly one
      fantasy row carries the player's name; `value` is replaced and
      `value_change` becomes the new value minus the stored one. */
  function FantasyStep(m: Market, matches: seq<FantasyRow>): Market
  {
    if |matches| == 1 then
      Market(AddFantasy(m.points, matches[0].points), matches[0].value, matches[0].value - m.value)
    else m
  }

  /** Everything one match does to a rostered player's row. */
  function PlayerStep(row: PlayerRow, sheet: SheetRow, columns: seq<string>, subs: Substitutions,
                      matches: seq<FantasyRow>): PlayerRow
  {
    var r := ColumnsFold(row, sheet, columns, subs);
    r.(apps := r.apps.(matches := r.apps.matches + 1), market := FantasyStep(r.market, matches))
  }

  /** One player's update as the code runs it: a loop over the columns. */
  method StepPlayer(row: PlayerRow, sheet: SheetRow, columns: seq<string>, subs: Substitutions,
                    matches: seq<FantasyRow>) returns (r: PlayerRow)
    ensures r == PlayerStep(row, sheet, columns, subs, matches)
  {
    r := row;
    for i := 0 to |columns|
      invariant r == ColumnsFold(row, sheet, columns[..i], subs)
    {
      assert columns[..i + 1][..i] == columns[..i];
      var column := columns[i];
      if column == "position" {
        var ps := AddPositions(r.positions, Split(sheet.position, ","));
        r := r.(positions := ps);
      } else {
        r := ColumnStep(r, sheet, column, subs);
      }
    }
    assert columns[..|columns|] == columns;
    r := r.(apps := r.apps.(matches := r.apps.matches + 1), market := FantasyStep(r.market, matches));
  }

  lemma ColumnStepCounters(row: PlayerRow, sheet: SheetRow, c: string, subs: Substitutions)
    ensures var r := ColumnStep(row, sheet, c, subs);
      r.name == row.name && r.market == row.market &&
      r.apps == CountMinutes(row.apps, if c == "minutes" then 1 else 0,
        Stat(sheet.stats, "minutes") > 60.0, CameOn(subs, row.name), WentOff(subs, row.name))
  {
  }

  /** The appearance counters the minutes column drives: each "minutes"
      column counts the player once as a starter or as having come on, as
      having gone off if so, and as having played more than 60 minutes if
      so; the name, the match count and the fantasy columns stay. */
  lemma {:induction false} ColumnsFoldCounters(row: PlayerRow, sheet: SheetRow, columns: seq<string>, subs: Substitutions)
    ensures var r := ColumnsFold(row, sheet, columns, subs);
      r.name == row.name && r.market == row.market &&
      r.apps == CountMinutes(row.apps, Occurrences(columns, "minutes"),
        Stat(sheet.stats, "minutes") > 60.0, CameOn(subs, row.name), WentOff(subs, row.name))
    decreases |columns|
  {
    if columns != [] {
      var n := |columns| - 1;
      ColumnsFoldCounters(row, sheet, columns[..n], subs);
      ColumnStepCounters(ColumnsFold(row, sheet, columns[..n], subs), sheet, columns[n], subs);
      assert columns == columns[..n] + [columns[n]];
      OccurrencesAppend(columns[..n], [columns[n]], "minutes");
    }
  }

  lemma ColumnStepStats(row: PlayerRow, sheet: SheetRow, column: string, subs: Substitutions, c: string)
    requires c !in IdentityColumns
    ensures Stat(ColumnStep(row, sheet, column, subs).stats, c)
      == Stat(row.stats, c) + (if column == c then Stat(sheet.stats, c) else 0.0)
  {
  }

  /** A summed column grows by the sheet's value once per time it is listed. */
  lemma {:induction false} ColumnsFoldStats(row: PlayerRow, sheet: SheetRow, columns: seq<string>, subs: Substitutions, c: string)
    requires c !in IdentityColumns
    ensures Stat(ColumnsFold(row, sheet, columns, subs).stats, c)
      == Stat(row.stats, c) + Times(Occurrences(columns, c), Stat(sheet.stats, c))
    decreases |columns|
  {
    if columns != [] {
      var n := |columns| - 1;
      var before := ColumnsFold(row, sheet, columns[..n], subs);
      assert ColumnsFold(row, sheet, columns, subs) == ColumnStep(before, sheet, columns[n], subs);
      ColumnsFoldStats(row, sheet, columns[..n], subs, c);
      ColumnStepStats(before, sheet, columns[n], subs, c);
      assert columns == columns[..n] + [columns[n]];
      OccurrencesAppend(columns[..n], [columns[n]], c);
      var k := Occurrences(columns[..n], c);
      var v := Stat(sheet.stats, c);
      if columns[n] == c {
        assert Occurrences(columns, c) == k + 1;
        assert Times(k + 1, v) == Times(k, v) + v;
      } else {
        assert Occurrences(columns, c) == k;
      }
    }
  }

  /** The age is written once: the first sheet that lists the age column
      sets it, later sheets leave it. */
  lemma {:induction false} ColumnsFoldAge(row: PlayerRow, sheet: SheetRow, columns: seq<string>, subs: Substitutions)
    ensures ColumnsFold(row, sheet, columns, subs).age ==
      if row.age.Given? || "age" !in columns then row.age else Given(sheet.age)
    decreases |columns|
  {
    if columns != [] {
      var n := |columns| - 1;
      ColumnsFoldAge(row, sheet, columns[..n], subs);
      assert columns == columns[..n] + [columns[n]];
      assert "age" in columns <==> "age" in columns[..n] || columns[n] == "age";
    }
  }

  lemma ColumnStepPositions(row: PlayerRow, sheet: SheetRow, column: string, subs: Substitutions, d: string)
    ensures CountOf(ColumnStep(row, sheet, column, subs).positions, d) ==
      CountOf(row.positions, d) + (if column == "position" then Occurrences(Split(sheet.position, ","), d) else 0)
  {
    if column == "position" {
      AddCodesCounts(row.positions, Split(sheet.position, ","), d);
    }
  }

  /** Each position code of the sheet's cell counts once more per listing
      of the position column. */
  lemma {:induction false} ColumnsFoldPositions(row: PlayerRow, sheet: SheetRow, columns: seq<string>, subs: Substitutions, d: string)
    ensures CountOf(ColumnsFold(row, sheet, columns, subs).positions, d) ==
      CountOf(row.positions, d) + TimesNat(Occurrences(columns, "position"), Occurrences(Split(sheet.position, ","), d))
    decreases |columns|
  {
    if columns != [] {
      var n := |columns| - 1;
      var before := ColumnsFold(row, sheet, columns[..n], subs);
      ColumnsFoldPositions(row, sheet, columns[..n], subs, d);
      ColumnStepPositions(before, sheet, columns[n], subs, d);
      assert ColumnsFold(row, sheet, columns, subs) == ColumnStep(before, sheet, columns[n], subs);
      OccurrencesLast(columns, "position");
      var k := Occurrences(columns[..n], "position");
      var m := Occurrences(Split(sheet.position, ","), d);
      if columns[n] == "position" {
        assert TimesNat(k + 1, m) == TimesNat(k, m) + m;
      }
    }
  }


  /** No position code is recorded twice. */
  lemma {:induction false} ColumnsFoldCodesDistinct(row: PlayerRow, sheet: SheetRow, columns: seq<string>, subs: Substitutions)
    requires NoDuplicates(Codes(row.positions))
    ensures NoDuplicates(Codes(ColumnsFold(row, sheet, columns, subs).positions))
    decreases |columns|
  {
    if columns != [] {
      var n := |columns| - 1;
      ColumnsFoldCodesDistinct(row, sheet, columns[..n], subs);
      if columns[n] == "position" {
        AddCodesDistinct(ColumnsFold(row, sheet, columns[..n], subs).positions, Split(sheet.position, ","));
      }
    }
  }

  lemma MulSucc(k: nat, m: nat)
    ensures (k + 1) * m == k * m + m && m * (k + 1) == m * k + m
  {
  }

  /** The appearance counters agree: with k "minutes" columns per sheet,
      starts and appearances off the bench split k times the matches, and
      substitutions off and 60-minute matches never exceed that. */
  ghost predicate PlayerValid(a: Appearances, k: nat) {
    a.starts + a.subIns == k * a.matches &&
    a.subOuts <= k * a.matches && a.played60 <= k * a.matches
  }

  /** A match keeps a player's row consistent, and counts one match. */
  lemma PlayerStepKeepsValid(row: PlayerRow, sheet: SheetRow, columns: seq<string>, subs: Substitutions,
                             matches: seq<FantasyRow>)
    requires PlayerValid(row.apps, Occurrences(columns, "minutes"))
    ensures var r := PlayerStep(row, sheet, columns, subs, matches);
      PlayerValid(r.apps, Occurrences(columns, "minutes")) && r.apps.matches == row.apps.matches + 1 &&
      r.name == row.name
  {
    ColumnsFoldCounters(row, sheet, columns, subs);
    MulSucc(row.apps.matches, Occurrences(columns, "minutes"));
  }

  /** A match replaces a player's value by the gameweek's value and records
      the change from the stored one, when exactly one fantasy row carries the
      player's name; the sheet's columns never touch the fantasy columns. */
  lemma PlayerStepFantasy(row: PlayerRow, sheet: SheetRow, columns: seq<string>, subs: Substitutions,
                          matches: seq<FantasyRow>)
    ensures var r := PlayerStep(row, sheet, columns, subs, matches);
      r.name == row.name &&
      (|matches| == 1 ==> r.market.value == matches[0].value &&
                          r.market.valueChange == matches[0].value - row.market.value) &&
      (|matches| != 1 ==> r.market == row.market)
  {
    ColumnsFoldCounters(row, sheet, columns, subs);
  }

  /** With exactly one fantasy row for the player, whatever the stored value,
      the new value replaces it, the change is the new value minus the stored
      one, and the points are added; with none or several nothing changes. */
  lemma FantasyStepEffect(m: Market, ms: seq<FantasyRow>)
    ensures |ms| == 1 ==> FantasyStep(m, ms).value == ms[0].value
    ensures |ms| == 1 ==> FantasyStep(m, ms).valueChange == ms[0].value - m.value
    ensures |ms| == 1 ==> FantasyStep(m, ms).points == AddFantasy(m.points, ms[0].points)
    ensures |ms| != 1 ==> FantasyStep(m, ms) == m
  {
  }

  /** The stored value is recovered from the new one and the change: the
      value before the gameweek is the value after it minus `value_change`. */
  lemma FantasyStepRecoversPrevious(m: Market, f: FantasyRow)
    ensures FantasyStep(m, [f]).value - FantasyStep(m, [f]).valueChange == m.value
  {
  }

  /** The first time a player is found in the fantasy file the stored value
      is 0, so the recorded change is the whole value. */
  lemma FirstSightingChange(m: Market, f: FantasyRow)
    requires m.value == 0.0
    ensures FantasyStep(m, [f]).valueChange == f.value
    ensures FantasyStep(m, [f]).value == f.value
  {
  }

  // ---------------------------------------------------------------------
  // Goalkeeper rows

  datatype KeeperSheetRow = KeeperSheetRow(name: string, stats: map<string, real>, age: string)

  datatype KeeperRow = KeeperRow(name: string, stats: map<string, real>, age: Age, appearances: nat)

  const KeeperIdentityColumns: set<string> := {"player", "age"}

  /** The `player` column of a goalkeeper table. */
  function KeeperRowNames(rows: seq<KeeperRow>): (names: seq<string>)
    ensures |names| == |rows| && forall i :: 0 <= i < |rows| ==> names[i] == rows[i].name
  {
    seq(|rows|, i requires 0 <= i < |rows| => rows[i].name)
  }

  function InitialKeeper(name: string, columns: seq<string>): (r: KeeperRow)
    ensures r.name == name && r.appearances == 0 && r.age == Unset
    ensures forall c :: c in r.stats <==> c in columns && c !in KeeperIdentityColumns
    ensures forall c :: c in r.stats ==> r.stats[c] == 0.0
  {
    KeeperRow(name, map c | c in columns && c !in KeeperIdentityColumns :: 0.0, Unset, 0)
  }

  function KeeperColumnStep(row: KeeperRow, sheet: KeeperSheetRow, column: string): KeeperRow
  {
    if column == "age" then
      if row.age.Unset? then row.(age := Given(sheet.age)) else row
    else if column == "player" then row
    else row.(stats := row.stats[column := Stat(row.stats, column) + Stat(sheet.stats, column)])
  }

  function KeeperColumnsFold(row: KeeperRow, sheet: KeeperSheetRow, columns: seq<string>): KeeperRow
    decreases |columns|
  {
    if columns == [] then row
    else KeeperColumnStep(KeeperColumnsFold(row, sheet, columns[..|columns| - 1]), sheet, columns[|columns| - 1])
  }

  /** Everything one match does to a goalkeeper's row. */
  function KeeperStep(row: KeeperRow, sheet: KeeperSheetRow, columns: seq<string>): KeeperRow
  {
    var r := KeeperColumnsFold(row, sheet, columns);
    r.(appearances := r.appearances + 1)
  }

  method StepKeeper(row: KeeperRow, sheet: KeeperSheetRow, columns: seq<string>) returns (r: KeeperRow)
    ensures r == KeeperStep(row, sheet, columns)
  {
    r := row;
    for i := 0 to |columns|
      invariant r == KeeperColumnsFold(row, sheet, columns[..i])
    {
      assert columns[..i + 1][..i] == columns[..i];
      r := KeeperColumnStep(r, sheet, columns[i]);
    }
    assert columns[..|columns|] == columns;
    r := r.(appearances := r.appearances + 1);
  }

  /** A goalkeeper's summed columns grow by the sheet's values, the age is
      written once, and one appearance is counted. */
  lemma {:induction false} KeeperColumnsFoldEffect(row: KeeperRow, sheet: KeeperSheetRow, columns: seq<string>, c: string)
    requires c !in KeeperIdentityColumns
    ensures var r := KeeperColumnsFold(row, sheet, columns);
      r.name == row.name && r.appearances == row.appearances &&
      Stat(r.stats, c) == Stat(row.stats, c) + Times(Occurrences(columns, c), Stat(sheet.stats, c)) &&
      r.age == if row.age.Given? || "age" !in columns then row.age else Given(sheet.age)
    decreases |columns|
  {
    if columns != [] {
      var n := |columns| - 1;
      KeeperColumnsFoldEffect(row, sheet, columns[..n], c);
      assert columns == columns[..n] + [columns[n]];
      OccurrencesAppend(columns[..n], [columns[n]], c);
      assert "age" in columns <==> "age" in columns[..n] || columns[n] == "age";
    }
  }

  // ---------------------------------------------------------------------
  // Team rows

  /** Results, points, goals, clean sheets and the form queue, kept once
      for all matches and once each for home and away matches. */
  datatype Record = Record(
    wins: nat, draws: nat, losses: nat, pts: nat,
    goalsFor: nat, goalsAgainst: nat, cleansheets: nat, form: seq<Outcome>)

    datatype Cards = Cards(yellow: real, red: real, yellowRed: real)

  /** A row of `teams_stats`. `number_of_players` and `active_players` are
      never updated by the code and are not modelled. */
  datatype TeamRow = TeamRow(
    name: string, matchesPlayed: nat, overall: Record, home: Record, away: Record,
    xG: real, possession: int, managers: seq<string>, formations: seq<string>, cards: Cards)

  function InitialTeam(name: string): TeamRow
  {
    TeamRow(name, 0, Record(0, 0, 0, 0, 0, 0, 0, []), Record(0, 0, 0, 0, 0, 0, 0, []), Record(0, 0, 0, 0, 0, 0, 0, []), 0.0, 0, [], [], Cards(0.0, 0.0, 0.0))
  }

  datatype Side = HomeSide | AwaySide

  /** What the match-info record gives one side: its manager, formation,
      possession percentage and expected goals. */
  datatype SideFacts = SideFacts(manager: string, formation: string, possession: int, xG: real)

  function Points(o: Outcome): nat
  {
    match o
    case Win => 3
    case Draw => 1
    case Loss => 0
  }

  /** The result for a side that scored `gf` and conceded `ga`. */
  function NumericOutcome(gf: nat, ga: nat): (o: Outcome)
    ensures o == Win <==> gf > ga
    ensures o == Draw <==> gf == ga
    ensures o == Loss <==> gf < ga
  {
    if gf > ga then Win else if gf == ga then Draw else Loss
  }

  /** One match entered into a record. */
  function Tally(rec: Record, gf: nat, ga: nat, o: Outcome, clean: bool): Record
  {
    rec.(wins := rec.wins + (if o == Win then 1 else 0),
         draws := rec.draws + (if o == Draw then 1 else 0),
         losses := rec.losses + (if o == Loss then 1 else 0),
         pts := rec.pts + Points(o),
         goalsFor := rec.goalsFor + gf, goalsAgainst := rec.goalsAgainst + ga,
         cleansheets := rec.cleansheets + (if clean then 1 else 0),
         form := PushForm(rec.form, o))
  }

  /** `x` appended unless already present. */
  function AddIfMissing(s: seq<string>, x: string): (r: seq<string>)
    ensures x in r && (forall y :: y in r <==> y in s || y == x)
    ensures NoDuplicates(s) ==> NoDuplicates(r)
  {
    if x in s then s else s + [x]
  }

  /** One match of a team, the result decided by the goals (the corrected
      comparison) and every clean sheet by the goals conceded. */
  function TeamStep(row: TeamRow, side: Side, facts: SideFacts, gf: nat, ga: nat): TeamRow
  {
    var o := NumericOutcome(gf, ga);
    var clean := ga == 0;
    row.(possession := row.possession + facts.possession,
         managers := AddIfMissing(row.managers, facts.manager),
         formations := AddIfMissing(row.formations, facts.formation),
         xG := row.xG + facts.xG,
         overall := Tally(row.overall, gf, ga, o, clean),
         home := if side == HomeSide then Tally(row.home, gf, ga, o, clean) else row.home,
         away := if side == AwaySide then Tally(row.away, gf, ga, o, clean) else row.away,
         matchesPlayed := row.matchesPlayed + 1)
  }

  /** The result as the code decides it: the two halves of the score are
      compared as strings (player_data.py:498-510, 541-553). */
  function TextOutcome(own: string, opp: string): Outcome
  {
    if LexLess(opp, own) then Win else if own == opp then Draw else Loss
  }

  /** One match of a team as the code enters it: the result from the string
      comparison, and `away_cleansheets` tested on the away side's own
      goals (player_data.py:530-531). `homeText` and `awayText` are the two
      halves of the score. */
  function TeamStepAsWritten(row: TeamRow, side: Side, facts: SideFacts, homeText: string, awayText: string): TeamRow
    requires IsNumeral(homeText) && IsNumeral(awayText)
  {
    var hg, ag := DigitsValue(homeText), DigitsValue(awayText);
    var gf := if side == HomeSide then hg else ag;
    var ga := if side == HomeSide then ag else hg;
    var o := if side == HomeSide then TextOutcome(homeText, awayText) else TextOutcome(awayText, homeText);
    row.(possession := row.possession + facts.possession,
         managers := AddIfMissing(row.managers, facts.manager),
         formations := AddIfMissing(row.formations, facts.formation),
         xG := row.xG + facts.xG,
         overall := Tally(row.overall, gf, ga, o, ga == 0),
         home := if side == HomeSide then Tally(row.home, gf, ga, o, ag == 0) else row.home,
         away := if side == AwaySide then Tally(row.away, gf, ga, o, ag == 0) else row.away,
         matchesPlayed := row.matchesPlayed + 1)
  }

  /** A record of `played` matches: one result each, 3 points a win and 1 a
      draw, a clean sheet at most once a match, and the form queue holding
      the last min(5, played) results. */
  ghost predicate RecordValid(rec: Record, played: nat) {
    rec.wins + rec.draws + rec.losses == played && rec.pts == 3 * rec.wins + rec.draws &&
    rec.cleansheets <= played && |rec.form| == Min(played, FormLength)
  }

  /** A team row whose totals are the sums of its home and away records. */
  ghost predicate TeamValid(t: TeamRow) {
    RecordValid(t.overall, t.matchesPlayed) &&
    RecordValid(t.home, t.home.wins + t.home.draws + t.home.losses) &&
    RecordValid(t.away, t.away.wins + t.away.draws + t.away.losses) &&
    t.overall.pts == t.home.pts + t.away.pts &&
    t.overall.wins == t.home.wins + t.away.wins &&
    t.overall.draws == t.home.draws + t.away.draws &&
    t.overall.losses == t.home.losses + t.away.losses &&
    t.overall.goalsFor == t.home.goalsFor + t.away.goalsFor &&
    t.overall.goalsAgainst == t.home.goalsAgainst + t.away.goalsAgainst &&
    t.overall.cleansheets == t.home.cleansheets + t.away.cleansheets &&
    NoDuplicates(t.managers) && NoDuplicates(t.formations)
  }

  lemma InitialTeamValid(name: string)
    ensures TeamValid(InitialTeam(name))
  {
  }

  lemma TallyKeepsValid(rec: Record, played: nat, gf: nat, ga: nat, o: Outcome, clean: bool)
    requires RecordValid(rec, played)
    ensures RecordValid(Tally(rec, gf, ga, o, clean), played + 1)
  {
  }

  /** A match keeps a team row consistent: one more match, exactly one more
      of win, draw or loss in the totals and in the side's split, 3, 1 or 0
      points more in both. */
  lemma TeamStepKeepsValid(row: TeamRow, side: Side, facts: SideFacts, gf: nat, ga: nat)
    requires TeamValid(row)
    ensures var r := TeamStep(row, side, facts, gf, ga);
      TeamValid(r) && r.matchesPlayed == row.matchesPlayed + 1 &&
      r.overall.pts == row.overall.pts + Points(NumericOutcome(gf, ga)) &&
      r.overall.goalsFor == row.overall.goalsFor + gf &&
      r.overall.goalsAgainst == row.overall.goalsAgainst + ga &&
      (r.overall.cleansheets == row.overall.cleansheets + 1 <==> ga == 0)
  {
    var o := NumericOutcome(gf, ga);
    TallyKeepsValid(row.overall, row.matchesPlayed, gf, ga, o, ga == 0);
    if side == HomeSide {
      TallyKeepsValid(row.home, row.home.wins + row.home.draws + row.home.losses, gf, ga, o, ga == 0);
    } else {
      TallyKeepsValid(row.away, row.away.wins + row.away.draws + row.away.losses, gf, ga, o, ga == 0);
    }
  }

  /** Finding: with the halves compared as strings, a 10-9 home win is
      entered as a loss, while the numeric comparison enters a win. */
  lemma StringScoreComparisonCounterexample(row: TeamRow, facts: SideFacts)
    ensures TeamStepAsWritten(row, HomeSide, facts, "10", "9").overall.losses == row.overall.losses + 1
    ensures TeamStepAsWritten(row, HomeSide, facts, "10", "9").overall.pts == row.overall.pts
    ensures TeamStep(row, HomeSide, facts, 10, 9).overall.wins == row.overall.wins + 1
  {
    DigitsOrderCounterexample();
    assert !LexLess("9", "10");
  }

  /** On single-digit halves the string comparison agrees with the goals,
      and the code's home update equals the corrected one. */
  lemma AsWrittenAgreesOnSingleDigitHome(row: TeamRow, facts: SideFacts, h: string, a: string)
    requires IsNumeral(h) && IsNumeral(a) && |h| == 1 && |a| == 1
    ensures TeamStepAsWritten(row, HomeSide, facts, h, a) == TeamStep(row, HomeSide, facts, DigitsValue(h), DigitsValue(a))
  {
    var hv, av := DigitsValue(h), DigitsValue(a);
    SameLengthDigitsOrder(a, h);
    SameLengthDigitsOrder(h, a);
    if hv == av {
      assert h == [h[0]] && a == [a[0]];
      assert h == a;
    }
    assert TextOutcome(h, a) == NumericOutcome(hv, av);
  }

  /** Finding: the code counts an away defeat to nil as an away clean
      sheet (it tests the away side's own goals) but not as a clean sheet
      overall, so "clean sheets = home + away clean sheets" breaks on the
      first such match; the corrected step keeps it (TeamStepKeepsValid). */
  lemma AwayCleansheetCounterexample(row: TeamRow, facts: SideFacts, homeText: string, awayText: string)
    requires TeamValid(row)
    requires IsNumeral(homeText) && IsNumeral(awayText)
    requires DigitsValue(homeText) > 0 && DigitsValue(awayText) == 0
    ensures var r := TeamStepAsWritten(row, AwaySide, facts, homeText, awayText);
      r.away.cleansheets == row.away.cleansheets + 1 &&
      r.overall.cleansheets == row.overall.cleansheets && !TeamValid(r)
  {
  }
}
