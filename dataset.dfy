/** The feature and label helpers of dataset_generator.py: derived columns
    from a formula, the dominant-position class, the age in years, the
    minutes filter, the team position and the outcome labels. */
module Dataset {
  import opened Basics
  import opened Text
  import opened Numbers
  import opened Rows

  /** What the helpers raise. */
  datatype DatasetError =
    | NotAnAssignment(expression: string)  // `name, formula = expression.split(" = ")` does not unpack
    | MissingColumn(column: string)         // `df[column]` of a column the frame lacks
    | EmptyPositionCode                     // `top_pstn[-1]` of an empty position code
    | NotAnAge(text: string)                // `int(...)` of a text that is not a numeral
    | MissingPlayer(name: string)           // `.values[0]` of a player the label table lacks

  // ---------------------------------------------------------------------
  // column_creator (dataset_generator.py:9-35)

  const Operators: set<string> := {"+", "-", "/", "*"}

  /** One of the four column operators on a pair of entries. */
  function Apply(op: string, x: Num, y: Num): Num
  {
    if op == "+" then Add(x, y)
    else if op == "-" then Sub(x, y)
    else if op == "/" then Div(x, y)
    else Mul(x, y)
  }

  /** An operator applied entry by entry to two columns of a frame. */
  function Combine(op: string, a: seq<Num>, b: seq<Num>): (r: seq<Num>)
    ensures |r| == Min(|a|, |b|)
  {
    seq(Min(|a|, |b|), i requires 0 <= i < Min(|a|, |b|) => Apply(op, a[i], b[i]))
  }

  /** `replace([nan, inf], 0)`: NaN and +inf become 0, everything else,
      −inf included, stays. */
  function Cleaned(col: seq<Num>): (r: seq<Num>)
    ensures |r| == |col|
    ensures forall i :: 0 <= i < |r| ==> !r[i].NaN? && !r[i].PosInf?
    ensures forall i :: 0 <= i < |r| ==> (col[i].Fin? || col[i].NegInf?) ==> r[i] == col[i]
  {
    seq(|col|, i requires 0 <= i < |col| => ZeroNaNAndPosInf(col[i]))
  }

  /** The evaluation loop's variables: the running column, whether the next
      token is an operator, and the last operator read. */
  datatype Eval = Eval(column: seq<Num>, expectOperator: bool, operator: string)

  /** The column an operand token names; the new column's own name reads its
      running value. */
  function Operand(cols: map<string, seq<Num>>, name: string, running: seq<Num>, token: string): Option<seq<Num>>
  {
    if token == name then Some(running)
    else if token in cols then Some(cols[token])
    else None
  }

  /** One token of the formula after the first. */
  function EvalStep(cols: map<string, seq<Num>>, name: string, e: Eval, token: string): Result<Eval, DatasetError>
  {
    if e.expectOperator then Ok(Eval(e.column, false, token))
    else if e.operator in Operators then
      match Operand(cols, name, e.column, token)
      case None => Err(MissingColumn(token))
      case Some(col) => Ok(Eval(Combine(e.operator, e.column, col), true, e.operator))
    else Ok(Eval(e.column, true, e.operator))
  }

  /** The tokens after the first, strictly left to right. */
  function EvalTokens(cols: map<string, seq<Num>>, name: string, start: seq<Num>, tokens: seq<string>): Result<Eval, DatasetError>
    decreases |tokens|
  {
    if tokens == [] then Ok(Eval(start, true, ""))
    else
      match EvalTokens(cols, name, start, tokens[..|tokens| - 1])
      case Err(err) => Err(err)
      case Ok(e) => EvalStep(cols, name, e, tokens[|tokens| - 1])
  }

  /** `column_creator`: the new column's name and its values. */
  function CreateColumnSpec(cols: map<string, seq<Num>>, expression: string): Result<(string, seq<Num>), DatasetError>
  {
    var parts := Split(expression, " = ");
    if |parts| != 2 then Err(NotAnAssignment(expression))
    else
      var name := parts[0];
      var tokens := Split(parts[1], " ");
      if tokens[0] !in cols then Err(MissingColumn(tokens[0]))
      else
        match EvalTokens(cols, name, cols[tokens[0]], tokens[1..])
        case Err(err) => Err(err)
        case Ok(e) => Ok((name, Cleaned(e.column)))
  }

  /** Once an operand is missing, the later tokens do not change the
      outcome. */
  lemma {:induction false} EvalErrorStands(cols: map<string, seq<Num>>, name: string, start: seq<Num>,
                                           tokens: seq<string>, j: nat)
    requires j <= |tokens| && EvalTokens(cols, name, start, tokens[..j]).Err?
    ensures EvalTokens(cols, name, start, tokens) == EvalTokens(cols, name, start, tokens[..j])
    decreases |tokens|
  {
    if j < |tokens| {
      var n := |tokens| - 1;
      assert tokens[..n][..j] == tokens[..j];
      EvalErrorStands(cols, name, start, tokens[..n], j);
    } else {
      assert tokens[..j] == tokens;
    }
  }

  /** Every column of a frame has its height. */
  predicate Rectangular(cols: map<string, seq<Num>>, height: nat)
  {
    forall c :: c in cols ==> |cols[c]| == height
  }

  /** Evaluation keeps the frame's height. */
  lemma {:induction false} EvalTokensHeight(cols: map<string, seq<Num>>, name: string, start: seq<Num>,
                                            tokens: seq<string>, height: nat)
    requires Rectangular(cols, height) && |start| == height
    ensures EvalTokens(cols, name, start, tokens).Ok? ==> |EvalTokens(cols, name, start, tokens).value.column| == height
    decreases |tokens|
  {
    if tokens != [] {
      EvalTokensHeight(cols, name, start, tokens[..|tokens| - 1], height);
    }
  }

  /** The new column has the frame's height, has no NaN and no +inf, and
      keeps every finite value and every −inf the formula produced. */
  lemma CreateColumnClean(cols: map<string, seq<Num>>, expression: string, height: nat)
    requires Rectangular(cols, height)
    ensures match CreateColumnSpec(cols, expression)
      case Ok(nc) =>
        |nc.1| == height && forall i :: 0 <= i < height ==> !nc.1[i].NaN? && !nc.1[i].PosInf?
      case Err(_) => true
  {
    var parts := Split(expression, " = ");
    if |parts| == 2 {
      var tokens := Split(parts[1], " ");
      if tokens[0] in cols {
        EvalTokensHeight(cols, parts[0], cols[tokens[0]], tokens[1..], height);
      }
    }
  }

  /** No operator precedence: `a op1 b op2 d` is `(a op1 b) op2 d`. */
  lemma LeftToRight(cols: map<string, seq<Num>>, name: string, a: seq<Num>, op1: string, b: string, op2: string, d: string)
    requires op1 in Operators && op2 in Operators
    requires b in cols && d in cols && b != name && d != name
    ensures EvalTokens(cols, name, a, [op1, b, op2, d]) ==
      Ok(Eval(Combine(op2, Combine(op1, a, cols[b]), cols[d]), true, op2))
  {
    var ts := [op1, b, op2, d];
    var ab := Combine(op1, a, cols[b]);
    assert [op1][..0] == [];
    assert EvalTokens(cols, name, a, [op1]) == Ok(Eval(a, false, op1));
    assert [op1, b][..1] == [op1];
    assert EvalTokens(cols, name, a, [op1, b]) == Ok(Eval(ab, true, op1));
    assert [op1, b, op2][..2] == [op1, b];
    assert EvalTokens(cols, name, a, [op1, b, op2]) == Ok(Eval(ab, false, op2));
    assert ts[..3] == [op1, b, op2];
  }

  /** `c = a - b / d` with a = 10, b = 4, d = 2 is (10 − 4) / 2 = 3, not
      10 − 4 / 2 = 8. */
  lemma NoPrecedenceExample()
    ensures Combine("/", Combine("-", [Fin(10.0)], [Fin(4.0)]), [Fin(2.0)]) == [Fin(3.0)]
  {
    var diff := Combine("-", [Fin(10.0)], [Fin(4.0)]);
    assert diff[0] == Sub(Fin(10.0), Fin(4.0)) == Fin(6.0);
    assert diff == [Fin(6.0)];
    var quot := Combine("/", diff, [Fin(2.0)]);
    assert quot[0] == Div(Fin(6.0), Fin(2.0)) == Fin(3.0);
  }

  /** An unknown operator skips its operand, even one that names no column. */
  lemma UnknownOperatorSkips(cols: map<string, seq<Num>>, name: string, a: seq<Num>, op: string, b: string)
    requires op !in Operators
    ensures EvalTokens(cols, name, a, [op, b]) == Ok(Eval(a, true, op))
  {
    assert [op][..0] == [];
    assert EvalTokens(cols, name, a, [op]) == Ok(Eval(a, false, op));
    assert [op, b][..1] == [op];
  }

  /** A data frame whose columns the helpers add to or replace. */
  class Frame {
    const height: nat
    var columns: map<string, seq<Num>>

    ghost predicate Valid()
      reads this
    {
      Rectangular(columns, height)
    }

    constructor(height: nat, columns: map<string, seq<Num>>)
      requires Rectangular(columns, height)
      ensures Valid() && this.height == height && this.columns == columns
    {
      this.height := height;
      this.columns := columns;
    }

    /** `column_creator(df, expression)`: the running column is stored under
        the new name after every operand, so an operand naming it reads the
        value so far. On an error raised after the first operand, the new
        column keeps the value it had reached; no other column changes. */
    method CreateColumn(expression: string) returns (err: Option<DatasetError>)
      requires Valid()
      modifies this
      ensures Valid()
      ensures match CreateColumnSpec(old(columns), expression)
        case Ok(nc) => err.None? && columns == old(columns)[nc.0 := nc.1]
        case Err(e) => err == Some(e)
      ensures Split(expression, " = ")[0] in columns || columns == old(columns)
      ensures forall k :: k in old(columns) && k != Split(expression, " = ")[0] ==>
        k in columns && columns[k] == old(columns)[k]
      ensures columns.Keys <= old(columns).Keys + {Split(expression, " = ")[0]}
    {
      var parts := Split(expression, " = ");
      if |parts| != 2 {
        return Some(NotAnAssignment(expression));
      }
      var name := parts[0];
      var tokens := Split(parts[1], " ");
      if tokens[0] !in columns {
        return Some(MissingColumn(tokens[0]));
      }
      ghost var cols := columns;
      columns := columns[name := columns[tokens[0]]];
      var expectOperator := true;
      var operator := "";
      var rest := tokens[1..];
      for i := 0 to |rest|
        invariant name in columns && columns == cols[name := columns[name]]
        invariant cols == old(columns) && name == Split(expression, " = ")[0]
        invariant Valid()
        invariant EvalTokens(cols, name, cols[tokens[0]], rest[..i]) == Ok(Eval(columns[name], expectOperator, operator))
      {
        assert rest[..i + 1][..i] == rest[..i];
        ghost var before := Eval(columns[name], expectOperator, operator);
        var token := rest[i];
        assert EvalTokens(cols, name, cols[tokens[0]], rest[..i + 1]) == EvalStep(cols, name, before, token);
        if expectOperator {
          operator := token;
        } else if operator in Operators {
          if token !in columns {
            assert token != name && token !in cols;
            assert EvalStep(cols, name, Eval(columns[name], expectOperator, operator), token).Err?;
            assert EvalTokens(cols, name, cols[tokens[0]], rest[..i + 1]).Err?;
            EvalErrorStands(cols, name, cols[tokens[0]], rest, i + 1);
            return Some(MissingColumn(token));
          }
          columns := columns[name := Combine(operator, columns[name], columns[token])];
        }
        expectOperator := !expectOperator;
        assert EvalStep(cols, name, before, token) == Ok(Eval(columns[name], expectOperator, operator));
      }
      assert rest[..|rest|] == rest;
      columns := columns[name := Cleaned(columns[name])];
      err := None;
    }
  }

  // ---------------------------------------------------------------------
  // The position classifier (dataset_generator.py:239-260)

  datatype Place = Gkp | Def | Mid | Fwd | Nil

  /** The counts of a position dictionary, in insertion order. */
  function Counts(ps: seq<PositionCount>): (vals: seq<nat>)
    ensures |vals| == |ps|
  {
    seq(|ps|, i requires 0 <= i < |ps| => ps[i].count)
  }

  /** `values.index(max(values))`: the first index holding the maximum. */
  function FirstMaxIndex(vals: seq<nat>): (r: nat)
    requires |vals| > 0
    ensures r < |vals|
    ensures forall j :: 0 <= j < |vals| ==> vals[j] <= vals[r]
    ensures forall j :: 0 <= j < r ==> vals[j] < vals[r]
    decreases |vals|
  {
    if |vals| == 1 then 0
    else
      var k := FirstMaxIndex(vals[..|vals| - 1]);
      if vals[|vals| - 1] > vals[k] then |vals| - 1 else k
  }

  /** The class of a position code's last letter. */
  function PlaceOfLetter(c: char): Place
  {
    if c == 'K' then Gkp else if c == 'B' then Def else if c == 'M' then Mid else Fwd
  }

  /** The class of a player's most frequent position. */
  function PlaceOf(ps: seq<PositionCount>): (r: Result<Place, DatasetError>)
    ensures r == Ok(Nil) <==> ps == []
    ensures r.Err? ==> r.error == EmptyPositionCode
  {
    if ps == [] then Ok(Nil)
    else
      var code := ps[FirstMaxIndex(Counts(ps))].code;
      if code == [] then Err(EmptyPositionCode) else Ok(PlaceOfLetter(code[|code| - 1]))
  }

  /** A position counted strictly more often than every other decides the
      class wherever it sits in the dictionary. */
  lemma DominantPositionDecides(ps: seq<PositionCount>, i: nat)
    requires i < |ps| && ps[i].code != []
    requires forall j :: 0 <= j < |ps| && j != i ==> ps[j].count < ps[i].count
    ensures PlaceOf(ps) == Ok(PlaceOfLetter(ps[i].code[|ps[i].code| - 1]))
  {
    var vals := Counts(ps);
    var k := FirstMaxIndex(vals);
    assert vals[i] <= vals[k] && vals[k] == ps[k].count && vals[i] == ps[i].count;
    assert k == i;
  }

  /** On a tie the position recorded first wins. */
  lemma TieGoesToFirstRecorded()
    ensures PlaceOf([PositionCount("RB", 2), PositionCount("CM", 2)]) == Ok(Def)
    ensures PlaceOf([PositionCount("CM", 3), PositionCount("RB", 2)]) == Ok(Mid)
  {
    var tie := [PositionCount("RB", 2), PositionCount("CM", 2)];
    assert Counts(tie) == [2, 2];
    var clear := [PositionCount("CM", 3), PositionCount("RB", 2)];
    assert Counts(clear) == [3, 2];
  }

  /** The `places` column, built by appending one class per player; the
      first player whose dominant code is empty raises. */
  method Places(positions: seq<seq<PositionCount>>) returns (r: Result<seq<Place>, DatasetError>)
    ensures r.Ok? <==> forall i :: 0 <= i < |positions| ==> PlaceOf(positions[i]).Ok?
    ensures r.Ok? ==> |r.value| == |positions| && forall i :: 0 <= i < |positions| ==> PlaceOf(positions[i]) == Ok(r.value[i])
    ensures r.Err? ==> exists i :: 0 <= i < |positions| && PlaceOf(positions[i]) == Err(r.error) &&
                                   (forall j :: 0 <= j < i ==> PlaceOf(positions[j]).Ok?)
  {
    var places: seq<Place> := [];
    for i := 0 to |positions|
      invariant |places| == i
      invariant forall j :: 0 <= j < i ==> PlaceOf(positions[j]) == Ok(places[j])
    {
      var p := positions[i];
      if p == [] {
        places := places + [Nil];
      } else {
        var top := p[FirstMaxIndex(Counts(p))].code;
        if top == [] {
          return Err(EmptyPositionCode);
        }
        places := places + [PlaceOfLetter(top[|top| - 1])];
      }
    }
    r := Ok(places);
  }

  // ---------------------------------------------------------------------
  // The age parser (dataset_generator.py:261-263)

  /** An age "years-days" becomes its years; an age never written stays 0. */
  function AgeYears(a: Age): Result<nat, DatasetError>
  {
    match a
    case Unset => Ok(0)
    case Given(text) =>
      var head := Split(text, "-")[0];
      if IsNumeral(head) then Ok(DigitsValue(head)) else Err(NotAnAge(text))
  }

  /** The age column of a table with the given header; a header without
      "age" raises, and otherwise the first age that is not "years-days"
      raises. */
  function Ages(header: seq<string>, ages: seq<Age>): (r: Result<seq<nat>, DatasetError>)
    ensures "age" !in header ==> r == Err(MissingColumn("age"))
    ensures r.Ok? ==> |r.value| == |ages| && forall i :: 0 <= i < |ages| ==> AgeYears(ages[i]) == Ok(r.value[i])
    ensures r.Ok? <==> "age" in header && forall i :: 0 <= i < |ages| ==> AgeYears(ages[i]).Ok?
  {
    if "age" !in header then Err(MissingColumn("age"))
    else
      var rs := seq(|ages|, i requires 0 <= i < |ages| => AgeYears(ages[i]));
      assert forall i :: 0 <= i < |ages| ==> rs[i] == AgeYears(ages[i]);
      AllOk(rs)
  }

  /** The years of "years-days" are the number before the dash, whatever
      follows it. */
  lemma AgeOfYearsDays(years: string, days: string)
    requires IsNumeral(years)
    ensures AgeYears(Given(years + "-" + days)) == Ok(DigitsValue(years))
  {
    assert forall k :: 0 <= k < |years| ==> years[k] != '-';
    SplitAtFirstSeparator(years, '-', days);
  }

  // ---------------------------------------------------------------------
  // The minutes filter (dataset_generator.py:269-276)

  /** A row's minutes cell; `MinutesFilter` checks the table has the
      column before any row is read. */
  function Minutes(row: PlayerRow): real
  {
    Stat(row.stats, "minutes")
  }

  /** `player_stats["minutes"] > threshold` and the selection by it: a
      header without "minutes" raises, otherwise the kept rows are
      `Retained`. */
  function MinutesFilter(header: seq<string>, rows: seq<PlayerRow>, threshold: real): (r: Result<seq<PlayerRow>, DatasetError>)
    ensures r.Err? <==> "minutes" !in header
    ensures r.Err? ==> r.error == MissingColumn("minutes")
    ensures r.Ok? ==> forall x :: x in r.value <==> x in rows && Minutes(x) > threshold
  {
    if "minutes" !in header then Err(MissingColumn("minutes"))
    else
      RetainedExact(rows, threshold);
      Ok(Retained(rows, threshold))
  }

  /** The rows with strictly more minutes than the threshold, in order. */
  function Retained(rows: seq<PlayerRow>, threshold: real): (r: seq<PlayerRow>)
    ensures |r| <= |rows|
    ensures forall x :: x in r ==> x in rows && Minutes(x) > threshold
    decreases |rows|
  {
    if rows == [] then []
    else
      var kept := Retained(rows[..|rows| - 1], threshold);
      var last := rows[|rows| - 1];
      if Minutes(last) > threshold then kept + [last] else kept
  }

  /** Every row over the threshold is kept. */
  lemma {:induction false} RetainedComplete(rows: seq<PlayerRow>, threshold: real, x: PlayerRow)
    requires x in rows && Minutes(x) > threshold
    ensures x in Retained(rows, threshold)
    decreases |rows|
  {
    var n := |rows| - 1;
    if x != rows[n] {
      assert x in rows[..n] by {
        var k :| 0 <= k < |rows| && rows[k] == x;
        assert rows[..n][k] == x;
      }
      RetainedComplete(rows[..n], threshold, x);
    }
  }

  /** The filter keeps row order: filtering a concatenation concatenates
      the filtered halves. */
  lemma {:induction false} RetainedAppend(a: seq<PlayerRow>, b: seq<PlayerRow>, threshold: real)
    ensures Retained(a + b, threshold) == Retained(a, threshold) + Retained(b, threshold)
    decreases |b|
  {
    if b == [] {
      assert a + b == a;
    } else {
      var n := |b| - 1;
      assert (a + b)[..|a + b| - 1] == a + b[..n];
      RetainedAppend(a, b[..n], threshold);
    }
  }

  /** Exactly the rows over the threshold are kept. */
  lemma RetainedExact(rows: seq<PlayerRow>, threshold: real)
    ensures forall x :: x in Retained(rows, threshold) <==> x in rows && Minutes(x) > threshold
  {
    forall x | x in rows && Minutes(x) > threshold
      ensures x in Retained(rows, threshold)
    {
      RetainedComplete(rows, threshold, x);
    }
  }

  /** `filtered_players`: the names of the kept rows, in order; a name is
      listed exactly when some row carrying it has more minutes than the
      threshold. */
  function FilteredNames(rows: seq<PlayerRow>, threshold: real): (names: seq<string>)
    ensures |names| == |Retained(rows, threshold)|
    ensures forall n :: n in names <==> exists x :: x in rows && x.name == n && Minutes(x) > threshold
  {
    var kept := Retained(rows, threshold);
    RetainedExact(rows, threshold);
    var names := PlayerRowNames(kept);
    assert forall n :: n in names <==> exists i :: 0 <= i < |kept| && kept[i].name == n;
    names
  }

  // ---------------------------------------------------------------------
  // team_position (dataset_generator.py:278-283)

  function PointsOf(teams: seq<TeamRow>): (pts: seq<nat>)
    ensures |pts| == |teams|
  {
    seq(|teams|, i requires 0 <= i < |teams| => teams[i].overall.pts)
  }

  /** The code as written: the sorted frame's fresh index 0..n-1 is
      assigned by position, so row i gets i + 1 whatever the points. */
  function PositionsAsWritten(teams: seq<TeamRow>): (r: seq<nat>)
    ensures |r| == |teams|
  {
    seq(|teams|, i requires 0 <= i < |teams| => i + 1)
  }

  /** The points never matter to the positions as written. */
  lemma PositionsIgnorePoints(a: seq<TeamRow>, b: seq<TeamRow>)
    requires |a| == |b|
    ensures PositionsAsWritten(a) == PositionsAsWritten(b)
  {
  }

  /** Team k comes before team i in the points order (ascending, ties in
      row order). */
  predicate Ahead(pts: seq<nat>, k: nat, i: nat)
    requires k < |pts| && i < |pts|
  {
    pts[k] < pts[i] || (pts[k] == pts[i] && k < i)
  }

  /** How many of the first m teams come before team i. */
  function CountAhead(pts: seq<nat>, i: nat, m: nat): (c: nat)
    requires i < |pts| && m <= |pts|
    ensures c <= m
  {
    if m == 0 then 0 else CountAhead(pts, i, m - 1) + (if Ahead(pts, m - 1, i) then 1 else 0)
  }

  /** The position the points sort gives team i. */
  function PointsPosition(pts: seq<nat>, i: nat): nat
    requires i < |pts|
  {
    1 + CountAhead(pts, i, |pts|)
  }

  /** The positions the sort computes, each aligned with its own team. */
  function Positions(teams: seq<TeamRow>): (r: seq<nat>)
    ensures |r| == |teams|
  {
    var pts := PointsOf(teams);
    seq(|teams|, i requires 0 <= i < |teams| => PointsPosition(pts, i))
  }

  lemma {:induction false} CountAheadNotSelf(pts: seq<nat>, i: nat, m: nat)
    requires i < m <= |pts|
    ensures CountAhead(pts, i, m) < m
  {
    if m - 1 != i {
      CountAheadNotSelf(pts, i, m - 1);
    }
  }

  /** A team before j has fewer teams before it than j, counted over any
      prefix that holds it. */
  lemma {:induction false} CountAheadGrows(pts: seq<nat>, i: nat, j: nat, m: nat)
    requires i < |pts| && j < |pts| && m <= |pts| && Ahead(pts, i, j)
    ensures CountAhead(pts, i, m) <= CountAhead(pts, j, m)
    ensures i < m ==> CountAhead(pts, i, m) < CountAhead(pts, j, m)
  {
    if m > 0 {
      CountAheadGrows(pts, i, j, m - 1);
      var k := m - 1;
      assert Ahead(pts, k, i) ==> Ahead(pts, k, j);
      assert k == i ==> !Ahead(pts, k, i) && Ahead(pts, k, j);
    }
  }

  /** The positions are 1..n, each used once, and more points never give
      a smaller position. */
  lemma PositionsArePlaces(teams: seq<TeamRow>)
    ensures forall i :: 0 <= i < |teams| ==> 1 <= Positions(teams)[i] <= |teams|
    ensures forall i, j :: 0 <= i < |teams| && 0 <= j < |teams| && i != j ==> Positions(teams)[i] != Positions(teams)[j]
    ensures forall i, j :: 0 <= i < |teams| && 0 <= j < |teams| && teams[i].overall.pts < teams[j].overall.pts ==>
      Positions(teams)[i] < Positions(teams)[j]
  {
    var pts := PointsOf(teams);
    var r := Positions(teams);
    forall i | 0 <= i < |teams|
      ensures 1 <= r[i] <= |teams|
    {
      CountAheadNotSelf(pts, i, |pts|);
    }
    forall i, j | 0 <= i < |teams| && 0 <= j < |teams| && Ahead(pts, i, j)
      ensures r[i] < r[j]
    {
      CountAheadGrows(pts, i, j, |pts|);
    }
  }

  /** Two teams listed with 3 and 0 points: as written the 3-point team is
      first, while the points order puts it second. */
  lemma PositionCounterexample(a: TeamRow, b: TeamRow)
    requires a.overall.pts == 3 && b.overall.pts == 0
    ensures PositionsAsWritten([a, b]) == [1, 2]
    ensures Positions([a, b]) == [2, 1]
  {
    var pts := PointsOf([a, b]);
    assert pts == [3, 0];
    assert CountAhead(pts, 0, 2) == 1;
    assert CountAhead(pts, 1, 2) == 0;
  }

  // ---------------------------------------------------------------------
  // The outcome labels (dataset_generator.py:306-352)

  datatype Labels = Labels(
    oneGoal: bool, twoGoals: bool, threeGoals: bool, threeGoalsPlus: bool,
    oneAssist: bool, twoAssists: bool, threeAssists: bool, threeAssistsPlus: bool,
    played60: bool, played60Plus: bool)

  /** The labels of a player before the pass: all false. */
  function NoLabels(): Labels
  {
    Labels(false, false, false, false, false, false, false, false, false, false)
  }

  /** The flags of one label row. */
  function LabelsOf(goals: real, assists: real, minutes: real): (l: Labels)
    ensures l.threeGoalsPlus ==> l.threeGoals
    ensures l.threeGoals ==> l.twoGoals
    ensures l.twoGoals ==> l.oneGoal
    ensures l.threeAssistsPlus ==> l.threeAssists
    ensures l.threeAssists ==> l.twoAssists
    ensures l.twoAssists ==> l.oneAssist
    ensures l.played60Plus ==> l.played60
  {
    Labels(goals >= 1.0, goals >= 2.0, goals >= 3.0, goals > 3.0,
           assists >= 1.0, assists >= 2.0, assists >= 3.0, assists > 3.0,
           minutes >= 60.0, minutes > 60.0)
  }

  /** For whole counts the flags are bands: exactly one, two, three, or
      more; and exactly 60 minutes sets PLAYED_60 alone. */
  lemma GoalBands(g: nat, a: nat, m: real)
    ensures var l := LabelsOf(g as real, a as real, m);
      (l.oneGoal && !l.twoGoals <==> g == 1) &&
      (l.twoGoals && !l.threeGoals <==> g == 2) &&
      (l.threeGoals && !l.threeGoalsPlus <==> g == 3) &&
      (l.threeGoalsPlus <==> g >= 4) &&
      (l.threeAssistsPlus <==> a >= 4) &&
      (l.played60 && !l.played60Plus <==> m == 60.0)
  {
  }

  /** `stats.loc[stats['player'] == player]`'s first row. */
  function FirstNamed(stats: seq<PlayerRow>, name: string): (r: Option<PlayerRow>)
    ensures r.Some? ==> r.value in stats && r.value.name == name
    ensures r.None? ==> forall i :: 0 <= i < |stats| ==> stats[i].name != name
  {
    if stats == [] then None
    else if stats[0].name == name then Some(stats[0])
    else FirstNamed(stats[1..], name)
  }

  /** The first index holding `x` in a list that holds it. */
  function FirstIndex(s: seq<string>, x: string): (i: nat)
    requires x in s
    ensures i < |s| && s[i] == x
    ensures forall j :: 0 <= j < i ==> s[j] != x
  {
    if s[0] == x then 0 else 1 + FirstIndex(s[1..], x)
  }

  function LabelsOfRow(row: PlayerRow): Labels
  {
    LabelsOf(Stat(row.stats, "goals"), Stat(row.stats, "assists"), Stat(row.stats, "minutes"))
  }

  /** What one filtered player's step raises, in the order the code reads:
      `row['goals']` before `.values[0]`, then `row['assists']`, then
      `row['minutes']`. */
  function LabelStepError(header: seq<string>, stats: seq<PlayerRow>, p: string): (r: Option<DatasetError>)
    ensures r.None? <==> FirstNamed(stats, p).Some? && "goals" in header && "assists" in header && "minutes" in header
  {
    if "goals" !in header then Some(MissingColumn("goals"))
    else if FirstNamed(stats, p).None? then Some(MissingPlayer(p))
    else if "assists" !in header then Some(MissingColumn("assists"))
    else if "minutes" !in header then Some(MissingColumn("minutes"))
    else None
  }

  /** The label table after the first n filtered players: each writes its
      labels into the first row carrying its name. */
  function LabelPass(header: seq<string>, stats: seq<PlayerRow>, filtered: seq<string>, n: nat): (r: Result<seq<Labels>, DatasetError>)
    requires n <= |filtered|
    ensures r.Ok? ==> |r.value| == |filtered|
  {
    if n == 0 then Ok(seq(|filtered|, _ => NoLabels()))
    else
      match LabelPass(header, stats, filtered, n - 1)
      case Err(e) => Err(e)
      case Ok(y) =>
        var p := filtered[n - 1];
        match LabelStepError(header, stats, p)
        case Some(e) => Err(e)
        case None => Ok(y[FirstIndex(filtered, p) := LabelsOfRow(FirstNamed(stats, p).value)])
  }

  /** A player table without one of the three label columns makes the pass
      raise as soon as there is a player to label, and raise on "goals"
      first. */
  lemma {:induction false} LabelPassNeedsColumns(header: seq<string>, stats: seq<PlayerRow>, filtered: seq<string>, n: nat)
    requires 0 < n <= |filtered|
    ensures LabelPass(header, stats, filtered, n).Ok? ==>
      "goals" in header && "assists" in header && "minutes" in header
    ensures "goals" !in header ==> LabelPass(header, stats, filtered, n) == Err(MissingColumn("goals"))
  {
    if n > 1 {
      LabelPassNeedsColumns(header, stats, filtered, n - 1);
    }
  }

  /** With distinct names every player's row carries the labels of its own
      statistics, and the rows not reached yet are all false. */
  lemma {:induction false} LabelPassRows(header: seq<string>, stats: seq<PlayerRow>, filtered: seq<string>, n: nat)
    requires n <= |filtered| && NoDuplicates(filtered) && LabelPass(header, stats, filtered, n).Ok?
    ensures forall i :: 0 <= i < n ==>
      FirstNamed(stats, filtered[i]).Some? &&
      LabelPass(header, stats, filtered, n).value[i] == LabelsOfRow(FirstNamed(stats, filtered[i]).value)
    ensures forall i :: n <= i < |filtered| ==> LabelPass(header, stats, filtered, n).value[i] == NoLabels()
  {
    if n > 0 {
      LabelPassRows(header, stats, filtered, n - 1);
      var p := filtered[n - 1];
      var k := FirstIndex(filtered, p);
      assert forall j :: 0 <= j < n - 1 ==> filtered[j] != p;
      assert k == n - 1;
    }
  }

  /** A player listed twice writes the first row twice and leaves the
      second all false. */
  lemma DuplicateNameLeavesRowUnset(header: seq<string>, stats: seq<PlayerRow>, p: string)
    requires FirstNamed(stats, p).Some?
    requires "goals" in header && "assists" in header && "minutes" in header
    ensures LabelPass(header, stats, [p, p], 2).Ok?
    ensures LabelPass(header, stats, [p, p], 2).value[1] == NoLabels()
  {
    var row := FirstNamed(stats, p).value;
    assert FirstIndex([p, p], p) == 0;
    var y0 := seq(2, _ => NoLabels());
    assert LabelPass(header, stats, [p, p], 0) == Ok(y0);
    assert LabelPass(header, stats, [p, p], 1) == Ok(y0[0 := LabelsOfRow(row)]);
    assert LabelPass(header, stats, [p, p], 2) == Ok(y0[0 := LabelsOfRow(row)][0 := LabelsOfRow(row)]);
  }

  /** The label pass over the filtered players, updating the label table
      row by row. */
  method LabelRows(header: seq<string>, stats: seq<PlayerRow>, filtered: seq<string>) returns (r: Result<seq<Labels>, DatasetError>)
    ensures r == LabelPass(header, stats, filtered, |filtered|)
  {
    var y := seq(|filtered|, _ => NoLabels());
    for n := 0 to |filtered|
      invariant LabelPass(header, stats, filtered, n) == Ok(y)
    {
      var p := filtered[n];
      var row := FirstNamed(stats, p);
      var idx := FirstIndex(filtered, p);
      var e: Option<DatasetError> := None;
      if "goals" !in header {
        e := Some(MissingColumn("goals"));
      } else if row.None? {
        e := Some(MissingPlayer(p));
      } else if "assists" !in header {
        e := Some(MissingColumn("assists"));
      } else if "minutes" !in header {
        e := Some(MissingColumn("minutes"));
      }
      if e.Some? {
        LabelErrorStands(header, stats, filtered, n + 1, |filtered|);
        return Err(e.value);
      }
      y := y[idx := LabelsOfRow(row.value)];
    }
    r := Ok(y);
  }

  /** Once a player is missing, the pass ends with that error. */
  lemma {:induction false} LabelErrorStands(header: seq<string>, stats: seq<PlayerRow>, filtered: seq<string>, n: nat, m: nat)
    requires n <= m <= |filtered| && LabelPass(header, stats, filtered, n).Err?
    ensures LabelPass(header, stats, filtered, m) == LabelPass(header, stats, filtered, n)
    decreases m
  {
    if m > n {
      LabelErrorStands(header, stats, filtered, n, m - 1);
    }
  }
}
