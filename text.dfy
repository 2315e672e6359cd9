/** The string operations the aggregation core uses: Python's `str.split`,
    `int()` on a string of digits, Python's ordering of strings and
    `sorted()` over them, the fantasy-feed name normalisation and the
    manager-name extraction of the match-info record. */
module Text {
  import opened Basics

  /** `s` begins with `prefix`. */
  predicate StartsWith(s: string, prefix: string) {
    |prefix| <= |s| && s[..|prefix|] == prefix
  }

  /** `sub` occurs somewhere in `s` (Python's `sub in s`). */
  predicate Contains(s: string, sub: string)
    decreases |s|
  {
    StartsWith(s, sub) || (s != [] && Contains(s[1..], sub))
  }

  // ---------------------------------------------------------------------
  // str.split(sep) and its inverse

  /** Python's `s.split(sep)` for a non-empty separator: scanning left to
      right, `s` is cut at every occurrence of `sep`, and the characters of
      one cut are never reused by the next. */
  function Split(s: string, sep: string): (parts: seq<string>)
    requires sep != []
    ensures |parts| >= 1
    decreases |s|
  {
    if StartsWith(s, sep) then [[]] + Split(s[|sep|..], sep)
    else if s == [] then [[]]
    else
      var rest := Split(s[1..], sep);
      [[s[0]] + rest[0]] + rest[1..]
  }

  /** Python's `sep.join(parts)`. */
  function Join(parts: seq<string>, sep: string): string
    requires |parts| >= 1
    decreases |parts|
  {
    if |parts| == 1 then parts[0] else parts[0] + sep + Join(parts[1..], sep)
  }

  /** Joining the parts of a split gives back the string that was split. */
  lemma {:induction false} JoinSplit(s: string, sep: string)
    requires sep != []
    ensures Join(Split(s, sep), sep) == s
    decreases |s|
  {
    var parts := Split(s, sep);
    if StartsWith(s, sep) {
      var tail := Split(s[|sep|..], sep);
      JoinSplit(s[|sep|..], sep);
      assert parts[0] == [] && parts[1..] == tail;
      calc {
        Join(parts, sep);
        parts[0] + sep + Join(parts[1..], sep);
        sep + s[|sep|..];
        s;
      }
    } else if s != [] {
      var rest := Split(s[1..], sep);
      JoinSplit(s[1..], sep);
      assert parts[0] == [s[0]] + rest[0] && parts[1..] == rest[1..];
      if |rest| == 1 {
        calc {
          Join(parts, sep);
          [s[0]] + rest[0];
          [s[0]] + s[1..];
          s;
        }
      } else {
        JoinConsFirst(s[0], rest, sep);
        assert parts == [[s[0]] + rest[0]] + rest[1..];
      }
    }
  }

  /** Putting a character in front of the first part puts it in front of
      the join. */
  lemma JoinConsFirst(c: char, parts: seq<string>, sep: string)
    requires |parts| >= 1
    ensures Join([[c] + parts[0]] + parts[1..], sep) == [c] + Join(parts, sep)
  {
    var q := [[c] + parts[0]] + parts[1..];
    assert q[1..] == parts[1..];
  }

  /** The first part of a split is a prefix of the string. */
  lemma {:induction false} FirstPartIsPrefix(s: string, sep: string)
    requires sep != []
    ensures StartsWith(s, Split(s, sep)[0])
    decreases |s|
  {
    if !StartsWith(s, sep) && s != [] {
      FirstPartIsPrefix(s[1..], sep);
    }
  }

  /** A string without the separator is not cut. */
  lemma {:induction false} SplitWithoutSeparator(s: string, sep: string)
    requires sep != [] && !Contains(s, sep)
    ensures Split(s, sep) == [s]
    decreases |s|
  {
    if s != [] {
      SplitWithoutSeparator(s[1..], sep);
      assert [s[0]] + s[1..] == s;
    }
  }

  /** A prefix of a string that does not start with `sep` does not start
      with `sep` either. */
  lemma PrefixStartsWith(p: string, s: string, sep: string)
    requires StartsWith(s, p) && StartsWith(p, sep)
    ensures StartsWith(s, sep)
  {
    assert s[..|sep|] == p[..|sep|];
  }

  /** No part of a split contains the separator. */
  lemma {:induction false} SplitPartsAvoidSeparator(s: string, sep: string)
    requires sep != []
    ensures forall k :: 0 <= k < |Split(s, sep)| ==> !Contains(Split(s, sep)[k], sep)
    decreases |s|
  {
    var parts := Split(s, sep);
    if StartsWith(s, sep) {
      var tail := Split(s[|sep|..], sep);
      SplitPartsAvoidSeparator(s[|sep|..], sep);
      assert !Contains(parts[0], sep);
      forall k | 1 <= k < |parts| ensures !Contains(parts[k], sep) {
        assert parts[k] == tail[k - 1];
      }
    } else if s != [] {
      var rest := Split(s[1..], sep);
      SplitPartsAvoidSeparator(s[1..], sep);
      FirstPartIsPrefix(s, sep);
      var first := [s[0]] + rest[0];
      assert parts[0] == first && first[1..] == rest[0];
      if StartsWith(first, sep) {
        PrefixStartsWith(first, s, sep);
      }
      assert !Contains(first, sep);
      forall k | 1 <= k < |parts| ensures !Contains(parts[k], sep) {
        assert parts[k] == rest[k];
      }
    }
  }

  /** A split yields more than one part exactly when the separator occurs. */
  lemma SplitOnlyAtSeparator(s: string, sep: string)
    requires sep != []
    ensures !Contains(s, sep) <==> Split(s, sep) == [s]
    ensures !Contains(s, sep) <==> |Split(s, sep)| == 1
  {
    JoinSplit(s, sep);
    if !Contains(s, sep) {
      SplitWithoutSeparator(s, sep);
    } else {
      SplitPartsAvoidSeparator(s, sep);
      assert !Contains(Split(s, sep)[0], sep);
    }
  }

  /** A string made of characters other than `c` does not contain `[c]`. */
  lemma {:induction false} NoCharNoContains(s: string, c: char)
    ensures c !in s <==> !Contains(s, [c])
    decreases |s|
  {
    if s != [] {
      NoCharNoContains(s[1..], c);
      assert c in s <==> s[0] == c || c in s[1..] by {
        assert s == [s[0]] + s[1..];
      }
    }
  }

  /** Cutting `a + [c] + b` at the one-character separator `c`, when `a`
      does not contain `c`, gives `a` followed by the parts of `b`. */
  lemma {:induction false} SplitAtFirstSeparator(a: string, c: char, b: string)
    requires c !in a
    ensures Split(a + [c] + b, [c]) == [a] + Split(b, [c])
    decreases |a|
  {
    var s := a + [c] + b;
    if a == [] {
      assert s == [c] + b;
      assert StartsWith(s, [c]);
      assert s[1..] == b;
    } else {
      assert s[0] == a[0] && a[0] != c;
      assert !StartsWith(s, [c]);
      assert s[1..] == a[1..] + [c] + b;
      SplitAtFirstSeparator(a[1..], c, b);
      assert [a[0]] + a[1..] == a;
    }
  }

  /** Round trip for a one-character separator: splitting a join of parts
      that avoid the separator gives the parts back. */
  lemma {:induction false} SplitJoin(parts: seq<string>, c: char)
    requires |parts| >= 1
    requires forall k :: 0 <= k < |parts| ==> c !in parts[k]
    ensures Split(Join(parts, [c]), [c]) == parts
    decreases |parts|
  {
    if |parts| == 1 {
      NoCharNoContains(parts[0], c);
      SplitWithoutSeparator(parts[0], [c]);
    } else {
      SplitJoin(parts[1..], c);
      assert Join(parts, [c]) == parts[0] + [c] + Join(parts[1..], [c]);
      SplitAtFirstSeparator(parts[0], c, Join(parts[1..], [c]));
      assert [parts[0]] + parts[1..] == parts;
    }
  }

  /** The last part of a split is a suffix of the string; when there are
      several parts, the separator stands right before it. */
  lemma LastPartIsSuffix(s: string, sep: string)
    requires sep != []
    ensures var parts := Split(s, sep); var last := parts[|parts| - 1];
      |last| <= |s| && s[|s| - |last|..] == last &&
      (|parts| > 1 ==> |last| + |sep| <= |s| && s[|s| - |last| - |sep|..|s| - |last|] == sep)
  {
    JoinSplit(s, sep);
    JoinEndsWithLast(Split(s, sep), sep);
  }

  lemma {:induction false} JoinEndsWithLast(parts: seq<string>, sep: string)
    requires |parts| >= 1
    ensures var j := Join(parts, sep); var last := parts[|parts| - 1];
      |last| <= |j| && j[|j| - |last|..] == last &&
      (|parts| > 1 ==> |last| + |sep| <= |j| && j[|j| - |last| - |sep|..|j| - |last|] == sep)
    decreases |parts|
  {
    if |parts| > 1 {
      JoinEndsWithLast(parts[1..], sep);
      var tail := Join(parts[1..], sep);
      var last := parts[|parts| - 1];
      assert last == parts[1..][|parts[1..]| - 1];
      var head := parts[0] + sep;
      var j := Join(parts, sep);
      assert j == head + tail;
      assert j[|j| - |last|..] == tail[|tail| - |last|..];
      if |parts| > 2 {
        assert j[|j| - |last| - |sep|..|j| - |last|] == tail[|tail| - |last| - |sep|..|tail| - |last|];
      } else {
        assert tail == last;
        assert j[|j| - |last| - |sep|..|j| - |last|] == head[|parts[0]|..];
      }
    }
  }

  // ---------------------------------------------------------------------
  // int() on a string of digits

  predicate IsDigit(c: char) { '0' <= c <= '9' }

  predicate AllDigits(s: string) { forall i :: 0 <= i < |s| ==> IsDigit(s[i]) }

  /** What Python's `int()` accepts here: one or more decimal digits. */
  predicate IsNumeral(s: string) { |s| >= 1 && AllDigits(s) }

  function Pow10(n: nat): (p: nat)
    ensures p >= 1
  {
    if n == 0 then 1 else 10 * Pow10(n - 1)
  }

  function DigitValue(c: char): (d: nat)
    requires IsDigit(c)
    ensures d <= 9
  {
    c as int - '0' as int
  }

  /** The value of a string of decimal digits, most significant first. */
  function DigitsValue(s: string): (v: nat)
    requires AllDigits(s)
    ensures v < Pow10(|s|)
    decreases |s|
  {
    if s == [] then 0
    else
      var d := DigitValue(s[0]);
      var rest := DigitsValue(s[1..]);
      LeadingDigitBound(d, Pow10(|s| - 1), rest);
      d * Pow10(|s| - 1) + rest
  }

  /** A leading digit followed by a smaller tail stays below the next power. */
  lemma LeadingDigitBound(d: nat, p: nat, rest: nat)
    requires d <= 9 && rest < p
    ensures d * p + rest < 10 * p
  {
    assert d * p + p == (d + 1) * p;
    assert (d + 1) * p <= 10 * p;
  }

  // ---------------------------------------------------------------------
  // Python's ordering of strings (by code point, lexicographic)

  predicate LexLess(a: string, b: string)
    decreases |a|
  {
    if a == [] then b != []
    else if b == [] then false
    else if a[0] == b[0] then LexLess(a[1..], b[1..])
    else a[0] < b[0]
  }

  predicate LexLeq(a: string, b: string) { a == b || LexLess(a, b) }

  /** A smaller leading digit makes a smaller number, whatever follows. */
  lemma LeadingDigitDecides(x: nat, y: nat, p: nat, rx: nat, ry: nat)
    requires x < y && rx < p
    ensures x * p + rx < y * p + ry
  {
    var k := y - x;
    assert y * p == x * p + k * p;
    assert k * p == (k - 1) * p + p;
    assert (k - 1) * p >= 0;
  }

  /** On digit strings of the same length, Python's string order and the
      order of the numbers they spell agree. */
  lemma {:induction false} SameLengthDigitsOrder(a: string, b: string)
    requires AllDigits(a) && AllDigits(b) && |a| == |b|
    ensures LexLess(a, b) <==> DigitsValue(a) < DigitsValue(b)
    decreases |a|
  {
    if a != [] {
      var p := Pow10(|a| - 1);
      var da, db := DigitValue(a[0]), DigitValue(b[0]);
      var ra, rb := DigitsValue(a[1..]), DigitsValue(b[1..]);
      assert DigitsValue(a) == da * p + ra;
      assert DigitsValue(b) == db * p + rb;
      if a[0] == b[0] {
        SameLengthDigitsOrder(a[1..], b[1..]);
      } else if a[0] < b[0] {
        LeadingDigitDecides(da, db, p, ra, rb);
      } else {
        LeadingDigitDecides(db, da, p, rb, ra);
      }
    }
  }

  /** Strings of different lengths break that agreement: "10" sorts before
      "9" although 10 > 9. */
  lemma DigitsOrderCounterexample()
    ensures LexLess("10", "9") && DigitsValue("10") == 10 && DigitsValue("9") == 9
  {
    assert "10"[0] == '1' && "9"[0] == '9';
    assert "10"[1..] == "0";
    assert DigitsValue("0") == 0;
  }

  lemma {:induction false} LexLessIrreflexive(a: string)
    ensures !LexLess(a, a)
    decreases |a|
  {
    if a != [] { LexLessIrreflexive(a[1..]); }
  }

  lemma {:induction false} LexTotal(a: string, b: string)
    ensures LexLeq(a, b) || LexLeq(b, a)
    decreases |a|
  {
    if a != [] && b != [] && a[0] == b[0] {
      LexTotal(a[1..], b[1..]);
      if a[1..] == b[1..] {
        assert a == [a[0]] + a[1..] && b == [b[0]] + b[1..];
      }
    }
  }

  // ---------------------------------------------------------------------
  // sorted() on a list of strings

  /** Every string is at most its successor. */
  predicate Sorted(s: seq<string>) {
    forall i :: 0 < i < |s| ==> LexLeq(s[i - 1], s[i])
  }

  function Insert(x: string, s: seq<string>): (r: seq<string>)
    requires Sorted(s)
    ensures Sorted(r)
    ensures multiset(r) == multiset(s) + multiset{x}
    ensures |r| == |s| + 1
    ensures r[0] == x || (s != [] && r[0] == s[0])
  {
    if s == [] then [x]
    else if LexLeq(x, s[0]) then [x] + s
    else
      LexTotal(x, s[0]);
      var rest := Insert(x, s[1..]);
      assert s == [s[0]] + s[1..];
      [s[0]] + rest
  }

  /** Python's `sorted()` on strings. */
  function Sort(s: seq<string>): (r: seq<string>)
    ensures Sorted(r)
    ensures multiset(r) == multiset(s)
    ensures |r| == |s|
  {
    if s == [] then []
    else
      assert s == [s[0]] + s[1..];
      Insert(s[0], Sort(s[1..]))
  }

  /** Sorting a list that is already sorted leaves it as it is. */
  lemma {:induction false} SortSorted(s: seq<string>)
    requires Sorted(s)
    ensures Sort(s) == s
    decreases |s|
  {
    if s != [] {
      assert Sorted(s[1..]);
      SortSorted(s[1..]);
      if |s| > 1 {
        assert LexLeq(s[0], s[1]);
      }
    }
  }

  // ---------------------------------------------------------------------
  // Names in the fantasy feed (player_data.py:304-312)

  function ReplaceChar(s: string, c: char, d: char): (r: string)
  {
    if s == [] then [] else [if s[0] == c then d else s[0]] + ReplaceChar(s[1..], c, d)
  }

  /** The rule from season 18 on: a feed name `First_Last_Id` is cut at
      '_' and only the first two parts are kept, joined by a space. */
  function ModernName(raw: string): string
  {
    var parts := Split(raw, "_");
    if |parts| > 1 then parts[0] + " " + parts[1] else parts[0]
  }

  /** The rule before season 18: every '_' becomes a space. */
  function LegacyName(raw: string): (name: string)
    ensures '_' !in name && |name| == |raw|
  {
    ReplaceCharRemoves(raw, '_', ' ');
    ReplaceChar(raw, '_', ' ')
  }

  /** The name under which a player of the fantasy feed of `season` is
      looked up in the match sheets. */
  function FantasyName(season: int, raw: string): string
  {
    if season >= 18 then ModernName(raw) else LegacyName(raw)
  }

  lemma {:induction false} ReplaceCharRemoves(s: string, c: char, d: char)
    requires c != d
    ensures c !in ReplaceChar(s, c, d) && |ReplaceChar(s, c, d)| == |s|
    decreases |s|
  {
    if s != [] { ReplaceCharRemoves(s[1..], c, d); }
  }

  lemma {:induction false} ReplaceCharConcat(a: string, b: string, c: char, d: char)
    ensures ReplaceChar(a + b, c, d) == ReplaceChar(a, c, d) + ReplaceChar(b, c, d)
    decreases |a|
  {
    if a == [] {
      assert a + b == b;
    } else {
      assert (a + b)[1..] == a[1..] + b;
      ReplaceCharConcat(a[1..], b, c, d);
    }
  }

  lemma {:induction false} ReplaceCharAbsent(s: string, c: char, d: char)
    requires c !in s
    ensures ReplaceChar(s, c, d) == s
    decreases |s|
  {
    if s != [] { ReplaceCharAbsent(s[1..], c, d); }
  }

  /** `s` cut around its first `c`. */
  lemma {:induction false} CutAtFirst(s: string, c: char) returns (before: string, after: string)
    requires c in s
    ensures s == before + [c] + after && c !in before
    decreases |s|
  {
    if s[0] == c {
      before, after := [], s[1..];
    } else {
      assert s == [s[0]] + s[1..];
      var b, a := CutAtFirst(s[1..], c);
      before, after := [s[0]] + b, a;
    }
  }

  /** A name formatted `first_second_tag` (first and second without '_')
      normalises to `first second` from season 18 on. */
  lemma ModernNameOfTaggedName(first: string, second: string, tag: string)
    requires '_' !in first && '_' !in second
    ensures ModernName(first + "_" + second + "_" + tag) == first + " " + second
  {
    var raw := first + "_" + second + "_" + tag;
    assert raw == first + ['_'] + (second + ['_'] + tag);
    SplitAtFirstSeparator(first, '_', second + ['_'] + tag);
    SplitAtFirstSeparator(second, '_', tag);
  }

  /** A name with exactly one '_' is normalised to the same text by both rules. */
  lemma ModernNameOfOneCut(first: string, second: string)
    requires '_' !in first && '_' !in second
    ensures ModernName(first + "_" + second) == first + " " + second
  {
    NoCharNoContains(second, '_');
    SplitWithoutSeparator(second, "_");
    SplitAtFirstSeparator(first, '_', second);
  }

  lemma LegacyNameOfCut(first: string, rest: string)
    requires '_' !in first
    ensures LegacyName(first + "_" + rest) == first + " " + LegacyName(rest)
    ensures Occurrences(first + "_" + rest, '_') == 1 + Occurrences(rest, '_')
  {
    ReplaceCharConcat(first + "_", rest, '_', ' ');
    ReplaceCharConcat(first, "_", '_', ' ');
    ReplaceCharAbsent(first, '_', ' ');
    assert ReplaceChar("_", '_', ' ') == " ";
    OccurrencesAppend(first + "_", rest, '_');
    OccurrencesAppend(first, "_", '_');
  }

  /** A name without '_' is its own fantasy name under both rules. */
  lemma NamesWithoutUnderscore(raw: string)
    requires '_' !in raw
    ensures ModernName(raw) == raw && LegacyName(raw) == raw
  {
    NoCharNoContains(raw, '_');
    SplitWithoutSeparator(raw, "_");
    ReplaceCharAbsent(raw, '_', ' ');
  }

  lemma NamesOfOneCut(p0: string, rest: string)
    requires '_' !in p0 && '_' !in rest
    ensures ModernName(p0 + "_" + rest) == LegacyName(p0 + "_" + rest)
  {
    LegacyNameOfCut(p0, rest);
    ModernNameOfOneCut(p0, rest);
    NamesWithoutUnderscore(rest);
  }

  lemma LegacyNameOfTwoCuts(p0: string, p1: string, more: string)
    requires '_' !in p0 && '_' !in p1
    ensures var raw := p0 + "_" + p1 + "_" + more;
      LegacyName(raw) == (p0 + " " + p1) + (" " + LegacyName(more)) &&
      Occurrences(raw, '_') >= 2
  {
    var rest := p1 + "_" + more;
    assert p0 + "_" + rest == p0 + "_" + p1 + "_" + more;
    LegacyNameOfCut(p0, rest);
    LegacyNameOfCut(p1, more);
  }

  lemma NamesOfTwoCuts(p0: string, p1: string, more: string)
    requires '_' !in p0 && '_' !in p1
    ensures var raw := p0 + "_" + p1 + "_" + more;
      StartsWith(LegacyName(raw), ModernName(raw)) && Occurrences(raw, '_') >= 2
  {
    LegacyNameOfTwoCuts(p0, p1, more);
    ModernNameOfTaggedName(p0, p1, more);
  }

  /** The season-18 rule keeps a prefix of what the older rule produces,
      and both agree on names with at most one '_'. */
  lemma ModernNameIsPrefixOfLegacy(raw: string)
    ensures StartsWith(LegacyName(raw), ModernName(raw))
    ensures Occurrences(raw, '_') <= 1 ==> ModernName(raw) == LegacyName(raw)
  {
    if '_' !in raw {
      NamesWithoutUnderscore(raw);
    } else {
      var p0, rest := CutAtFirst(raw, '_');
      if '_' !in rest {
        NamesOfOneCut(p0, rest);
      } else {
        var p1, more := CutAtFirst(rest, '_');
        assert raw == p0 + "_" + p1 + "_" + more;
        NamesOfTwoCuts(p0, p1, more);
      }
    }
  }

  // ---------------------------------------------------------------------
  // Manager names (player_data.py:440-443)

  /** `entry.split(": ")[-1]`: the text after the last ": " of a
      "Role: Name" entry, or the whole entry when it has none. */
  function ManagerName(entry: string): (name: string)
    ensures |name| <= |entry| && entry[|entry| - |name|..] == name
    ensures !Contains(name, ": ")
    ensures !Contains(entry, ": ") ==> name == entry
    ensures Contains(entry, ": ") ==>
      |name| + 2 <= |entry| && entry[|entry| - |name| - 2..|entry| - |name|] == ": "
  {
    var parts := Split(entry, ": ");
    LastPartIsSuffix(entry, ": ");
    SplitPartsAvoidSeparator(entry, ": ");
    SplitOnlyAtSeparator(entry, ": ");
    parts[|parts| - 1]
  }
}
