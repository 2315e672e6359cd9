/** Optional values and results with an error, shared by every module of the model. */
module Basics {

  datatype Option<+T> = None | Some(value: T)

  datatype Result<+T, +E> = Ok(value: T) | Err(error: E)

  /** Number of occurrences of `x` in `s` (Python's `list.count`). */
  function Occurrences<T(==)>(s: seq<T>, x: T): (n: nat)
    ensures n <= |s|
    ensures x !in s ==> n == 0
  {
    if s == [] then 0 else (if s[0] == x then 1 else 0) + Occurrences(s[1..], x)
  }

  lemma {:induction false} OccurrencesAppend<T>(a: seq<T>, b: seq<T>, x: T)
    ensures Occurrences(a + b, x) == Occurrences(a, x) + Occurrences(b, x)
    decreases |a|
  {
    if a != [] {
      assert (a + b)[1..] == a[1..] + b;
      OccurrencesAppend(a[1..], b, x);
    } else {
      assert a + b == b;
    }
  }

  /** Counting in a list extended by one element. */
  lemma {:induction false} OccurrencesLast<T>(s: seq<T>, x: T)
    requires s != []
    ensures Occurrences(s, x) == Occurrences(s[..|s| - 1], x) + (if s[|s| - 1] == x then 1 else 0)
  {
    assert s == s[..|s| - 1] + [s[|s| - 1]];
    OccurrencesAppend(s[..|s| - 1], [s[|s| - 1]], x);
  }

  /** A list comprehension whose every element may raise: the values when
      none raises, otherwise the first error in list order. */
  function AllOk<T(==), E(==)>(rs: seq<Result<T, E>>): (r: Result<seq<T>, E>)
    ensures r.Ok? <==> forall i :: 0 <= i < |rs| ==> rs[i].Ok?
    ensures r.Ok? ==> |r.value| == |rs| && forall i :: 0 <= i < |rs| ==> rs[i] == Ok(r.value[i])
    ensures r.Err? ==> exists i :: 0 <= i < |rs| && rs[i] == Err(r.error) && forall j :: 0 <= j < i ==> rs[j].Ok?
  {
    if rs == [] then Ok([])
    else if rs[0].Err? then Err(rs[0].error)
    else
      match AllOk(rs[1..])
      case Err(e) =>
        assert forall i :: 1 <= i <= |rs[1..]| ==> rs[i] == rs[1..][i - 1];
        Err(e)
      case Ok(vs) => Ok([rs[0].value] + vs)
  }

  /** No element occurs twice. */
  predicate NoDuplicates<T(==)>(s: seq<T>) {
    forall i, j :: 0 <= i < j < |s| ==> s[i] != s[j]
  }

  function Min(a: int, b: int): int { if a <= b then a else b }

  /** `v` added up `k` times. */
  function Times(k: nat, v: real): real
  {
    if k == 0 then 0.0 else Times(k - 1, v) + v
  }

  lemma {:induction false} TimesIsProduct(k: nat, v: real)
    ensures Times(k, v) == (k as real) * v
  {
    if k > 0 {
      TimesIsProduct(k - 1, v);
      assert (k as real) * v == ((k - 1) as real) * v + v;
    }
  }

  /** `m` added up `k` times. */
  function TimesNat(k: nat, m: nat): nat
  {
    if k == 0 then 0 else TimesNat(k - 1, m) + m
  }

  lemma {:induction false} TimesNatIsProduct(k: nat, m: nat)
    ensures TimesNat(k, m) == k * m
  {
    if k > 0 {
      TimesNatIsProduct(k - 1, m);
      assert k * m == (k - 1) * m + m;
    }
  }
}
