/** Shared vocabulary: failure-carrying results, Python-style sequence
    indexing, sums and means over reals, substring search and decimal
    renderings of numbers. */
module Common {

  datatype Option<+T> = None | Some(value: T)

  /** The kinds of Python exception the model distinguishes. */
  datatype Failure =
    | KeyError
    | IndexError
    | ValueError
    | ZeroDivisionError
    | TypeError

  datatype Result<+T> = Ok(value: T) | Err(error: Failure)

  /** `s[i]` with Python's reading of a negative index (counted from the end);
      `None` where Python raises IndexError. */
  function PyAt<T>(s: seq<T>, i: int): (r: Option<T>)
    ensures r.Some? <==> -|s| <= i < |s|
    ensures 0 <= i < |s| ==> r == Some(s[i])
    ensures -|s| <= i < 0 ==> r == Some(s[|s| + i])
  {
    if 0 <= i < |s| then Some(s[i])
    else if -|s| <= i < 0 then Some(s[|s| + i])
    else None
  }

  /** Python's `s[k:]`: a negative start counts from the end, a start past
      either end is clamped. */
  function PySuffix<T>(s: seq<T>, k: int): (r: seq<T>)
    ensures k >= 0 ==> r == s[if k <= |s| then k else |s|..]
    ensures k < 0 ==> r == s[if -k <= |s| then |s| + k else 0..]
    ensures |r| == if k >= 0 then (if k <= |s| then |s| - k else 0)
                   else (if -k <= |s| then -k else |s|)
  {
    if k >= 0 then s[if k <= |s| then k else |s|..]
    else s[if -k <= |s| then |s| + k else 0..]
  }

  function Sum(s: seq<real>): real
  {
    if s == [] then 0.0 else Sum(s[..|s| - 1]) + s[|s| - 1]
  }

  lemma {:induction false} SumAppend(s: seq<real>, t: seq<real>)
    ensures Sum(s + t) == Sum(s) + Sum(t)
  {
    if t == [] {
      assert s + t == s;
    } else {
      assert (s + t)[..|s + t| - 1] == s + t[..|t| - 1];
      SumAppend(s, t[..|t| - 1]);
    }
  }

  lemma {:induction false} SumConstant(s: seq<real>, c: real)
    requires forall i :: 0 <= i < |s| ==> s[i] == c
    ensures Sum(s) == |s| as real * c
  {
    if s != [] {
      SumConstant(s[..|s| - 1], c);
    }
  }

  /** numpy's `mean` of a real-valued list; `None` for the empty list, where
      numpy yields NaN. */
  function Mean(s: seq<real>): (r: Option<real>)
    ensures r.Some? <==> |s| > 0
  {
    if |s| == 0 then None else Some(Sum(s) / |s| as real)
  }

  lemma MeanOfConstant(s: seq<real>, c: real)
    requires |s| > 0
    requires forall i :: 0 <= i < |s| ==> s[i] == c
    ensures Mean(s) == Some(c)
  {
    SumConstant(s, c);
    var n := |s| as real;
    assert Sum(s) / n == (n * c) / n == c;
  }

  /** Python's `a in s` on strings. */
  predicate IsSubstring(a: string, s: string)
  {
    a <= s || (|s| > 0 && IsSubstring(a, s[1..]))
  }

  predicate NoDuplicates<T(==)>(s: seq<T>)
  {
    forall i, j :: 0 <= i < j < |s| ==> s[i] != s[j]
  }

  /** A list with one more element has no duplicates exactly when the
      list has none and does not hold the element. */
  lemma NoDuplicatesSnoc<T>(s: seq<T>, x: T)
    ensures NoDuplicates(s + [x]) <==> NoDuplicates(s) && x !in s
  {
    var t := s + [x];
    assert forall i :: 0 <= i < |s| ==> t[i] == s[i];
    assert t[|s|] == x;
  }

  /** The first and the last character of each non-empty string. */
  function Ends(s: seq<string>): (r: seq<(char, char)>)
    requires forall i :: 0 <= i < |s| ==> s[i] != []
    ensures |r| == |s| && forall i :: 0 <= i < |s| ==> r[i] == (s[i][0], s[i][|s[i]| - 1])
  {
    seq(|s|, i requires 0 <= i < |s| => (s[i][0], s[i][|s[i]| - 1]))
  }

  /** Strings whose ends differ pairwise are distinct. */
  lemma DistinctEnds(s: seq<string>)
    requires forall i :: 0 <= i < |s| ==> s[i] != []
    requires NoDuplicates(Ends(s))
    ensures NoDuplicates(s)
  {
    forall i, j | 0 <= i < j < |s|
      ensures s[i] != s[j]
    {
      assert Ends(s)[i] != Ends(s)[j];
    }
  }

  function Elements<T(==)>(s: seq<T>): set<T>
  {
    set x | x in s
  }

  /** Lists the elements of a set in an unspecified order, as Python's
      `list(some_set)` does. */
  method ListOf<T(==)>(s: set<T>) returns (r: seq<T>)
    ensures Elements(r) == s
    ensures NoDuplicates(r)
    ensures |r| == |s|
  {
    r := [];
    var rest := s;
    while rest != {}
      invariant rest <= s
      invariant Elements(r) == s - rest
      invariant NoDuplicates(r)
      invariant |r| + |rest| == |s|
      decreases |rest|
    {
      var x :| x in rest;
      assert Elements(r + [x]) == Elements(r) + {x};
      r := r + [x];
      rest := rest - {x};
    }
  }

  // ---------------------------------------------------------------------
  // Decimal numerals, as Python's '%d' writes a natural number.

  function DigitChar(d: nat): (c: char)
    requires d < 10
    ensures '0' <= c <= '9'
  {
    ['0', '1', '2', '3', '4', '5', '6', '7', '8', '9'][d]
  }

  function DigitValue(c: char): (d: nat)
    requires '0' <= c <= '9'
    ensures d < 10
  {
    (c as int - '0' as int) as nat
  }

  lemma DigitRoundTrip(d: nat)
    requires d < 10
    ensures DigitValue(DigitChar(d)) == d
  {
  }

  predicate AllDigits(s: string)
  {
    forall i :: 0 <= i < |s| ==> '0' <= s[i] <= '9'
  }

  /** The decimal numeral of `n` without leading zeros. */
  function NatToString(n: nat): (s: string)
    ensures |s| > 0 && AllDigits(s)
    ensures |s| > 1 ==> s[0] != '0'
  {
    if n < 10 then [DigitChar(n)] else NatToString(n / 10) + [DigitChar(n % 10)]
  }

  /** Reads a string of digits as a natural number (most significant first). */
  function DigitsValue(s: string): nat
    requires AllDigits(s)
  {
    if s == [] then 0 else DigitsValue(s[..|s| - 1]) * 10 + DigitValue(s[|s| - 1])
  }

  lemma {:induction false} NatToStringRoundTrip(n: nat)
    ensures DigitsValue(NatToString(n)) == n
  {
    var s := NatToString(n);
    if n < 10 {
      DigitRoundTrip(n);
    } else {
      NatToStringRoundTrip(n / 10);
      assert s[..|s| - 1] == NatToString(n / 10);
      DigitRoundTrip(n % 10);
    }
  }

  lemma NatToStringInjective(m: nat, n: nat)
    requires NatToString(m) == NatToString(n)
    ensures m == n
  {
    NatToStringRoundTrip(m);
    NatToStringRoundTrip(n);
  }
}
