/** Shared vocabulary of the model: optional values and error returns, bytes,
    filtering and counting over sequences, Python's int-to-text, and the
    ASCII helpers (`bytes.decode('ascii')`, `str.strip()`) the analyzers use. */
module Common {

  datatype Option<T> = None | Some(value: T)

  /** The value a Python function returns, or the exception it raises. */
  datatype Result<T, E> = Ok(value: T) | Err(error: E)

  /** A check that either passes or raises. */
  datatype Outcome<E> = Pass | Fail(error: E)

  type Byte = b: int | 0 <= b < 256

  // ---------------------------------------------------------------------------
  // Filtering and counting, defined from the back so that a loop over a prefix
  // s[..i] extends the definition by one element per iteration.
  // ---------------------------------------------------------------------------

  function Filter<T>(s: seq<T>, p: T -> bool): (r: seq<T>)
    ensures |r| <= |s|
    ensures forall x :: x in r ==> x in s && p(x)
  {
    if s == [] then []
    else Filter(s[..|s| - 1], p) + (if p(s[|s| - 1]) then [s[|s| - 1]] else [])
  }

  function Count<T>(s: seq<T>, p: T -> bool): (n: nat)
    ensures n <= |s|
  {
    if s == [] then 0
    else Count(s[..|s| - 1], p) + (if p(s[|s| - 1]) then 1 else 0)
  }

  lemma {:induction false} FilterAppend<T>(a: seq<T>, b: seq<T>, p: T -> bool)
    ensures Filter(a + b, p) == Filter(a, p) + Filter(b, p)
  {
    if b != [] {
      assert (a + b)[..|a + b| - 1] == a + b[..|b| - 1];
      FilterAppend(a, b[..|b| - 1], p);
    } else {
      assert a + b == a;
    }
  }

  /** Counting one more element of a prefix. */
  lemma CountPrefixStep<T>(s: seq<T>, k: nat, p: T -> bool)
    requires 0 < k <= |s|
    ensures Count(s[..k], p) == Count(s[..k - 1], p) + if p(s[k - 1]) then 1 else 0
  {
    assert s[..k][..k - 1] == s[..k - 1];
  }

  /** Filtering one more element of a prefix. */
  lemma FilterPrefixStep<T>(s: seq<T>, k: nat, p: T -> bool)
    requires 0 < k <= |s|
    ensures Filter(s[..k], p) == Filter(s[..k - 1], p) + if p(s[k - 1]) then [s[k - 1]] else []
  {
    assert s[..k][..k - 1] == s[..k - 1];
  }

  lemma {:induction false} CountAppend<T>(a: seq<T>, b: seq<T>, p: T -> bool)
    ensures Count(a + b, p) == Count(a, p) + Count(b, p)
  {
    if b != [] {
      assert (a + b)[..|a + b| - 1] == a + b[..|b| - 1];
      CountAppend(a, b[..|b| - 1], p);
    } else {
      assert a + b == a;
    }
  }

  /** The number of kept elements is the count of elements meeting the predicate. */
  lemma {:induction false} FilterLength<T>(s: seq<T>, p: T -> bool)
    ensures |Filter(s, p)| == Count(s, p)
  {
    if s != [] {
      FilterLength(s[..|s| - 1], p);
    }
  }

  /** Every element meeting the predicate is kept. */
  lemma {:induction false} FilterKeeps<T>(s: seq<T>, p: T -> bool, x: T)
    requires x in s && p(x)
    ensures x in Filter(s, p)
  {
    var n := |s| - 1;
    if s[n] != x {
      assert x in s[..n] by {
        var i :| 0 <= i < |s| && s[i] == x;
        assert i < n && s[..n][i] == x;
      }
      FilterKeeps(s[..n], p, x);
    }
  }

  /** A count splits into the elements that meet q and those that do not. */
  lemma {:induction false} CountSplit<T>(s: seq<T>, p: T -> bool, q: T -> bool)
    ensures Count(s, p) == Count(s, x => p(x) && q(x)) + Count(s, x => p(x) && !q(x))
  {
    if s != [] {
      CountSplit(s[..|s| - 1], p, q);
    }
  }

  /** Counts of predicates that agree on every element are equal. */
  lemma {:induction false} CountSame<T>(s: seq<T>, p: T -> bool, q: T -> bool)
    requires forall i :: 0 <= i < |s| ==> p(s[i]) == q(s[i])
    ensures Count(s, p) == Count(s, q)
  {
    if s != [] {
      CountSame(s[..|s| - 1], p, q);
    }
  }

  /** Filters by predicates that agree on every element are equal. */
  lemma {:induction false} FilterSame<T>(s: seq<T>, p: T -> bool, q: T -> bool)
    requires forall i :: 0 <= i < |s| ==> p(s[i]) == q(s[i])
    ensures Filter(s, p) == Filter(s, q)
  {
    if s != [] {
      FilterSame(s[..|s| - 1], p, q);
    }
  }

  /** A sequence of at most one element is kept exactly when that element
      meets the predicate. */
  lemma FilterAtMostOne<T>(s: seq<T>, p: T -> bool)
    requires |s| <= 1
    ensures Filter(s, p) == if s != [] && p(s[0]) then s else []
  {
    if s != [] {
      assert s[..0] == [];
    }
  }

  /** Counts along two sequences of equal length whose predicates agree
      position by position are equal. */
  lemma {:induction false} CountAlong<T, U>(a: seq<T>, b: seq<U>, p: T -> bool, q: U -> bool)
    requires |a| == |b|
    requires forall i :: 0 <= i < |a| ==> p(a[i]) == q(b[i])
    ensures Count(a, p) == Count(b, q)
  {
    if a != [] {
      CountAlong(a[..|a| - 1], b[..|b| - 1], p, q);
    }
  }

  /** Counting inside a filter, by a predicate that implies the filter's,
      counts the same elements as counting in the whole sequence. */
  lemma {:induction false} CountOfFilter<T>(s: seq<T>, p: T -> bool, q: T -> bool)
    requires forall x :: q(x) ==> p(x)
    ensures Count(Filter(s, p), q) == Count(s, q)
  {
    if s != [] {
      var n := |s| - 1;
      var last := if p(s[n]) then [s[n]] else [];
      CountOfFilter(s[..n], p, q);
      CountAppend(Filter(s[..n], p), last, q);
      if last != [] {
        assert last[..0] == [];
      }
    }
  }

  function MapSeq<T, U>(s: seq<T>, f: T -> U): (r: seq<U>)
    ensures |r| == |s|
    ensures forall i :: 0 <= i < |s| ==> r[i] == f(s[i])
  {
    if s == [] then [] else MapSeq(s[..|s| - 1], f) + [f(s[|s| - 1])]
  }

  lemma {:induction false} MapSeqAppend<T, U>(a: seq<T>, b: seq<T>, f: T -> U)
    ensures MapSeq(a + b, f) == MapSeq(a, f) + MapSeq(b, f)
  {
    var m := MapSeq(a + b, f);
    assert |m| == |MapSeq(a, f) + MapSeq(b, f)|;
    forall i | 0 <= i < |m|
      ensures m[i] == (MapSeq(a, f) + MapSeq(b, f))[i]
    {
      if i < |a| {
        assert (a + b)[i] == a[i];
      } else {
        assert (a + b)[i] == b[i - |a|];
      }
    }
  }

  predicate NonDecreasing(s: seq<int>)
  {
    forall i :: 0 < i < |s| ==> s[i - 1] <= s[i]
  }

  // ---------------------------------------------------------------------------
  // Integer arithmetic as Python performs it.
  // ---------------------------------------------------------------------------

  /** `int(a / b)`: the quotient truncated toward zero (Dafny's `/` is Euclidean). */
  function TruncDiv(a: int, b: int): (q: int)
    requires b != 0
    ensures Abs(q) == Abs(a) / Abs(b)
    ensures q == 0 || (q > 0 <==> (a > 0 <==> b > 0))
  {
    var m := Abs(a);
    var d := Abs(b);
    DivBounds(m, d);
    var q0 := m / d;
    if (a >= 0) == (b > 0) then q0 else -q0
  }

  /** The magnitude of a truncated quotient is the largest whole number of
      divisors that fits: `|q| * |b| <= |a| < (|q| + 1) * |b|`. */
  lemma TruncDivBounds(a: int, b: int)
    requires b != 0
    ensures Abs(TruncDiv(a, b)) * Abs(b) <= Abs(a) < (Abs(TruncDiv(a, b)) + 1) * Abs(b)
  {
    DivBounds(Abs(a), Abs(b));
  }

  lemma DivBounds(m: nat, d: nat)
    requires d > 0
    ensures 0 <= m / d
    ensures (m / d) * d <= m < (m / d + 1) * d
  {
    var q := m / d;
    assert m == q * d + m % d;
    assert (q + 1) * d == q * d + d;
  }

  function Abs(x: int): nat
  {
    if x < 0 then -x else x
  }

  function AbsReal(x: real): (r: real)
    ensures r >= 0.0 && (r == x || r == -x)
  {
    if x < 0.0 then -x else x
  }

  // ---------------------------------------------------------------------------
  // Python's str(int), used by the "unknown code" descriptions.
  // ---------------------------------------------------------------------------

  function DigitChar(d: nat): (c: char)
    requires d < 10
    ensures '0' <= c <= '9' && c as int - '0' as int == d
  {
    ('0' as int + d) as char
  }

  function NatToDecimal(n: nat): (s: string)
    ensures |s| >= 1
    ensures forall i :: 0 <= i < |s| ==> '0' <= s[i] <= '9'
    ensures n >= 10 ==> s[0] != '0'
  {
    if n < 10 then [DigitChar(n)] else NatToDecimal(n / 10) + [DigitChar(n % 10)]
  }

  function IntToDecimal(i: int): string
  {
    if i < 0 then "-" + NatToDecimal(-i) else NatToDecimal(i)
  }

  /** Different numbers have different decimal texts, so an "unknown code"
      description identifies its code. */
  lemma {:induction false} NatToDecimalInjective(m: nat, n: nat)
    requires NatToDecimal(m) == NatToDecimal(n)
    ensures m == n
  {
    var s, t := NatToDecimal(m), NatToDecimal(n);
    if m >= 10 && n >= 10 {
      assert s[..|s| - 1] == NatToDecimal(m / 10);
      assert t[..|t| - 1] == NatToDecimal(n / 10);
      NatToDecimalInjective(m / 10, n / 10);
      assert DigitChar(m % 10) == s[|s| - 1] == t[|t| - 1] == DigitChar(n % 10);
    } else if m < 10 && n < 10 {
      assert DigitChar(m) == s[0] == t[0] == DigitChar(n);
    }
  }

  // ---------------------------------------------------------------------------
  // ASCII text.
  // ---------------------------------------------------------------------------

  /** `bytes.decode('ascii')`: fails on any byte of 128 or more. */
  function AsciiDecode(b: seq<Byte>): (r: Option<string>)
    ensures r.Some? <==> forall i :: 0 <= i < |b| ==> b[i] < 128
    ensures r.Some? ==> |r.value| == |b| && forall i :: 0 <= i < |b| ==> r.value[i] as int == b[i]
  {
    if b == [] then Some([])
    else
      var last := b[|b| - 1];
      match AsciiDecode(b[..|b| - 1])
      case None => None
      case Some(text) => if last < 128 then Some(text + [last as char]) else None
  }

  /** The ASCII characters `str.isspace()` accepts: tab, line feed, vertical
      tab, form feed, carriage return, the four separators 0x1C-0x1F and space. */
  predicate IsSpace(c: char)
  {
    (9 <= c as int <= 13) || (28 <= c as int <= 32)
  }

  function StripLeft(s: string): (r: string)
    ensures |r| <= |s|
    ensures r == [] || !IsSpace(r[0])
    ensures forall i :: 0 <= i < |s| - |r| ==> IsSpace(s[i])
  {
    if s != [] && IsSpace(s[0]) then StripLeft(s[1..]) else s
  }

  function StripRight(s: string): (r: string)
    ensures |r| <= |s|
    ensures r == [] || (!IsSpace(r[|r| - 1]) && r[0] == s[0])
    ensures forall i :: |r| <= i < |s| ==> IsSpace(s[i])
  {
    if s != [] && IsSpace(s[|s| - 1]) then StripRight(s[..|s| - 1]) else s
  }

  /** `str.strip()` with no argument. */
  function Strip(s: string): string
  {
    StripRight(StripLeft(s))
  }

  /** What `lstrip` leaves is a suffix of the text. */
  lemma {:induction false} StripLeftSuffix(s: string)
    ensures StripLeft(s) == s[|s| - |StripLeft(s)|..]
  {
    if s != [] && IsSpace(s[0]) {
      StripLeftSuffix(s[1..]);
    }
  }

  /** What `rstrip` leaves is a prefix of the text. */
  lemma {:induction false} StripRightPrefix(s: string)
    ensures StripRight(s) == s[..|StripRight(s)|]
  {
    if s != [] && IsSpace(s[|s| - 1]) {
      StripRightPrefix(s[..|s| - 1]);
    }
  }

  /** `strip` removes whitespace from both ends and nothing else: what it
      leaves is the slice of the text after the leading whitespace. */
  lemma StripSlice(s: string)
    ensures var a := |s| - |StripLeft(s)|;
      a + |Strip(s)| <= |s| && Strip(s) == s[a..a + |Strip(s)|]
  {
    StripLeftSuffix(s);
    StripRightPrefix(StripLeft(s));
  }

  /** A non-empty text that neither starts nor ends with whitespace. */
  predicate Trimmed(s: string)
  {
    s != [] && !IsSpace(s[0]) && !IsSpace(s[|s| - 1])
  }

  /** What `strip` leaves is empty or trimmed. */
  lemma StripTrims(s: string)
    ensures Strip(s) == [] || Trimmed(Strip(s))
  {
  }

  // ---------------------------------------------------------------------------
  // The sum of a dictionary's values (`sum(d.values())`).
  // ---------------------------------------------------------------------------

  ghost function MapTotal<K>(m: map<K, int>): int
    decreases |m.Keys|
  {
    if m == map[] then 0
    else
      var k :| k in m;
      assert |(m - {k}).Keys| < |m.Keys| by {
        assert (m - {k}).Keys < m.Keys;
      }
      m[k] + MapTotal(m - {k})
  }

  /** The total is any one value plus the total of the others. */
  lemma MapTotalRemove<K>(m: map<K, int>, k: K)
    requires k in m
    ensures MapTotal(m) == m[k] + MapTotal(m - {k})
    decreases |m.Keys|
  {
    var j :| j in m && MapTotal(m) == m[j] + MapTotal(m - {j});
    if j != k {
      assert (m - {j}).Keys < m.Keys;
      assert (m - {k}).Keys < m.Keys;
      MapTotalRemove(m - {j}, k);
      MapTotalRemove(m - {k}, j);
      assert (m - {j}) - {k} == (m - {k}) - {j};
    }
  }

  /** Setting one entry changes the total by the difference. */
  lemma MapTotalUpdate<K>(m: map<K, int>, k: K, v: int)
    ensures MapTotal(m[k := v]) == MapTotal(m) - (if k in m then m[k] else 0) + v
  {
    var n := m[k := v];
    MapTotalRemove(n, k);
    assert n - {k} == m - {k};
    if k in m {
      MapTotalRemove(m, k);
    } else {
      assert m - {k} == m;
    }
  }
}
