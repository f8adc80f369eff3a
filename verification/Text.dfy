/** Text as the operator handles it: decimal numbers (`strconv`, `%d`, `%04d`), the byte order
    of Go strings, comma-separated lists and substring search.  Everything here is stated for
    all strings, so that the modules above can reason about real file contents. */
module Text {

  datatype Option<+T> = None | Some(value: T)

  // ---------------------------------------------------------------- decimal numbers

  function Digit(d: nat): char
    requires d < 10
  {
    (d as char + '0')
  }

  predicate IsDigit(c: char) {
    '0' <= c <= '9'
  }

  predicate AllDigits(s: string) {
    forall i | 0 <= i < |s| :: IsDigit(s[i])
  }

  /** `%d` for a natural number. */
  function Decimal(n: nat): string {
    if n < 10 then [Digit(n)] else Decimal(n / 10) + [Digit(n % 10)]
  }

  /** The number a digit string denotes; leading zeros are allowed. */
  function DigitsValue(s: string): nat
    requires AllDigits(s)
  {
    if s == "" then 0 else DigitsValue(s[..|s| - 1]) * 10 + (s[|s| - 1] - '0') as nat
  }

  /** `strconv.Atoi` on an unbounded integer: an optional sign and at least one digit. */
  function Atoi(s: string): Option<int> {
    if s == "" then None
    else if s[0] == '-' then
      if s[1..] != "" && AllDigits(s[1..]) then Some(-(DigitsValue(s[1..]) as int)) else None
    else if s[0] == '+' then
      if s[1..] != "" && AllDigits(s[1..]) then Some(DigitsValue(s[1..])) else None
    else if AllDigits(s) then Some(DigitsValue(s)) else None
  }

  function Zeros(n: nat): string {
    seq(n, _ => '0')
  }

  /** `%04d` */
  function Pad4(n: nat): string {
    var d := Decimal(n);
    if |d| < 4 then Zeros(4 - |d|) + d else d
  }

  /** Printing and reading a number are inverse. */
  lemma {:induction false} DecimalRoundTrip(n: nat)
    ensures Decimal(n) != "" && AllDigits(Decimal(n)) && DigitsValue(Decimal(n)) == n
  {
    if n < 10 {
      assert "" + [Digit(n)] == [Digit(n)];
    } else {
      DecimalRoundTrip(n / 10);
    }
  }

  lemma DecimalInjective(m: nat, n: nat)
    requires Decimal(m) == Decimal(n)
    ensures m == n
  {
    DecimalRoundTrip(m);
    DecimalRoundTrip(n);
  }

  lemma {:induction false} ZerosValue(n: nat, s: string)
    requires AllDigits(s)
    ensures AllDigits(Zeros(n) + s) && DigitsValue(Zeros(n) + s) == DigitsValue(s)
    decreases |s|, n
  {
    if s == "" {
      if n > 0 {
        ZerosValue(n - 1, "");
        assert Zeros(n) + "" == (Zeros(n - 1) + "") + [Digit(0)];
        assert Zeros(n - 1) + "" == Zeros(n - 1);
      }
    } else {
      ZerosValue(n, s[..|s| - 1]);
      assert (Zeros(n) + s)[..|Zeros(n) + s| - 1] == Zeros(n) + s[..|s| - 1];
    }
  }

  lemma Pad4RoundTrip(n: nat)
    ensures Pad4(n) != "" && AllDigits(Pad4(n)) && DigitsValue(Pad4(n)) == n
    ensures Atoi(Pad4(n)) == Some(n)
  {
    DecimalRoundTrip(n);
    if |Decimal(n)| < 4 {
      ZerosValue(4 - |Decimal(n)|, Decimal(n));
    }
  }

  lemma Pad4Width(n: nat)
    requires n <= 9999
    ensures |Pad4(n)| == 4
  {
    assert n < 10 ==> |Decimal(n)| == 1;
    assert 10 <= n < 100 ==> |Decimal(n)| == |Decimal(n / 10)| + 1;
    assert 100 <= n < 1000 ==> |Decimal(n)| == |Decimal(n / 10 / 10)| + 2;
    assert 1000 <= n ==> |Decimal(n)| == |Decimal(n / 10 / 10 / 10)| + 3;
  }

  // ---------------------------------------------------------------- byte order

  /** Go's `<` on strings. */
  predicate LexLess(a: string, b: string) {
    if b == "" then false
    else if a == "" then true
    else if a[0] != b[0] then a[0] < b[0]
    else LexLess(a[1..], b[1..])
  }

  lemma {:induction false} LexLessAppend(a: string, x: char, b: string, y: char)
    requires |a| == |b|
    ensures LexLess(a + [x], b + [y]) <==> LexLess(a, b) || (a == b && x < y)
  {
    if a != "" {
      assert (a + [x])[1..] == a[1..] + [x] && (b + [y])[1..] == b[1..] + [y];
      LexLessAppend(a[1..], x, b[1..], y);
      assert a == b <==> a[0] == b[0] && a[1..] == b[1..];
    } else {
      assert a + [x] == [x] && b + [y] == [y];
    }
  }

  lemma {:induction false} LexLessPrefix(p: string, a: string, b: string)
    ensures LexLess(p + a, p + b) <==> LexLess(a, b)
  {
    if p == "" {
      assert p + a == a && p + b == b;
    } else {
      assert (p + a)[1..] == p[1..] + a && (p + b)[1..] == p[1..] + b;
      LexLessPrefix(p[1..], a, b);
    }
  }

  /** On digit strings of one width, byte order is numeric order. */
  lemma {:induction false} LexLessIsNumeric(a: string, b: string)
    requires |a| == |b| && AllDigits(a) && AllDigits(b)
    ensures LexLess(a, b) <==> DigitsValue(a) < DigitsValue(b)
    ensures a == b <==> DigitsValue(a) == DigitsValue(b)
  {
    if a != "" {
      var n := |a| - 1;
      LexLessIsNumeric(a[..n], b[..n]);
      LexLessAppend(a[..n], a[n], b[..n], b[n]);
      assert a == a[..n] + [a[n]] && b == b[..n] + [b[n]];
    }
  }

  lemma {:induction false} LexLessTotal(a: string, b: string)
    ensures LexLess(a, b) || LexLess(b, a) || a == b
  {
    if a != "" && b != "" && a[0] == b[0] {
      LexLessTotal(a[1..], b[1..]);
      assert a == [a[0]] + a[1..] && b == [b[0]] + b[1..];
    }
  }

  lemma {:induction false} LexLessCut(a: string, b: string)
    requires |a| < |b|
    ensures LexLess(a, b) <==> LexLess(a, b[..|a|]) || a == b[..|a|]
  {
    if a != "" {
      LexLessCut(a[1..], b[1..]);
      assert b[..|a|][1..] == b[1..][..|a| - 1];
      assert a == [a[0]] + a[1..] && b[..|a|] == [b[0]] + b[..|a|][1..];
    }
  }

  function Pow10(k: nat): (r: nat)
    ensures r > 0
  {
    if k == 0 then 1 else 10 * Pow10(k - 1)
  }

  lemma DivideTwice(x: nat, p: nat)
    requires p > 0
    ensures x / 10 / p == x / (10 * p)
  {
    var q := x / 10 / p;
    assert q * (10 * p) <= x < (q + 1) * (10 * p) by {
      assert q * p <= x / 10 < (q + 1) * p;
      assert (q + 1) * p == q * p + p;
    }
    QuotientIs(x, 10 * p, q);
  }

  lemma QuotientIs(x: nat, p: nat, q: nat)
    requires p > 0 && q * p <= x < (q + 1) * p
    ensures x / p == q
  {
    var k := x / p;
    assert k * p <= x < (k + 1) * p;
    assert k < q ==> (k + 1) * p <= q * p;
    assert k > q ==> (q + 1) * p <= k * p;
  }

  /** Dropping the last d digits divides by their power of ten. */
  lemma {:induction false} CutValue(s: string, d: nat)
    requires AllDigits(s) && d <= |s|
    ensures DigitsValue(s[..|s| - d]) == DigitsValue(s) / Pow10(d)
    decreases d
  {
    if d == 0 {
      assert s[..|s|] == s;
    } else {
      var t := s[..|s| - 1];
      CutValue(t, d - 1);
      assert t[..|t| - (d - 1)] == s[..|s| - d];
      DivideTwice(DigitsValue(s), Pow10(d - 1));
    }
  }

  lemma FitsBelow(m: nat, n: nat, p: nat)
    requires p > 0
    ensures m <= n / p <==> m * p <= n
  {
    var q := n / p;
    assert q * p <= n < (q + 1) * p;
    if m <= q {
      assert m * p <= q * p;
    } else {
      assert (q + 1) * p <= m * p;
    }
  }

  /** On digit strings of different widths the shorter one comes first exactly when it is no larger
      than what the longer one starts with. */
  lemma LexLessShorter(a: string, b: string)
    requires |a| < |b| && AllDigits(a) && AllDigits(b)
    ensures LexLess(a, b) <==> DigitsValue(a) * Pow10(|b| - |a|) <= DigitsValue(b)
  {
    hide LexLess, DigitsValue, Pow10;
    var d := |b| - |a|;
    LexLessCut(a, b);
    LexLessIsNumeric(a, b[..|a|]);
    CutValue(b, d);
    assert b[..|b| - d] == b[..|a|];
    FitsBelow(DigitsValue(a), DigitsValue(b), Pow10(d));
  }

  lemma {:induction false} DecimalWider(m: nat, n: nat)
    requires m <= n
    ensures |Decimal(m)| <= |Decimal(n)|
  {
    if m >= 10 {
      DecimalWider(m / 10, n / 10);
    } else {
      DecimalRoundTrip(n);
    }
  }

  // ---------------------------------------------------------------- comma-separated lists

  predicate CommaFree(s: string) {
    ',' !in s
  }

  /** `strings.Split(s, ",")` */
  function Split(s: string): (r: seq<string>)
    ensures |r| >= 1
  {
    if s == "" then [""]
    else
      var r := Split(s[1..]);
      if s[0] == ',' then [""] + r else [[s[0]] + r[0]] + r[1..]
  }

  /** `strings.Join(xs, ",")` */
  function Join(xs: seq<string>): string {
    if xs == [] then ""
    else if |xs| == 1 then xs[0]
    else xs[0] + "," + Join(xs[1..])
  }

  lemma {:induction false} SplitFirst(x: string, rest: string)
    requires CommaFree(x)
    ensures Split(x) == [x]
    ensures Split(x + "," + rest) == [x] + Split(rest)
  {
    if x == "" {
      assert (x + "," + rest)[1..] == rest;
    } else {
      SplitFirst(x[1..], rest);
      assert (x + "," + rest)[1..] == x[1..] + "," + rest;
      assert [x[0]] + x[1..] == x;
      assert ([x[1..]] + Split(rest))[1..] == Split(rest);
    }
  }

  lemma {:induction false} SplitJoin(xs: seq<string>)
    requires xs != []
    requires forall x | x in xs :: CommaFree(x)
    ensures Split(Join(xs)) == xs
  {
    if |xs| == 1 {
      SplitFirst(xs[0], "");
    } else {
      SplitJoin(xs[1..]);
      SplitFirst(xs[0], Join(xs[1..]));
      assert xs == [xs[0]] + xs[1..];
    }
  }

  lemma {:induction false} JoinAppend(xs: seq<string>, x: string)
    requires xs != []
    ensures Join(xs + [x]) == Join(xs) + "," + x
  {
    if |xs| > 1 {
      JoinAppend(xs[1..], x);
      assert (xs + [x])[1..] == xs[1..] + [x];
    }
  }

  lemma {:induction false} JoinSplit(s: string)
    ensures Join(Split(s)) == s
  {
    if s != "" {
      JoinSplit(s[1..]);
      var r := Split(s[1..]);
      if s[0] == ',' {
        assert ([""] + r)[1..] == r;
      } else {
        assert ([[s[0]] + r[0]] + r[1..])[1..] == r[1..];
      }
    }
  }

  lemma {:induction false} SplitCommaFree(s: string)
    ensures forall x | x in Split(s) :: CommaFree(x)
  {
    if s != "" {
      SplitCommaFree(s[1..]);
      var r := Split(s[1..]);
      forall x | x in Split(s)
        ensures CommaFree(x)
      {
        if s[0] != ',' && x !in r[1..] {
          assert r[0] in r;
        }
      }
    }
  }

  // ---------------------------------------------------------------- substring search

  /** `strings.Contains(s, t)` */
  predicate Contains(s: string, t: string) {
    exists i :: 0 <= i <= |s| - |t| && s[i..][..|t|] == t
  }

  /** `strings.HasPrefix(s, p)` */
  predicate HasPrefix(s: string, p: string) {
    |p| <= |s| && s[..|p|] == p
  }

  predicate HasSuffix(s: string, t: string) {
    |t| <= |s| && s[|s| - |t|..] == t
  }

  /** Searching a record `a,b,b` for `x,` finds exactly the records in which `x` ends one of
      the first two fields. */
  lemma ContainsField(a: string, b: string, x: string)
    requires CommaFree(a) && CommaFree(b) && CommaFree(x)
    ensures Contains(a + "," + b + "," + b, x + ",") <==> HasSuffix(a, x) || HasSuffix(b, x)
  {
    var s := a + "," + b + "," + b;
    var t := x + ",";
    if Contains(s, t) {
      var i :| 0 <= i <= |s| - |t| && s[i..][..|t|] == t;
      MatchEnds(a, b, x, i);
    }
    if HasSuffix(a, x) {
      var i := |a| - |x|;
      assert s[i..][..|t|] == t;
    }
    if HasSuffix(b, x) {
      var i := |a| + 1 + |b| - |x|;
      assert s[i..][..|t|] == t;
    }
  }

  lemma CommaInside(s: string, t: string, i: nat, j: nat)
    requires i <= j < i + |t| - 1 < |s|
    requires forall k | 0 <= k < |t| :: s[i + k] == t[k]
    requires s[j] == ','
    ensures !CommaFree(t[..|t| - 1])
  {
    assert s[i + (j - i)] == t[j - i];
    assert t[..|t| - 1][j - i] == ',';
  }

  lemma MatchEnds(a: string, b: string, x: string, i: nat)
    requires CommaFree(a) && CommaFree(b) && CommaFree(x)
    requires i + |x| + 1 <= |a + "," + b + "," + b|
    requires (a + "," + b + "," + b)[i..][..|x| + 1] == x + ","
    ensures HasSuffix(a, x) || HasSuffix(b, x)
  {
    var s := a + "," + b + "," + b;
    var t := x + ",";
    forall k | 0 <= k < |t|
      ensures s[i + k] == t[k]
    {
      assert s[i..][..|t|][k] == s[i + k];
    }
    assert s[i + |x|] == t[|x|] == ',';
    if i + |x| == |a| {
      forall k | 0 <= k < |x|
        ensures a[i..][k] == x[k]
      {
        assert s[i + k] == t[k];
      }
      assert a[i..] == x;
    } else {
      assert i + |x| == |a| + 1 + |b|;
      assert i > |a| by {
        assert t[..|t| - 1] == x;
        if i <= |a| {
          CommaInside(s, t, i, |a|);
        }
      }
      forall k | 0 <= k < |x|
        ensures b[i - |a| - 1..][k] == x[k]
      {
        assert s[i + k] == t[k];
      }
      assert b[i - |a| - 1..] == x;
    }
  }

  ghost predicate Distinct(xs: seq<string>) {
    forall i, j | 0 <= i < j < |xs| :: xs[i] != xs[j]
  }

  /** The numbers below n, in order. */
  function Upto(n: nat): (r: seq<nat>)
    ensures |r| == n && forall i | 0 <= i < n :: r[i] == i
  {
    seq(n, i requires i >= 0 => i)
  }
}
