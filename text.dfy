/** The pieces of Python's string behaviour the core relies on: str() of an int,
    splitting on a separator, joining, the repr of a list of names, and the
    code-point order in which Python compares strings. */
module Text {

  predicate IsDigit(c: char) { '0' <= c <= '9' }

  function DigitValue(c: char): (d: nat)
    requires IsDigit(c)
    ensures d < 10
  {
    c as int - '0' as int
  }

  function DigitChar(d: nat): (c: char)
    requires d < 10
    ensures IsDigit(c) && DigitValue(c) == d
  {
    ('0' as int + d) as char
  }

  function Pow10(k: nat): (p: nat)
    ensures p >= 1
  {
    if k == 0 then 1 else 10 * Pow10(k - 1)
  }

  /** str(n) for a non-negative int: its decimal digits, most significant first. */
  function Decimal(n: nat): (s: string)
    ensures |s| >= 1
    ensures forall i :: 0 <= i < |s| ==> IsDigit(s[i])
    decreases n
  {
    if n < 10 then [DigitChar(n)] else Decimal(n / 10) + [DigitChar(n % 10)]
  }

  /** str(i) for any int. */
  function IntString(i: int): string
  {
    if i < 0 then "-" + Decimal(-i) else Decimal(i)
  }

  predicate AllDigitChars(s: string)
  {
    forall i :: 0 <= i < |s| ==> IsDigit(s[i])
  }

  /** The value of a string of decimal digits. */
  function DigitsValue(s: string): nat
    requires AllDigitChars(s)
    decreases |s|
  {
    if s == [] then 0 else 10 * DigitsValue(s[..|s| - 1]) + DigitValue(s[|s| - 1])
  }

  /** The texts int() reads back: digits, optionally after a minus sign. */
  predicate IsIntText(s: string)
  {
    if |s| > 0 && s[0] == '-' then |s| > 1 && AllDigitChars(s[1..]) else |s| > 0 && AllDigitChars(s)
  }

  /** int(s) for such a text. */
  function ParseIntText(s: string): int
    requires IsIntText(s)
  {
    if s[0] == '-' then -(DigitsValue(s[1..]) as int) else DigitsValue(s)
  }

  /** Reading back the digits of a natural gives the natural. */
  lemma {:induction false} DecimalRoundTrip(n: nat)
    ensures DigitsValue(Decimal(n)) == n
    decreases n
  {
    if n >= 10 {
      DecimalRoundTrip(n / 10);
      var s := Decimal(n);
      assert s[..|s| - 1] == Decimal(n / 10);
    }
  }

  /** int(str(i)) == i. */
  lemma IntStringRoundTrip(i: int)
    ensures IsIntText(IntString(i))
    ensures ParseIntText(IntString(i)) == i
  {
    if i < 0 {
      assert IntString(i)[1..] == Decimal(-i);
      DecimalRoundTrip(-i);
    } else {
      assert IsDigit(Decimal(i)[0]);
      DecimalRoundTrip(i);
    }
  }

  /** Different ints print differently. */
  lemma IntStringInjective(a: int, b: int)
    requires IntString(a) == IntString(b)
    ensures a == b
  {
    IntStringRoundTrip(a);
    IntStringRoundTrip(b);
  }

  /** The number of digits of n is k + 1 exactly when n lies in [10^k, 10^(k+1)) (or k = 0 and n < 10). */
  lemma {:induction false} DecimalLength(n: nat, k: nat)
    ensures |Decimal(n)| == k + 1 <==> (if k == 0 then n < 10 else Pow10(k) <= n < Pow10(k + 1))
    decreases n
  {
    if n >= 10 {
      if k > 0 {
        DecimalLength(n / 10, k - 1);
        if k > 1 {
          var p := Pow10(k - 1);
          assert Pow10(k) == 10 * p;
          assert Pow10(k + 1) == 100 * p;
          assert p <= n / 10 <==> 10 * p <= n;
          assert n / 10 < 10 * p <==> n < 100 * p;
        }
      } else {
        assert |Decimal(n)| == |Decimal(n / 10)| + 1;
      }
    }
  }

  /** Within [10^k, 10^(k+1)), the leading digit of n is d exactly when n lies in [d*10^k, (d+1)*10^k). */
  lemma {:induction false} LeadingDigit(n: nat, k: nat, d: nat)
    requires 1 <= d <= 9
    requires Pow10(k) <= n < Pow10(k + 1)
    ensures Decimal(n)[0] == DigitChar(d) <==> d * Pow10(k) <= n < (d + 1) * Pow10(k)
    decreases k
  {
    if k > 0 {
      var p := Pow10(k - 1);
      var lo := d * p;
      var hi := (d + 1) * p;
      ScaleByTen(d, p);
      ScaleByTen(d + 1, p);
      DivTen(n, p);
      DivTen(n, 10 * p);
      DivTen(n, lo);
      DivTen(n, hi);
      LeadingDigit(n / 10, k - 1, d);
      assert Decimal(n)[0] == Decimal(n / 10)[0];
    }
  }

  lemma DivTen(n: nat, a: nat)
    ensures a <= n / 10 <==> 10 * a <= n
    ensures n / 10 < a <==> n < 10 * a
  {
  }

  lemma ScaleByTen(d: nat, p: nat)
    ensures d * (10 * p) == 10 * (d * p)
  {
  }

  /** ", ".join-style concatenation with a separator. */
  function Join(parts: seq<string>, sep: string): string
  {
    if |parts| == 0 then ""
    else if |parts| == 1 then parts[0]
    else parts[0] + sep + Join(parts[1..], sep)
  }

  /** The pieces of s between occurrences of sep (at least one piece, possibly empty ones). */
  function SplitOn(s: string, sep: char): (parts: seq<string>)
    ensures |parts| >= 1
    ensures Join(parts, [sep]) == s
    ensures forall k :: 0 <= k < |parts| ==> sep !in parts[k]
    decreases |s|
  {
    if s == [] then [[]]
    else
      var rest := SplitOn(s[1..], sep);
      if s[0] == sep then [[]] + rest
      else
        assert Join([[s[0]] + rest[0]] + rest[1..], [sep]) == s by {
          if |rest| > 1 {
            assert rest == [rest[0]] + rest[1..];
          }
        }
        [[s[0]] + rest[0]] + rest[1..]
  }

  /** Splitting undoes joining when no piece contains the separator. */
  lemma {:induction false} SplitJoin(parts: seq<string>, sep: char)
    requires |parts| >= 1
    requires forall k :: 0 <= k < |parts| ==> sep !in parts[k]
    ensures SplitOn(Join(parts, [sep]), sep) == parts
    decreases |Join(parts, [sep])|
  {
    var s := Join(parts, [sep]);
    if parts[0] == [] {
      if |parts| > 1 {
        assert s == [sep] + Join(parts[1..], [sep]);
        assert s[1..] == Join(parts[1..], [sep]);
        SplitJoin(parts[1..], sep);
        assert parts == [[]] + parts[1..];
      }
    } else {
      var c := parts[0][0];
      var tail := [parts[0][1..]] + parts[1..];
      assert c != sep;
      assert forall k :: 0 <= k < |tail| ==> sep !in tail[k] by {
        forall k | 0 <= k < |tail| ensures sep !in tail[k] {
          if k == 0 {
            assert forall x :: x in parts[0][1..] ==> x in parts[0];
          } else {
            assert tail[k] == parts[k];
          }
        }
      }
      if |parts| == 1 {
        assert s == parts[0];
        assert s[1..] == Join(tail, [sep]);
      } else {
        assert s == parts[0] + [sep] + Join(parts[1..], [sep]);
        assert tail[1..] == parts[1..];
        assert Join(tail, [sep]) == parts[0][1..] + [sep] + Join(parts[1..], [sep]);
        assert s[1..] == Join(tail, [sep]);
      }
      SplitJoin(tail, sep);
      assert s[0] == c;
      assert [c] + tail[0] == parts[0];
      assert parts == [[c] + tail[0]] + tail[1..];
    }
  }

  /** A string without the separator is a single piece. */
  lemma {:induction false} SplitWithoutSeparator(s: string, sep: char)
    requires sep !in s
    ensures SplitOn(s, sep) == [s]
  {
    SplitJoin([s], sep);
  }

  /** Python's `a < b` on str: lexicographic by code point, a proper prefix first. */
  predicate LexLess(a: string, b: string)
    decreases |a|
  {
    if a == [] then b != []
    else b != [] && (a[0] < b[0] || (a[0] == b[0] && LexLess(a[1..], b[1..])))
  }

  /** Python's `a < b` on str is irreflexive. */
  lemma {:induction false} LexLessIrreflexive(a: string)
    ensures !LexLess(a, a)
    decreases |a|
  {
    if a != [] {
      LexLessIrreflexive(a[1..]);
    }
  }

  /** repr() of a Python list of identifiers: ['a', 'b']. */
  function NamesRepr(names: seq<string>): string
  {
    "[" + Join(Quoted(names), ", ") + "]"
  }

  function Quoted(names: seq<string>): (q: seq<string>)
    ensures |q| == |names|
    ensures forall k :: 0 <= k < |q| ==> q[k] == "'" + names[k] + "'"
  {
    if names == [] then [] else ["'" + names[0] + "'"] + Quoted(names[1..])
  }
}
