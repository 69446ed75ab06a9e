/**
 * String helpers with Go's meaning: the `<` order on strings, `strings.TrimLeft` and
 * `strings.TrimRight` with a one-character cutset, and `%d` formatting of a non-negative
 * integer.  Strings are sequences of characters; Go compares strings byte by byte, which for
 * UTF-8 text is the same as comparing code points one by one.
 */
module Strings {

  import opened Wrappers

  /** Go's `a < b` on strings: lexicographic, a proper prefix is smaller. */
  predicate Less(a: string, b: string)
    ensures Less(a, b) ==> a != b
    ensures |a| < |b| && a == b[..|a|] ==> Less(a, b)
  {
    if |a| == 0 then |b| > 0
    else if |b| == 0 then false
    else if a[0] == b[0] then Less(a[1..], b[1..])
    else a[0] < b[0]
  }

  lemma {:induction false} LessIrreflexive(a: string)
    ensures !Less(a, a)
  {
    if |a| > 0 {
      LessIrreflexive(a[1..]);
    }
  }

  lemma {:induction false} LessAsymmetric(a: string, b: string)
    ensures Less(a, b) ==> !Less(b, a)
  {
    if |a| > 0 && |b| > 0 && a[0] == b[0] {
      LessAsymmetric(a[1..], b[1..]);
    }
  }

  lemma {:induction false} LessTransitive(a: string, b: string, c: string)
    requires Less(a, b) && Less(b, c)
    ensures Less(a, c)
  {
    if |a| > 0 && a[0] == b[0] && b[0] == c[0] {
      LessTransitive(a[1..], b[1..], c[1..]);
    }
  }

  /** Two different strings are always ordered one way or the other. */
  lemma {:induction false} LessConnected(a: string, b: string)
    requires a != b
    ensures Less(a, b) || Less(b, a)
  {
    if |a| > 0 && |b| > 0 && a[0] == b[0] {
      assert a == [a[0]] + a[1..] && b == [b[0]] + b[1..];
      LessConnected(a[1..], b[1..]);
    }
  }

  /** `n` copies of `c`. */
  function Repeat(c: char, n: nat): (r: string)
    ensures |r| == n
    ensures forall i :: 0 <= i < n ==> r[i] == c
  {
    if n == 0 then [] else [c] + Repeat(c, n - 1)
  }

  /** `strings.TrimLeft(s, [c])`: drops every leading `c`. */
  function TrimLeft(s: string, c: char): (r: string)
    ensures |r| <= |s| && s == Repeat(c, |s| - |r|) + r
    ensures |r| == 0 || r[0] != c
  {
    if |s| > 0 && s[0] == c then
      var t := TrimLeft(s[1..], c);
      assert Repeat(c, |s| - |t|) == [c] + Repeat(c, |s| - 1 - |t|);
      t
    else
      s
  }

  /** `strings.TrimRight(s, [c])`: drops every trailing `c`. */
  function TrimRight(s: string, c: char): (r: string)
    ensures |r| <= |s| && s == r + Repeat(c, |s| - |r|)
    ensures |r| == 0 || r[|r| - 1] != c
  {
    if |s| > 0 && s[|s| - 1] == c then
      var t := TrimRight(s[..|s| - 1], c);
      assert Repeat(c, |s| - |t|) == Repeat(c, |s| - 1 - |t|) + [c] by {
        RepeatSnoc(c, |s| - 1 - |t|);
      }
      t
    else
      s
  }

  lemma {:induction false} RepeatSnoc(c: char, n: nat)
    ensures Repeat(c, n + 1) == Repeat(c, n) + [c]
  {
    if n > 0 {
      RepeatSnoc(c, n - 1);
    }
  }

  /** Trimming a run of `c` in front of a string that does not itself start with `c` gives that string back. */
  lemma {:induction false} TrimLeftOfRun(c: char, n: nat, t: string)
    requires |t| == 0 || t[0] != c
    ensures TrimLeft(Repeat(c, n) + t, c) == t
  {
    if n > 0 {
      assert (Repeat(c, n) + t)[1..] == Repeat(c, n - 1) + t;
      TrimLeftOfRun(c, n - 1, t);
    }
  }

  /** Trimming a run of `c` after a string that does not itself end in `c` gives that string back. */
  lemma {:induction false} TrimRightOfRun(c: char, n: nat, t: string)
    requires |t| == 0 || t[|t| - 1] != c
    ensures TrimRight(t + Repeat(c, n), c) == t
  {
    if n > 0 {
      RepeatSnoc(c, n - 1);
      assert (t + Repeat(c, n))[..|t| + n - 1] == t + Repeat(c, n - 1);
      TrimRightOfRun(c, n - 1, t);
    }
  }

  predicate IsDigit(c: char)
  {
    '0' as int <= c as int <= '9' as int
  }

  function DigitChar(d: nat): (c: char)
    requires d < 10
    ensures IsDigit(c) && c as int - '0' as int == d
  {
    ('0' as int + d) as char
  }

  /** `fmt.Sprintf("%d", n)` for `n >= 0`: the shortest decimal numeral. */
  function Decimal(n: nat): (r: string)
    ensures |r| > 0 && forall i :: 0 <= i < |r| ==> IsDigit(r[i])
    ensures |r| > 1 ==> r[0] != '0'
  {
    if n < 10 then [DigitChar(n)] else Decimal(n / 10) + [DigitChar(n % 10)]
  }

  /** Reads a string of digits as a decimal number. */
  function ParseDecimal(s: string): nat
    requires forall i :: 0 <= i < |s| ==> IsDigit(s[i])
  {
    if |s| == 0 then 0
    else
      assert IsDigit(s[|s| - 1]);
      ParseDecimal(s[..|s| - 1]) * 10 + (s[|s| - 1] as int - '0' as int)
  }

  /** Formatting and reading back a number are inverse. */
  lemma {:induction false} DecimalRoundTrip(n: nat)
    ensures ParseDecimal(Decimal(n)) == n
  {
    var r := Decimal(n);
    if n >= 10 {
      DecimalRoundTrip(n / 10);
      assert r[..|r| - 1] == Decimal(n / 10);
    }
  }

  /** The part of `s` before the first `c`, and the part after it (None when `c` does not occur). */
  function SplitFirst(s: string, c: char): (r: Option<(string, string)>)
    ensures r.Some? ==> s == r.value.0 + [c] + r.value.1 && c !in r.value.0
    ensures r.None? ==> c !in s
  {
    if |s| == 0 then None
    else if s[0] == c then Some(([], s[1..]))
    else match SplitFirst(s[1..], c)
      case None => None
      case Some(p) => Some(([s[0]] + p.0, p.1))
  }

  /** Joining two strings with `c`, when `c` is not in the first, is undone by splitting at the first `c`. */
  lemma {:induction false} SplitFirstOfJoin(a: string, c: char, b: string)
    requires c !in a
    ensures SplitFirst(a + [c] + b, c) == Some((a, b))
  {
    if |a| > 0 {
      assert (a + [c] + b)[1..] == a[1..] + [c] + b;
      SplitFirstOfJoin(a[1..], c, b);
      assert [a[0]] + a[1..] == a;
    }
  }
}
