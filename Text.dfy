/**
 * Character and string helpers the source gets from JavaScript's runtime:
 * decimal and hexadecimal rendering and parsing (`toString`, `parseInt`),
 * `padStart`, ASCII case mapping (`toUpperCase`, `toLowerCase`),
 * substring search (`includes`), `split(' ')[0]` and `replace(/[^a-zA-Z]/g, '')`.
 */
module Text {
  import opened Wrappers

  predicate IsDigit(c: char) { '0' <= c <= '9' }

  predicate IsHexDigit(c: char) { '0' <= c <= '9' || 'a' <= c <= 'f' }

  predicate IsAsciiLetter(c: char) { 'a' <= c <= 'z' || 'A' <= c <= 'Z' }

  predicate AllDigits(s: string) { forall i :: 0 <= i < |s| ==> IsDigit(s[i]) }

  predicate AllHexDigits(s: string) { forall i :: 0 <= i < |s| ==> IsHexDigit(s[i]) }

  predicate AllLetters(s: string) { forall i :: 0 <= i < |s| ==> IsAsciiLetter(s[i]) }

  /** Arithmetic helper for the digit-count and hexadecimal proofs: `b` to the power `k`. */
  function Pow(b: nat, k: nat): (r: nat)
    ensures b > 0 ==> r > 0
  {
    if k == 0 then 1 else b * Pow(b, k - 1)
  }

  // ----- decimal -------------------------------------------------------------

  /** Helper: the character of a decimal digit. */
  function DigitChar(d: nat): (c: char)
    requires d < 10
    ensures IsDigit(c) && DigitValue(c) == d
  {
    (d + '0' as int) as char
  }

  /** Helper: the value of a decimal digit character. */
  function DigitValue(c: char): (d: nat)
    requires IsDigit(c)
    ensures d < 10
  {
    c as int - '0' as int
  }

  /** `n.toString()` for a non-negative integer: no leading zeros, "0" for zero. */
  function Decimal(n: nat): (s: string)
    ensures |s| >= 1 && AllDigits(s)
    ensures |s| > 1 ==> s[0] != '0'
  {
    if n < 10 then [DigitChar(n)] else Decimal(n / 10) + [DigitChar(n % 10)]
  }

  /** The value of a string of decimal digits, read most significant digit first. */
  function DecimalValue(s: string): nat
    requires AllDigits(s)
  {
    if s == [] then 0 else DecimalValue(s[..|s| - 1]) * 10 + DigitValue(s[|s| - 1])
  }

  lemma {:induction false} DecimalRoundTrip(n: nat)
    ensures DecimalValue(Decimal(n)) == n
  {
    if n >= 10 {
      var s := Decimal(n);
      assert s[..|s| - 1] == Decimal(n / 10);
      DecimalRoundTrip(n / 10);
    }
  }

  /** A number below 10^k has at most k decimal digits, and one of at least 10^(k-1) at least k. */
  lemma {:induction false} DecimalLength(n: nat, k: nat)
    requires k >= 1
    ensures n < Pow(10, k) ==> |Decimal(n)| <= k
    ensures Pow(10, k - 1) <= n ==> |Decimal(n)| >= k
  {
    if k > 1 && n >= 10 {
      DecimalLength(n / 10, k - 1);
    }
  }

  /** Zeros in front of a digit string do not change its value (`'007'` reads as 7). */
  lemma {:induction false} LeadingZeros(z: string, s: string)
    requires forall i :: 0 <= i < |z| ==> z[i] == '0'
    requires AllDigits(s)
    ensures AllDigits(z + s) && DecimalValue(z + s) == DecimalValue(s)
  {
    if s == [] {
      assert z + s == z;
      AllZeros(z);
    } else {
      var t := s[..|s| - 1];
      assert (z + s)[..|z + s| - 1] == z + t;
      LeadingZeros(z, t);
    }
  }

  lemma {:induction false} AllZeros(z: string)
    requires forall i :: 0 <= i < |z| ==> z[i] == '0'
    ensures AllDigits(z) && DecimalValue(z) == 0
  {
    if z != [] {
      AllZeros(z[..|z| - 1]);
    }
  }

  // ----- hexadecimal -----------------------------------------------------------

  /** Helper: the lower-case character of a hexadecimal digit. */
  function HexChar(d: nat): (c: char)
    requires d < 16
    ensures IsHexDigit(c) && HexValue(c) == d
  {
    if d < 10 then (d + '0' as int) as char else (d - 10 + 'a' as int) as char
  }

  /** Helper: the value of a hexadecimal digit character. */
  function HexValue(c: char): (d: nat)
    requires IsHexDigit(c)
    ensures d < 16
  {
    if c <= '9' then c as int - '0' as int else c as int - 'a' as int + 10
  }

  /** The low `width` hexadecimal digits of `n`, lower case, zero-filled on the left. */
  function HexDigits(n: nat, width: nat): (s: string)
    ensures |s| == width && AllHexDigits(s)
  {
    if width == 0 then [] else HexDigits(n / 16, width - 1) + [HexChar(n % 16)]
  }

  /** `parseInt(s, 16)` for a non-empty string of hexadecimal digits. */
  function ParseHex(s: string): nat
    requires AllHexDigits(s)
  {
    if s == [] then 0 else ParseHex(s[..|s| - 1]) * 16 + HexValue(s[|s| - 1])
  }

  /** The last k characters of a width-w rendering are the width-k rendering. */
  lemma {:induction false} HexDigitsSuffix(n: nat, w: nat, k: nat)
    requires k <= w
    ensures HexDigits(n, w)[w - k..] == HexDigits(n, k)
  {
    if k > 0 {
      HexDigitsSuffix(n / 16, w - 1, k - 1);
      var s := HexDigits(n / 16, w - 1);
      assert HexDigits(n, w)[w - k..] == s[w - k..] + [HexChar(n % 16)];
    }
  }

  lemma {:induction false} ParseHexDigits(n: nat, k: nat)
    ensures ParseHex(HexDigits(n, k)) == n % Pow(16, k)
  {
    if k > 0 {
      var s := HexDigits(n, k);
      assert s[..|s| - 1] == HexDigits(n / 16, k - 1);
      ParseHexDigits(n / 16, k - 1);
      DivModStep(n, Pow(16, k - 1));
    }
  }

  /** Arithmetic helper for the uniqueness of division. */
  lemma MulAtLeast(d: int, x: int)
    requires d > 0 && x >= 1
    ensures d * x >= d
  {
  }

  lemma ModUnique(n: nat, d: nat, a: nat, r: nat)
    requires d > 0 && r < d && n == d * a + r
    ensures n % d == r
  {
    var q, s := n / d, n % d;
    assert d * q + s == d * a + r;
    if q > a {
      assert d * (q - a) == r - s;
      MulAtLeast(d, q - a);
      assert false;
    } else if q < a {
      assert d * (a - q) == s - r;
      MulAtLeast(d, a - q);
      assert false;
    }
  }

  /** (n / 16) % m * 16 + n % 16 == n % (16 * m): peeling the lowest digit off a remainder. */
  lemma DivModStep(n: nat, m: nat)
    requires m > 0
    ensures (n / 16) % m * 16 + n % 16 == n % (16 * m)
  {
    var q, r := n / 16, n % 16;
    var a, c := q / m, q % m;
    assert n == 16 * q + r;
    assert q == m * a + c;
    assert n == (16 * m) * a + (c * 16 + r);
    assert c * 16 + r < 16 * m;
    ModUnique(n, 16 * m, a, c * 16 + r);
  }

  // ----- padding, case, search ---------------------------------------------------

  /** `s.padStart(width, c)`: `c` repeated in front until the length reaches `width`. */
  function PadStart(s: string, width: nat, c: char): (r: string)
    ensures |r| == if |s| >= width then |s| else width
    ensures r[|r| - |s|..] == s
    ensures forall i :: 0 <= i < |r| - |s| ==> r[i] == c
  {
    if |s| >= width then s else [c] + PadStart(s, width - 1, c)
  }

  function UpperChar(c: char): char {
    if 'a' <= c <= 'z' then (c as int - 32) as char else c
  }

  function LowerChar(c: char): char {
    if 'A' <= c <= 'Z' then (c as int + 32) as char else c
  }

  /** `s.toUpperCase()` restricted to ASCII letters. */
  function ToUpper(s: string): (r: string)
    ensures |r| == |s| && forall i :: 0 <= i < |s| ==> r[i] == UpperChar(s[i])
  {
    seq(|s|, i requires 0 <= i < |s| => UpperChar(s[i]))
  }

  /** `s.toLowerCase()` restricted to ASCII letters. */
  function ToLower(s: string): (r: string)
    ensures |r| == |s| && forall i :: 0 <= i < |s| ==> r[i] == LowerChar(s[i])
  {
    seq(|s|, i requires 0 <= i < |s| => LowerChar(s[i]))
  }

  ghost predicate OccursAt(s: string, sub: string, i: int) {
    0 <= i && i + |sub| <= |s| && s[i..i + |sub|] == sub
  }

  /** `s.includes(sub)`. */
  function Contains(s: string, sub: string): (b: bool)
    ensures b <==> exists i :: OccursAt(s, sub, i)
    decreases |s|
  {
    if |sub| > |s| then false
    else if s[..|sub|] == sub then (assert OccursAt(s, sub, 0); true)
    else
      var b := Contains(s[1..], sub);
      assert b ==> exists i :: OccursAt(s, sub, i) by {
        if b {
          var i :| OccursAt(s[1..], sub, i);
          assert s[1..][i..i + |sub|] == s[i + 1..i + 1 + |sub|];
          assert OccursAt(s, sub, i + 1);
        }
      }
      assert (exists i :: OccursAt(s, sub, i)) ==> b by {
        if exists i :: OccursAt(s, sub, i) {
          var i :| OccursAt(s, sub, i);
          assert i != 0;
          assert s[1..][i - 1..i - 1 + |sub|] == s[i..i + |sub|];
          assert OccursAt(s[1..], sub, i - 1);
        }
      }
      b
  }

  /** `s.split(' ')[0]`: everything before the first space, or all of `s`. */
  function FirstToken(s: string): (r: string)
    ensures ' ' !in r
    ensures |r| <= |s| && r == s[..|r|]
    ensures |r| < |s| ==> s[|r|] == ' '
  {
    if s == [] || s[0] == ' ' then [] else [s[0]] + FirstToken(s[1..])
  }

  /**
   * `s.filter(keep)`: the elements of `s` that satisfy `keep`, in their order,
   * each kept element as often as it occurs in `s`.
   */
  function Filter<T(!new)>(s: seq<T>, keep: T -> bool): (r: seq<T>)
    ensures |r| <= |s|
    ensures (forall i :: 0 <= i < |s| ==> keep(s[i])) ==> r == s
    ensures IsSubsequence(r, s)
    ensures forall x :: multiset(r)[x] == if keep(x) then multiset(s)[x] else 0
  {
    if s == [] then []
    else
      var rest := Filter(s[1..], keep);
      assert s == [s[0]] + s[1..];
      SubsequenceCons(s[0], rest, s[1..]);
      if keep(s[0]) then [s[0]] + rest else rest
  }

  /** Counting each kept value as often as `s` does, and no other, keeps exactly the values of `s` that `keep` admits. */
  lemma CountsGiveMembership<T(!new)>(r: seq<T>, s: seq<T>, keep: T -> bool)
    requires forall x :: multiset(r)[x] == if keep(x) then multiset(s)[x] else 0
    ensures forall x :: x in r <==> x in s && keep(x)
  {
    forall x ensures x in r <==> x in s && keep(x) {
      assert x in r <==> x in multiset(r);
      assert x in s <==> x in multiset(s);
    }
  }

  /** The contract of `Filter` admits exactly one result: any in-order selection with its counts is the filter. */
  lemma FilterDetermined<T(!new)>(r: seq<T>, s: seq<T>, keep: T -> bool)
    requires IsSubsequence(r, s)
    requires forall x :: multiset(r)[x] == if keep(x) then multiset(s)[x] else 0
    ensures r == Filter(s, keep)
  {
    SubsequenceUnique(r, Filter(s, keep), s);
  }

  /** `s.replace(/[^a-zA-Z]/g, '')`: the ASCII letters of `s`, in order. */
  function LettersOnly(s: string): (r: string)
    ensures AllLetters(r)
    ensures |r| <= |s|
    ensures AllLetters(s) ==> r == s
    ensures IsSubsequence(r, s)
    ensures forall ch :: multiset(r)[ch] == if IsAsciiLetter(ch) then multiset(s)[ch] else 0
  {
    var r := Filter(s, IsAsciiLetter);
    CountsGiveMembership(r, s, IsAsciiLetter);
    r
  }

  /**
   * `r` can be obtained from `s` by leaving elements out, the rest kept in
   * their order. Together with a count per value, this pins down a filter.
   */
  ghost predicate IsSubsequence<T>(r: seq<T>, s: seq<T>)
    decreases |s|
  {
    if r == [] then true
    else if s == [] then false
    else (r[0] == s[0] && IsSubsequence(r[1..], s[1..])) || IsSubsequence(r, s[1..])
  }

  /** A subsequence of `s` stays one when `x` is put in front of `s`, whether or not it is kept. */
  lemma SubsequenceCons<T>(x: T, r: seq<T>, s: seq<T>)
    requires IsSubsequence(r, s)
    ensures IsSubsequence([x] + r, [x] + s) && IsSubsequence(r, [x] + s)
  {
    assert ([x] + r)[1..] == r && ([x] + s)[1..] == s;
  }

  /** Leaving elements out never adds occurrences. */
  lemma {:induction false} SubsequenceMultiset<T>(r: seq<T>, s: seq<T>)
    requires IsSubsequence(r, s)
    ensures multiset(r) <= multiset(s)
    decreases |s|
  {
    if r != [] {
      assert s == [s[0]] + s[1..];
      if r[0] == s[0] && IsSubsequence(r[1..], s[1..]) {
        SubsequenceMultiset(r[1..], s[1..]);
        assert r == [r[0]] + r[1..];
      } else {
        SubsequenceMultiset(r, s[1..]);
      }
    }
  }

  /** Every value occurs in `r` either not at all or exactly as often as in `s`. */
  ghost predicate KeptWhole<T(!new)>(r: seq<T>, s: seq<T>) {
    forall x :: multiset(r)[x] == 0 || multiset(r)[x] == multiset(s)[x]
  }

  /**
   * Two subsequences of `s` with the same elements, each value kept either
   * never or at all of its occurrences, are the same sequence.
   */
  lemma {:induction false} SubsequenceUnique<T(!new)>(r1: seq<T>, r2: seq<T>, s: seq<T>)
    requires IsSubsequence(r1, s) && IsSubsequence(r2, s)
    requires multiset(r1) == multiset(r2) && KeptWhole(r1, s)
    ensures r1 == r2
    decreases |s|
  {
    if s != [] {
      if multiset(r1)[s[0]] == 0 {
        SkipFront(r1, s);
        SkipFront(r2, s);
        SubsequenceUnique(r1, r2, s[1..]);
      } else {
        FrontKept(r1, s);
        FrontKept(r2, s);
        TailMultiset(r1, r2);
        TailCounts(r1, s);
        SubsequenceUnique(r1[1..], r2[1..], s[1..]);
        assert r1 == [s[0]] + r1[1..] && r2 == [s[0]] + r2[1..];
      }
    }
  }

  /** A subsequence without the first element of `s` is a subsequence of the rest, keeping the same values whole. */
  lemma SkipFront<T(!new)>(r: seq<T>, s: seq<T>)
    requires s != [] && IsSubsequence(r, s) && multiset(r)[s[0]] == 0 && KeptWhole(r, s)
    ensures IsSubsequence(r, s[1..]) && KeptWhole(r, s[1..])
  {
    assert r == [] || r[0] != s[0];
    assert s == [s[0]] + s[1..];
    forall x ensures multiset(r)[x] == 0 || multiset(r)[x] == multiset(s[1..])[x] {
      assert multiset(s)[x] == multiset{s[0]}[x] + multiset(s[1..])[x];
    }
  }

  /** Dropping the same first element from two sequences with equal multisets leaves equal multisets. */
  lemma TailMultiset<T>(r1: seq<T>, r2: seq<T>)
    requires r1 != [] && r2 != [] && r1[0] == r2[0] && multiset(r1) == multiset(r2)
    ensures multiset(r1[1..]) == multiset(r2[1..])
  {
    assert r1 == [r1[0]] + r1[1..] && r2 == [r2[0]] + r2[1..];
    assert multiset(r1[1..]) == multiset(r1) - multiset{r1[0]};
    assert multiset(r2[1..]) == multiset(r2) - multiset{r2[0]};
  }

  /** Keeping each value never or at every occurrence survives dropping a shared first element. */
  lemma TailCounts<T(!new)>(r: seq<T>, s: seq<T>)
    requires r != [] && s != [] && r[0] == s[0] && KeptWhole(r, s)
    ensures KeptWhole(r[1..], s[1..])
  {
    assert r == [r[0]] + r[1..] && s == [s[0]] + s[1..];
    forall x ensures multiset(r[1..])[x] == 0 || multiset(r[1..])[x] == multiset(s[1..])[x] {
      assert multiset(r)[x] == multiset{r[0]}[x] + multiset(r[1..])[x];
      assert multiset(s)[x] == multiset{s[0]}[x] + multiset(s[1..])[x];
    }
  }

  /** A subsequence holding every occurrence of the first element of `s` starts with it. */
  lemma FrontKept<T>(r: seq<T>, s: seq<T>)
    requires s != [] && IsSubsequence(r, s)
    requires multiset(r)[s[0]] == multiset(s)[s[0]] > 0
    ensures r != [] && r[0] == s[0] && IsSubsequence(r[1..], s[1..])
  {
    assert s == [s[0]] + s[1..];
    if !(r != [] && r[0] == s[0] && IsSubsequence(r[1..], s[1..])) {
      SubsequenceMultiset(r, s[1..]);
      assert false;
    }
  }

  /** `s.indexOf(c)`: the first position holding `c`, if any. */
  function IndexOf(s: string, c: char): (r: Option<nat>)
    ensures r.Some? ==> r.value < |s| && s[r.value] == c && c !in s[..r.value]
    ensures r.None? ==> c !in s
  {
    if s == [] then None
    else if s[0] == c then Some(0)
    else
      var t := IndexOf(s[1..], c);
      if t.None? then None
      else
        assert s[..t.value + 1] == [s[0]] + s[1..][..t.value];
        Some(t.value + 1)
  }
}
