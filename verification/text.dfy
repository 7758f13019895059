/** String helpers with Go's semantics, on strings as sequences of
    characters: `strings.Split` and `strings.Join` with a one-character
    separator, `strconv.Itoa`, `strconv.Atoi`, and the byte length `len`
    of a string, which Go measures in UTF-8 bytes. */
module Text {
  import opened Results

  /** Position of the first occurrence of `c` in `s`. */
  function IndexOf(s: string, c: char): (i: nat)
    requires c in s
    ensures i < |s| && s[i] == c && c !in s[..i]
  {
    if s[0] == c then 0 else 1 + IndexOf(s[1..], c)
  }

  /** `strings.Join`: the parts with `sep` between consecutive ones. */
  function Join(parts: seq<string>, sep: string): string {
    if |parts| == 0 then ""
    else if |parts| == 1 then parts[0]
    else parts[0] + sep + Join(parts[1..], sep)
  }

  /** Number of occurrences of `c` in `s`. */
  function Occurrences(s: string, c: char): nat {
    multiset(s)[c]
  }

  /** `strings.Split` with a one-character separator: the maximal pieces of
      `s` between occurrences of `sep`, one more piece than there are
      separators, and `Join` puts them back together. */
  function Split(s: string, sep: char): (parts: seq<string>)
    ensures |parts| == Occurrences(s, sep) + 1
    ensures forall k | 0 <= k < |parts| :: sep !in parts[k]
    ensures Join(parts, [sep]) == s
    decreases |s|
  {
    if sep !in s then [s]
    else
      var i := IndexOf(s, sep);
      assert s == s[..i] + [sep] + s[i + 1..];
      assert multiset(s) == multiset(s[..i]) + multiset{sep} + multiset(s[i + 1..]);
      [s[..i]] + Split(s[i + 1..], sep)
  }

  /** Splitting a join of separator-free parts gives the parts back. */
  lemma {:induction false} SplitJoin(parts: seq<string>, sep: char)
    requires |parts| >= 1
    requires forall k | 0 <= k < |parts| :: sep !in parts[k]
    ensures Split(Join(parts, [sep]), sep) == parts
  {
    if |parts| > 1 {
      var rest := Join(parts[1..], [sep]);
      var s := parts[0] + [sep] + rest;
      assert Join(parts, [sep]) == s;
      assert s[..|parts[0]|] == parts[0];
      assert s[|parts[0]| + 1..] == rest;
      assert sep in s && s[|parts[0]|] == sep;
      assert IndexOf(s, sep) == |parts[0]|;
      SplitJoin(parts[1..], sep);
    }
  }

  /** The parts, each followed by `sep`: what a loop appending `part + sep`
      builds. */
  function Terminated(parts: seq<string>, sep: string): string {
    if |parts| == 0 then "" else parts[0] + sep + Terminated(parts[1..], sep)
  }

  /** Cutting the last separator off a terminated list leaves the join. */
  lemma {:induction false} TerminatedIsJoin(parts: seq<string>, sep: char)
    requires |parts| >= 1
    ensures Terminated(parts, [sep]) == Join(parts, [sep]) + [sep]
  {
    if |parts| > 1 {
      TerminatedIsJoin(parts[1..], sep);
    }
  }

  /** A character in neither the parts nor the separator is not in their join. */
  lemma {:induction false} JoinExcludes(parts: seq<string>, sep: string, c: char)
    requires c !in sep
    requires forall k | 0 <= k < |parts| :: c !in parts[k]
    ensures c !in Join(parts, sep)
  {
    if |parts| > 1 {
      JoinExcludes(parts[1..], sep, c);
    }
  }

  /** `n` copies of `c`; a count below one gives the empty string, as a Go
      loop `for i := 0; i < n; i++` would. */
  function Repeat(c: char, n: int): (r: string)
    ensures |r| == if n < 0 then 0 else n
    ensures forall k | 0 <= k < |r| :: r[k] == c
    decreases n
  {
    if n <= 0 then "" else [c] + Repeat(c, n - 1)
  }

  /** Number of UTF-8 bytes that encode `c`. */
  function Utf8Width(c: char): nat {
    if c as int < 0x80 then 1
    else if c as int < 0x800 then 2
    else if c as int < 0x10000 then 3
    else 4
  }

  /** Go's `len` of a string: its length in UTF-8 bytes. */
  function ByteLen(s: string): (n: nat)
    ensures n >= |s|
    ensures (forall k | 0 <= k < |s| :: s[k] as int < 0x80) ==> n == |s|
  {
    if |s| == 0 then 0 else Utf8Width(s[0]) + ByteLen(s[1..])
  }

  predicate IsDigit(c: char) {
    '0' <= c <= '9'
  }

  function DigitChar(d: nat): (c: char)
    requires d < 10
    ensures IsDigit(c)
  {
    ['0', '1', '2', '3', '4', '5', '6', '7', '8', '9'][d]
  }

  function DigitValue(c: char): (d: nat)
    requires IsDigit(c)
    ensures d < 10
  {
    (c as int) - ('0' as int)
  }

  /** Decimal digits of `n`, without leading zeros. */
  function Digits(n: nat): (s: string)
    ensures |s| >= 1
    ensures forall k | 0 <= k < |s| :: IsDigit(s[k])
  {
    if n < 10 then [DigitChar(n)] else Digits(n / 10) + [DigitChar(n % 10)]
  }

  /** `strconv.Itoa`: decimal text of an integer, with `-` for negatives. */
  function Itoa(n: int): (s: string)
    ensures |s| >= 1
    ensures forall k | 0 <= k < |s| :: IsDigit(s[k]) || (k == 0 && s[k] == '-')
  {
    if n < 0 then "-" + Digits(-n) else Digits(n)
  }

  /** Value of a string of decimal digits. */
  function DigitsValue(s: string): nat
    requires forall k | 0 <= k < |s| :: IsDigit(s[k])
  {
    if |s| == 0 then 0 else DigitsValue(s[..|s| - 1]) * 10 + DigitValue(s[|s| - 1])
  }

  predicate AllDigits(s: string) {
    forall k | 0 <= k < |s| :: IsDigit(s[k])
  }

  const MinInt64: int := -0x8000_0000_0000_0000
  const MaxInt64: int := 0x7FFF_FFFF_FFFF_FFFF

  /** `strconv.Atoi` on a 64-bit platform: an optional sign followed by at
      least one decimal digit, within the range of a 64-bit integer;
      anything else is an error. */
  function Atoi(s: string): (r: Option<int>)
    ensures r.Some? ==> MinInt64 <= r.value <= MaxInt64
    ensures (|s| == 0 || (!IsDigit(s[0]) && s[0] != '+' && s[0] != '-')) ==> r.Nothing?
  {
    var negative := |s| > 0 && s[0] == '-';
    var body := if |s| > 0 && (s[0] == '+' || s[0] == '-') then s[1..] else s;
    if |body| == 0 || !AllDigits(body) then Nothing
    else
      var magnitude: int := DigitsValue(body);
      var v := if negative then -magnitude else magnitude;
      if MinInt64 <= v <= MaxInt64 then Some(v) else Nothing
  }

  lemma {:induction false} DigitsRoundTrip(n: nat)
    ensures DigitsValue(Digits(n)) == n
  {
    if n >= 10 {
      var s := Digits(n);
      assert s[..|s| - 1] == Digits(n / 10);
      DigitsRoundTrip(n / 10);
    }
  }

  /** Digits without a sign read back as their value. */
  lemma AtoiUnsigned(s: string)
    requires |s| >= 1 && AllDigits(s) && DigitsValue(s) <= MaxInt64
    ensures Atoi(s) == Some(DigitsValue(s))
  {
    assert IsDigit(s[0]);
  }

  /** Digits after a minus sign read back as their value negated. */
  lemma AtoiNegative(body: string)
    requires |body| >= 1 && AllDigits(body) && DigitsValue(body) <= -MinInt64
    ensures Atoi("-" + body) == Some(-(DigitsValue(body) as int))
  {
    var s := "-" + body;
    assert s[0] == '-' && s[1..] == body;
  }

  /** `Atoi` reads back what `Itoa` writes, for every 64-bit integer. */
  lemma AtoiItoa(n: int)
    requires MinInt64 <= n <= MaxInt64
    ensures Atoi(Itoa(n)) == Some(n)
  {
    if n < 0 {
      DigitsRoundTrip(-n);
      AtoiNegative(Digits(-n));
    } else {
      DigitsRoundTrip(n);
      AtoiUnsigned(Digits(n));
    }
  }
}
