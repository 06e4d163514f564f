/** The C library calls the command-line code relies on: `isspace`, `atoi`,
    `strtoul` in base 16, `strstr`, `strchr` and `strcspn`, on strings without
    their terminating NUL. */
module CLib {
  import opened Common

  /** `isspace` in the C locale. */
  predicate IsSpace(c: char) {
    c == ' ' || c == '\t' || c == '\n' || c == '\r' || c == 11 as char || c == 12 as char
  }

  predicate IsDigit(c: char) {
    '0' <= c <= '9'
  }

  /** `isxdigit`. */
  predicate IsHexDigit(c: char) {
    '0' <= c <= '9' || 'a' <= c <= 'f' || 'A' <= c <= 'F'
  }

  function HexDigitValue(c: char): (d: nat)
    requires IsHexDigit(c)
    ensures d < 16
  {
    if '0' <= c <= '9' then c as int - '0' as int
    else if 'a' <= c <= 'f' then c as int - 'a' as int + 10
    else c as int - 'A' as int + 10
  }

  /** The first index at or after `i` that is not white space. */
  function SkipSpaces(s: string, i: nat): (j: nat)
    requires i <= |s|
    ensures i <= j <= |s| && (j < |s| ==> !IsSpace(s[j]))
    ensures forall k :: i <= k < j ==> IsSpace(s[k])
    decreases |s| - i
  {
    if i < |s| && IsSpace(s[i]) then SkipSpaces(s, i + 1) else i
  }

  /** The length of the run of characters satisfying `p` starting at `i`. */
  function RunLength(s: string, i: nat, p: char -> bool): (n: nat)
    requires i <= |s|
    ensures i + n <= |s| && (i + n < |s| ==> !p(s[i + n]))
    ensures forall k :: i <= k < i + n ==> p(s[k])
    decreases |s| - i
  {
    if i < |s| && p(s[i]) then 1 + RunLength(s, i + 1, p) else 0
  }

  /** The value of a string of decimal digits. */
  function DecimalValue(ds: string): nat
    requires forall k :: 0 <= k < |ds| ==> IsDigit(ds[k])
    decreases |ds|
  {
    if ds == [] then 0
    else 10 * DecimalValue(ds[..|ds| - 1]) + DigitValue(ds[|ds| - 1])
  }

  function DigitValue(c: char): (d: nat)
    requires IsDigit(c)
    ensures d < 10
  {
    c as int - '0' as int
  }

  /** The value of a string of hexadecimal digits. */
  function HexDigitsValue(ds: string): nat
    requires forall k :: 0 <= k < |ds| ==> IsHexDigit(ds[k])
    decreases |ds|
  {
    if ds == [] then 0
    else 16 * HexDigitsValue(ds[..|ds| - 1]) + HexDigitValue(ds[|ds| - 1])
  }

  /** Where the digits start after the white space and an optional sign, and
      whether the sign was `-`. */
  function SignEnd(s: string): (r: (nat, bool))
    ensures r.0 <= |s|
  {
    var j := SkipSpaces(s, 0);
    if j < |s| && (s[j] == '-' || s[j] == '+') then (j + 1, s[j] == '-') else (j, false)
  }

  /** `atoi`: white space, an optional sign, then decimal digits; anything after
      them is ignored. The value is not limited to the range of `int`. */
  function Atoi(s: string): (r: int)
    // a negative value needs a `-` sign
    ensures r < 0 ==> SignEnd(s).1
    // without a digit after the white space and the sign the value is 0
    ensures SignEnd(s).0 == |s| || !IsDigit(s[SignEnd(s).0]) ==> r == 0
  {
    var (k, neg) := SignEnd(s);
    var n := RunLength(s, k, IsDigit);
    var v := DecimalValue(s[k..k + n]);
    if neg then -(v as int) else v
  }

  /** The decimal digits of `n`. */
  function DecimalString(n: nat): (r: string)
    ensures r != [] && forall k :: 0 <= k < |r| ==> IsDigit(r[k])
  {
    if n < 10 then [('0' as int + n) as char]
    else DecimalString(n / 10) + [('0' as int + n % 10) as char]
  }

  lemma {:induction false} DecimalStringValue(n: nat)
    ensures DecimalValue(DecimalString(n)) == n
  {
    if n >= 10 {
      var r := DecimalString(n);
      DecimalStringValue(n / 10);
      assert r[..|r| - 1] == DecimalString(n / 10);
    }
  }

  /** `atoi` reads back a number written in decimal, after any white space
      and up to the first character that is not a digit (as the default
      values read from the usage text are). */
  lemma AtoiReadsDecimal(pad: string, n: nat, rest: string)
    requires forall k :: 0 <= k < |pad| ==> IsSpace(pad[k])
    requires rest == [] || !IsDigit(rest[0])
    ensures Atoi(pad + DecimalString(n) + rest) == n
  {
    var d := DecimalString(n);
    DecimalStringValue(n);
    var s := pad + d + rest;
    SignEndAfterSpaces(pad, d + rest);
    assert s == pad + (d + rest);
    AtoiAt(s, |pad|, false, d, rest);
  }

  /** The same with a `-` in front of the digits: the negated number. */
  lemma AtoiReadsNegative(pad: string, n: nat, rest: string)
    requires forall k :: 0 <= k < |pad| ==> IsSpace(pad[k])
    requires rest == [] || !IsDigit(rest[0])
    ensures Atoi(pad + "-" + DecimalString(n) + rest) == -(n as int)
  {
    var d := DecimalString(n);
    DecimalStringValue(n);
    var tail := "-" + (d + rest);
    var s := pad + tail;
    SignEndAfterSpaces(pad, tail);
    assert pad + "-" + d + rest == s;
    assert s[|pad| + 1..] == d + rest;
    AtoiAt(s, |pad| + 1, true, d, rest);
  }

  /** White space followed by something else: the sign, if any, is read
      right after the white space. */
  lemma SignEndAfterSpaces(pad: string, tail: string)
    requires forall k :: 0 <= k < |pad| ==> IsSpace(pad[k])
    requires tail != [] && !IsSpace(tail[0])
    ensures var s := pad + tail;
      s[|pad|..] == tail
      && SignEnd(s) == (if tail[0] == '-' || tail[0] == '+' then (|pad| + 1, tail[0] == '-') else (|pad|, false))
  {
    var s := pad + tail;
    assert forall k :: 0 <= k < |pad| ==> s[k] == pad[k];
    assert s[|pad|] == tail[0];
    SkipSpacesTo(s, 0, |pad|);
  }

  /** `atoi` of a string whose digits start at `k` with `d`. */
  lemma AtoiAt(s: string, k: nat, neg: bool, d: string, rest: string)
    requires SignEnd(s) == (k, neg) && k <= |s| && s[k..] == d + rest
    requires forall i :: 0 <= i < |d| ==> IsDigit(d[i])
    requires rest == [] || !IsDigit(rest[0])
    ensures Atoi(s) == if neg then -(DecimalValue(d) as int) else DecimalValue(d)
  {
    DigitsAt(s, k, d, rest);
  }

  /** White space from `i` up to a character that is not white space at `m`
      is skipped up to `m`. */
  lemma SkipSpacesTo(s: string, i: nat, m: nat)
    requires i <= m < |s| && !IsSpace(s[m])
    requires forall k :: i <= k < m ==> IsSpace(s[k])
    ensures SkipSpaces(s, i) == m
    decreases m - i
  {
    if i < m {
      SkipSpacesTo(s, i + 1, m);
    }
  }

  /** The digit run at `k` of a string that continues with `d + rest` is `d`. */
  lemma DigitsAt(s: string, k: nat, d: string, rest: string)
    requires k <= |s| && s[k..] == d + rest
    requires forall i :: 0 <= i < |d| ==> IsDigit(d[i])
    requires rest == [] || !IsDigit(rest[0])
    ensures RunLength(s, k, IsDigit) == |d| && s[k..k + |d|] == d
  {
    assert forall i :: 0 <= i < |d| ==> s[k + i] == (d + rest)[i];
    assert k + |d| < |s| ==> s[k + |d|] == rest[0];
    RunLengthOfPrefix(s, k, IsDigit, |d|);
    assert s[k..k + |d|] == (d + rest)[..|d|];
  }

  /** A run ends where its predicate first fails. */
  lemma RunLengthOfPrefix(s: string, i: nat, p: char -> bool, n: nat)
    requires i + n <= |s| && forall k :: i <= k < i + n ==> p(s[k])
    requires i + n == |s| || !p(s[i + n])
    ensures RunLength(s, i, p) == n
    decreases n
  {
    if n > 0 {
      RunLengthOfPrefix(s, i + 1, p, n - 1);
    }
  }

  /** The largest `unsigned long`; `strtoul` saturates to it on overflow. */
  const ULongMax: nat := 0xFFFF_FFFF

  /** `strtoul(s, &end, 16)`: the value and the index where parsing stopped (0
      when no digits were found). A `0x`/`0X` prefix is skipped only when a hex
      digit follows it; a `-` sign negates the value modulo 2^32. */
  function Strtoul16(s: string): (r: (nat, nat))
    ensures r.0 <= ULongMax && r.1 <= |s|
  {
    var se := SignEnd(s);
    StrtoulDigits(s, HexStart(s, se.0), se.1)
  }

  /** Where the digits start: after a `0x`/`0X` that a hex digit follows. */
  function HexStart(s: string, k: nat): (k2: nat)
    requires k <= |s|
    ensures k <= k2 <= |s|
  {
    if k + 2 < |s| && s[k] == '0' && (s[k + 1] == 'x' || s[k + 1] == 'X') && IsHexDigit(s[k + 2])
    then k + 2 else k
  }

  /** The conversion of the digits from `k2` on, negated modulo 2^32 after a
      `-` and saturated on overflow. */
  function StrtoulDigits(s: string, k2: nat, neg: bool): (r: (nat, nat))
    requires k2 <= |s|
    ensures r.0 <= ULongMax && r.1 <= |s|
  {
    var ds := HexRun(s, k2);
    if ds == [] then (0, 0)
    else
      var v := HexDigitsValue(ds);
      var value := if v > ULongMax then ULongMax else if neg then (Pow32 - v) % Pow32 else v;
      (value, k2 + |ds|)
  }

  /** The run of hex digits starting at `i`. */
  function HexRun(s: string, i: nat): (ds: string)
    requires i <= |s|
    ensures |ds| == RunLength(s, i, IsHexDigit) && forall k :: 0 <= k < |ds| ==> IsHexDigit(ds[k])
  {
    s[i..i + RunLength(s, i, IsHexDigit)]
  }

  /** A string made only of hex digits is consumed completely and read as its
      value (when that fits an `unsigned long`). */
  lemma StrtoulReadsHexDigits(s: string)
    requires s != [] && forall k :: 0 <= k < |s| ==> IsHexDigit(s[k])
    requires HexDigitsValue(s) <= ULongMax
    ensures Strtoul16(s) == (HexDigitsValue(s), |s|)
  {
    DigitStartsNumber(s);
    assert HexStart(s, 0) == 0 by {
      if 1 < |s| {
        assert IsHexDigit(s[1]);
      }
    }
    assert HexRun(s, 0) == s by {
      RunLengthOfPrefix(s, 0, IsHexDigit, |s|);
    }
  }

  /** A number that starts with a digit has no white space or sign before it. */
  lemma DigitStartsNumber(s: string)
    requires s != [] && IsHexDigit(s[0])
    ensures SignEnd(s) == (0, false)
  {
    assert !IsSpace(s[0]) && s[0] != '-' && s[0] != '+';
    assert SkipSpaces(s, 0) == 0;
  }

  /** After a run of hex digits, a character that can neither continue nor
      start a number stops `strtoul`: it consumes exactly the digits (or
      nothing at all), so it never reaches the end of the string. */
  lemma StrtoulStopsAtJunk(s: string, i: nat)
    requires i < |s| && !IsHexDigit(s[i]) && !IsSpace(s[i])
    requires s[i] != '-' && s[i] != '+' && s[i] != 'x' && s[i] != 'X'
    requires forall k :: 0 <= k < i ==> IsHexDigit(s[k])
    ensures Strtoul16(s).1 == 0 || Strtoul16(s).1 == i
  {
    assert !IsSpace(s[0]) && s[0] != '-' && s[0] != '+';
    assert SkipSpaces(s, 0) == 0;
    assert SignEnd(s) == (0, false);
    RunLengthOfPrefix(s, 0, IsHexDigit, i);
  }

  /** `pat` occurs in `s` at index `i`. */
  predicate OccursAt(s: string, pat: string, i: nat) {
    i + |pat| <= |s| && s[i..i + |pat|] == pat
  }

  /** `strstr(s + from, pat)`, as an index into `s`. */
  function StrStr(s: string, pat: string, from: nat): (r: Option<nat>)
    requires from <= |s|
    ensures r.Some? ==> from <= r.value && OccursAt(s, pat, r.value)
    decreases |s| - from
  {
    if from + |pat| > |s| then None
    else if s[from..from + |pat|] == pat then Some(from)
    else StrStr(s, pat, from + 1)
  }

  /** `strstr` finds the first occurrence: any occurrence at or after `from`
      is found, or one before it is. */
  lemma {:induction false} StrStrIsFirst(s: string, pat: string, from: nat, i: nat)
    requires from <= i && OccursAt(s, pat, i)
    ensures StrStr(s, pat, from).Some? && StrStr(s, pat, from).value <= i
    decreases i - from
  {
    if from < i && s[from..from + |pat|] != pat {
      StrStrIsFirst(s, pat, from + 1, i);
    }
  }

  /** `strchr(s + from, c)`, as an index into `s`. */
  function StrChr(s: string, c: char, from: nat): (r: Option<nat>)
    requires from <= |s|
    ensures r.Some? ==> from <= r.value < |s| && s[r.value] == c
    ensures forall i :: from <= i < (if r.Some? then r.value else |s|) ==> s[i] != c
    decreases |s| - from
  {
    if from == |s| then None
    else if s[from] == c then Some(from)
    else StrChr(s, c, from + 1)
  }
}
