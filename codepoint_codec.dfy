/** The `U+XXXX` <-> character codec of the transliteration engine
    (src/mojibake.c): UTF-16 surrogate arithmetic (section 3.9 of the Unicode
    Standard, section 2 of RFC 2781), `wcstoul`-style hex parsing, `%02X`
    formatting, and the two bounded buffer writers. */
module CodepointCodec {
  import opened Common

  const CodespaceEnd: int := 0x11_0000
  const BmpEnd: int := 0x1_0000
  const HighSurrogateStart: int := 0xD800
  const LowSurrogateStart: int := 0xDC00

  // the wide characters the codec looks for or emits
  const ChU: Unit := 0x55     // 'U'
  const ChPlus: Unit := 0x2B  // '+'
  const ChEq: Unit := 0x3D    // '='
  const ChSpace: Unit := 0x20 // ' '
  const ChZero: Unit := 0x30  // '0'

  predicate IsHighSurrogate(u: int) { 0xD800 <= u <= 0xDBFF }
  predicate IsLowSurrogate(u: int) { 0xDC00 <= u <= 0xDFFF }

  /** A code point the codec accepts: in the codespace and not a surrogate. */
  predicate IsScalar(v: int) {
    0 <= v < CodespaceEnd && !IsHighSurrogate(v) && !IsLowSurrogate(v)
  }

  /** The surrogate pair of a supplementary code point. */
  function SplitSurrogates(v: int): (r: (Unit, Unit))
    requires BmpEnd <= v < CodespaceEnd
    ensures IsHighSurrogate(r.0) && IsLowSurrogate(r.1)
  {
    var u := v - BmpEnd;
    ((u / 0x400) % 0x400 + HighSurrogateStart, u % 0x400 + LowSurrogateStart)
  }

  /** The code point of a surrogate pair. */
  function CombineSurrogates(hi: Unit, lo: Unit): (v: int)
    requires IsHighSurrogate(hi) && IsLowSurrogate(lo)
    ensures BmpEnd <= v < CodespaceEnd
  {
    (hi - HighSurrogateStart) * 0x400 + (lo - LowSurrogateStart) + BmpEnd
  }

  /** Splitting then recombining gives back the code point. */
  lemma CombineAfterSplit(v: int)
    requires BmpEnd <= v < CodespaceEnd
    ensures CombineSurrogates(SplitSurrogates(v).0, SplitSurrogates(v).1) == v
  {
    var u := v - BmpEnd;
    assert u / 0x400 < 0x400;
    assert (u / 0x400) * 0x400 + u % 0x400 == u;
  }

  /** Combining then splitting gives back the pair. */
  lemma SplitAfterCombine(hi: Unit, lo: Unit)
    requires IsHighSurrogate(hi) && IsLowSurrogate(lo)
    ensures SplitSurrogates(CombineSurrogates(hi, lo)) == (hi, lo)
  {
    var u := (hi - HighSurrogateStart) * 0x400 + (lo - LowSurrogateStart);
    assert u / 0x400 == hi - HighSurrogateStart;
    assert u % 0x400 == lo - LowSurrogateStart;
  }

  /** The UTF-16 encoding of an accepted code point. */
  function Encode(v: int): (r: seq<Unit>)
    requires IsScalar(v)
    ensures 1 <= |r| <= 2
    ensures |r| == 1 <==> v < BmpEnd
  {
    if v < BmpEnd then [v as Unit]
    else var p := SplitSurrogates(v); [p.0, p.1]
  }

  // ---- hex digits ----------------------------------------------------------

  /** `isxdigit`, on the ASCII range. */
  predicate IsHexUnit(u: int) {
    0x30 <= u <= 0x39 || 0x41 <= u <= 0x46 || 0x61 <= u <= 0x66
  }

  function DigitValue(u: Unit): (d: nat)
    requires IsHexUnit(u)
    ensures d < 16
  {
    if u <= 0x39 then u - 0x30 else if u <= 0x46 then u - 0x41 + 10 else u - 0x61 + 10
  }

  /** The upper-case hex digit of `d`. */
  function HexUnit(d: nat): (u: Unit)
    requires d < 16
    ensures IsHexUnit(u) && DigitValue(u) == d
  {
    if d < 10 then 0x30 + d else 0x41 + d - 10
  }

  predicate AllHex(ds: seq<Unit>) {
    forall i :: 0 <= i < |ds| ==> IsHexUnit(ds[i])
  }

  /** The number denoted by a run of hex digits (most significant first). */
  function HexValue(ds: seq<Unit>): nat
    requires AllHex(ds)
  {
    if ds == [] then 0 else HexValue(ds[..|ds| - 1]) * 16 + DigitValue(ds[|ds| - 1])
  }

  /** Length of the run of hex digits at the start of `s`. */
  function HexRunLength(s: seq<Unit>): (n: nat)
    ensures n <= |s| && AllHex(s[..n])
    ensures n < |s| ==> !IsHexUnit(s[n])
  {
    if s == [] || !IsHexUnit(s[0]) then 0
    else
      var n := 1 + HexRunLength(s[1..]);
      assert s[..n] == [s[0]] + s[1..][..n - 1];
      n
  }

  /** Minimal upper-case hex digits of `v`. */
  function ToHex(v: nat): (r: seq<Unit>)
    ensures |r| >= 1 && AllHex(r) && HexValue(r) == v
  {
    if v < 16 then
      [HexUnit(v)]
    else
      var r := ToHex(v / 16) + [HexUnit(v % 16)];
      assert r[..|r| - 1] == ToHex(v / 16);
      r
  }

  /** `%02X`: upper-case hex, at least two digits. */
  function Hex2(v: nat): (r: seq<Unit>)
    ensures |r| >= 2 && AllHex(r) && HexValue(r) == v
  {
    if v < 16 then
      var r := [HexUnit(0), HexUnit(v)];
      assert r[..1] == [HexUnit(0)] && [HexUnit(0)][..0] == [];
      r
    else ToHex(v)
  }

  lemma {:induction false} ToHexLength(v: nat, k: nat)
    requires v < Pow16(k) && k >= 1
    ensures |ToHex(v)| <= k
    decreases k
  {
    if v >= 16 {
      ToHexLength(v / 16, k - 1);
    }
  }

  function Pow16(k: nat): (p: nat)
    ensures p >= 1
  {
    if k == 0 then 1 else 16 * Pow16(k - 1)
  }

  /** Every UTF-16 code unit or code point needs at most six digits. */
  lemma Hex2AtMostSix(v: nat)
    requires v < CodespaceEnd
    ensures |Hex2(v)| <= 6
  {
    assert Pow16(6) == 0x100_0000;
    if v >= 16 {
      ToHexLength(v, 6);
    }
  }

  // ---- U+XXXX -> characters ------------------------------------------------

  /** `U` `+` followed by a hex digit: the start of a token. */
  predicate StartsToken(s: seq<Unit>) {
    |s| >= 3 && s[0] == ChU && s[1] == ChPlus && IsHexUnit(s[2])
  }

  /** Offset of the first digit that `wcstoul(.., 16)` converts when called
      just after `U+`: a `0x`/`0X` prefix followed by a hex digit is skipped. */
  function DigitsStart(s: seq<Unit>): (k: nat)
    requires StartsToken(s)
    ensures k == 2 || k == 4
    ensures k < |s| && IsHexUnit(s[k])
  {
    if s[2] == ChZero && |s| >= 5 && (s[3] == 0x78 || s[3] == 0x58) && IsHexUnit(s[4]) then 4 else 2
  }

  /** The value `wcstoul` returns at a token and the index just past its digits
      (`eptr`). The value is kept unbounded: `wcstoul` saturates at 2^32-1,
      and both are rejected alike by the codespace check. */
  function TokenValue(s: seq<Unit>): (r: (nat, nat))
    requires StartsToken(s)
    ensures 3 <= r.1 <= |s|
  {
    var k := DigitsStart(s);
    var n := HexRunLength(s[k..]);
    (HexValue(s[k..][..n]), k + n)
  }

  /** `TranslateHexToUnicode`, as a function of the whole source. */
  function HexToUnicode(s: seq<Unit>): seq<Unit>
    decreases |s|
  {
    if s == [] then []
    else HexStep(s).0 + HexToUnicode(s[HexStep(s).1..])
  }

  /** One iteration of the translation loop: the units it emits and the
      number of source units it consumes. An accepted token becomes its
      encoding; anything else, including the `U` of a rejected token, is
      copied and scanning resumes at the next unit. */
  function HexStep(s: seq<Unit>): (r: (seq<Unit>, nat))
    requires s != []
    ensures 1 <= r.1 <= |s| && 1 <= |r.0| <= 2 && |r.0| <= r.1
  {
    if StartsToken(s) && IsScalar(TokenValue(s).0) then (Encode(TokenValue(s).0), TokenValue(s).1)
    else ([s[0]], 1)
  }

  lemma HexToUnicodeUnfold(s: seq<Unit>)
    requires s != []
    ensures HexToUnicode(s) == HexStep(s).0 + HexToUnicode(s[HexStep(s).1..])
  {
  }

  /** Only a `U` can start a token. */
  lemma HexStepCopies(s: seq<Unit>)
    requires s != [] && s[0] != ChU
    ensures HexStep(s) == ([s[0]], 1)
  {
  }

  /** Hex to Unicode never lengthens the text: a token of at least three
      units becomes one or two. */
  lemma {:induction false} HexToUnicodeNotLonger(s: seq<Unit>)
    ensures |HexToUnicode(s)| <= |s|
    decreases |s|
  {
    if s != [] {
      HexToUnicodeNotLonger(s[HexStep(s).1..]);
    }
  }

  /** Text with no `U` passes through unchanged. */
  lemma {:induction false} HexToUnicodeCopiesPlainText(p: seq<Unit>, rest: seq<Unit>)
    requires forall i :: 0 <= i < |p| ==> p[i] != ChU
    ensures HexToUnicode(p + rest) == p + HexToUnicode(rest)
    decreases |p|
  {
    if p != [] {
      var q := p + rest;
      assert q[0] == p[0];
      HexStepCopies(q);
      HexToUnicodeUnfold(q);
      assert q[1..] == p[1..] + rest;
      assert HexToUnicode(q) == [p[0]] + HexToUnicode(p[1..] + rest);
      HexToUnicodeCopiesPlainText(p[1..], rest);
      assert [p[0]] + p[1..] == p;
    } else {
      assert p + rest == rest;
    }
  }

  /** "U+0040" becomes "@". */
  lemma HexToUnicodeExample()
    ensures HexToUnicode([ChU, ChPlus, 0x30, 0x30, 0x34, 0x30]) == [0x40]
  {
    var s: seq<Unit> := [ChU, ChPlus, 0x30, 0x30, 0x34, 0x30];
    var d := s[2..];
    assert HexRunLength(d[4..]) == 0;
    assert HexRunLength(d[3..]) == 1;
    assert HexRunLength(d[2..]) == 2;
    assert HexRunLength(d[1..]) == 3;
    assert HexRunLength(d) == 4;
    assert d[..4] == d;
    assert d[..3] == [0x30, 0x30, 0x34];
    assert d[..3][..2] == [0x30, 0x30];
    assert d[..3][..2][..1] == [0x30];
    assert HexValue([0x30]) == 0 by { assert [0x30][..0] == []; }
    assert HexValue([0x30, 0x30]) == 0 by { assert [0x30, 0x30][..1] == [0x30]; }
    assert HexValue([0x30, 0x30, 0x34]) == 4 by { assert [0x30, 0x30, 0x34][..2] == [0x30, 0x30]; }
    assert HexValue(d) == 0x40;
    assert TokenValue(s) == (0x40, 6);
    assert HexStep(s) == ([0x40], 6);
    assert s[6..] == [];
  }

  // ---- characters -> U+XXXX ------------------------------------------------

  /** What follows each character: `=U+`, `%02X` of its code point, a space. */
  function Tag(v: nat): seq<Unit> {
    [ChEq, ChU, ChPlus] + Hex2(v) + [ChSpace]
  }

  predicate IsPairAt(s: seq<Unit>, i: nat) {
    i + 1 < |s| && IsHighSurrogate(s[i]) && IsLowSurrogate(s[i + 1])
  }

  /** `TranslateUnicodeToHex`, as a function of the whole source. */
  function UnicodeToHex(s: seq<Unit>): seq<Unit>
    decreases |s|
  {
    if s == [] then [] else UnicodePiece(s) + UnicodeToHex(s[PieceLength(s)..])
  }

  /** A surrogate pair is read as one code point; any other unit alone. */
  function PieceLength(s: seq<Unit>): (n: nat)
    requires s != []
    ensures 1 <= n <= |s|
  {
    if IsPairAt(s, 0) then 2 else 1
  }

  /** One iteration of the loop: the unit(s) of the character, then its tag. */
  function UnicodePiece(s: seq<Unit>): seq<Unit>
    requires s != []
  {
    if IsPairAt(s, 0) then [s[0], s[1]] + Tag(CombineSurrogates(s[0], s[1]))
    else [s[0]] + Tag(s[0])
  }

  /** `OutputSizeForUnicodeToHex`: eleven units per source unit always suffice. */
  lemma {:induction false} UnicodeToHexFits(s: seq<Unit>)
    ensures |UnicodeToHex(s)| <= 11 * |s|
    decreases |s|
  {
    if s != [] {
      if IsPairAt(s, 0) {
        Hex2AtMostSix(CombineSurrogates(s[0], s[1]));
      } else {
        Hex2AtMostSix(s[0]);
      }
      UnicodeToHexFits(s[PieceLength(s)..]);
    }
  }

  /** "@" becomes "@=U+40 ". */
  lemma UnicodeToHexExample()
    ensures UnicodeToHex([0x40]) == [0x40, ChEq, ChU, ChPlus, 0x34, 0x30, ChSpace]
  {
    assert ToHex(4) == [0x34];
    assert ToHex(0x40) == [0x34, 0x30];
  }

  /** What the hex-to-Unicode direction makes of one piece of
      `UnicodeToHex`'s output: `c=U+XX ` becomes `c=c `, except that the
      tag of a lone surrogate is not an accepted code point and stays. */
  function EchoPiece(s: seq<Unit>): seq<Unit>
    requires s != []
  {
    if IsPairAt(s, 0) then [s[0], s[1], ChEq, s[0], s[1], ChSpace]
    else if IsScalar(s[0]) then [s[0], ChEq, s[0], ChSpace]
    else [s[0]] + Tag(s[0])
  }

  function Echo(s: seq<Unit>): seq<Unit>
    decreases |s|
  {
    if s == [] then []
    else EchoPiece(s) + Echo(s[if IsPairAt(s, 0) then 2 else 1..])
  }

  /** A run of hex digits ended by a space has exactly that length. */
  lemma {:induction false} HexRunOfDigitsThenSpace(d: seq<Unit>, rest: seq<Unit>)
    requires AllHex(d)
    ensures HexRunLength(d + [ChSpace] + rest) == |d|
    decreases |d|
  {
    if d != [] {
      assert (d + [ChSpace] + rest)[1..] == d[1..] + [ChSpace] + rest;
      HexRunOfDigitsThenSpace(d[1..], rest);
    }
  }

  /** A tag with digits `h`: `=U+`, the digits, a space. */
  function TagOf(h: seq<Unit>): seq<Unit> {
    [ChEq, ChU, ChPlus] + h + [ChSpace]
  }

  /** The token in a tag reads back the value of its digits. */
  lemma TagToken(h: seq<Unit>, rest: seq<Unit>)
    requires AllHex(h) && |h| >= 2
    ensures var t := [ChU, ChPlus] + h + [ChSpace] + rest;
            StartsToken(t) && TokenValue(t) == (HexValue(h), 2 + |h|)
  {
    var t := [ChU, ChPlus] + h + [ChSpace] + rest;
    assert t[2..] == h + [ChSpace] + rest;
    assert t[2] == h[0] && t[3] == h[1];
    assert !(t[3] == 0x78 || t[3] == 0x58);
    assert DigitsStart(t) == 2;
    HexRunOfDigitsThenSpace(h, rest);
    assert t[2..][..|h|] == h;
  }

  /** The `=` of a tag is copied; reading goes on at its `U`. */
  lemma TagEqCopied(h: seq<Unit>, rest: seq<Unit>)
    ensures HexToUnicode(TagOf(h) + rest) == [ChEq] + HexToUnicode([ChU, ChPlus] + h + [ChSpace] + rest)
  {
    var t := [ChU, ChPlus] + h + [ChSpace] + rest;
    assert TagOf(h) + rest == [ChEq] + t;
    HexToUnicodeCopiesPlainText([ChEq], t);
  }

  /** After the `U` of a tag comes text with no `U`. */
  lemma PlainAfterU(h: seq<Unit>, rest: seq<Unit>)
    requires AllHex(h)
    ensures HexToUnicode(([ChU, ChPlus] + h + [ChSpace] + rest)[1..]) == [ChPlus] + h + [ChSpace] + HexToUnicode(rest)
  {
    var plain := [ChPlus] + h + [ChSpace];
    assert ([ChU, ChPlus] + h + [ChSpace] + rest)[1..] == plain + rest;
    assert forall i :: 0 <= i < |plain| ==> plain[i] != ChU;
    HexToUnicodeCopiesPlainText(plain, rest);
  }

  /** A tag whose value is an accepted code point reads back as `=c `. */
  lemma ScalarTagOfReadBack(h: seq<Unit>, rest: seq<Unit>)
    requires AllHex(h) && |h| >= 2 && IsScalar(HexValue(h))
    ensures HexToUnicode(TagOf(h) + rest) == [ChEq] + Encode(HexValue(h)) + [ChSpace] + HexToUnicode(rest)
  {
    var t := [ChU, ChPlus] + h + [ChSpace] + rest;
    var e := Encode(HexValue(h));
    var tail := HexToUnicode(rest);
    TagEqCopied(h, rest);
    assert HexToUnicode(t) == e + ([ChSpace] + tail) by {
      TagToken(h, rest);
      assert HexStep(t) == (e, 2 + |h|);
      HexToUnicodeUnfold(t);
      assert t[2 + |h|..] == [ChSpace] + rest;
      HexToUnicodeCopiesPlainText([ChSpace], rest);
    }
    AppendAssoc3(ChEq, e, tail);
  }

  lemma AppendAssoc3(a: Unit, e: seq<Unit>, tail: seq<Unit>)
    ensures [a] + (e + ([ChSpace] + tail)) == [a] + e + [ChSpace] + tail
  {
  }

  /** A tag whose value is not accepted is copied unchanged. */
  lemma RejectedTagOfReadBack(h: seq<Unit>, rest: seq<Unit>)
    requires AllHex(h) && |h| >= 2 && !IsScalar(HexValue(h))
    ensures HexToUnicode(TagOf(h) + rest) == TagOf(h) + HexToUnicode(rest)
  {
    var t := [ChU, ChPlus] + h + [ChSpace] + rest;
    var plain := [ChPlus] + h + [ChSpace];
    var tail := HexToUnicode(rest);
    TagEqCopied(h, rest);
    assert HexToUnicode(t) == [ChU] + HexToUnicode(t[1..]) by {
      TagToken(h, rest);
      assert HexStep(t) == ([ChU], 1);
      HexToUnicodeUnfold(t);
    }
    PlainAfterU(h, rest);
    TagOfSplit(h, tail);
  }

  lemma TagOfSplit(h: seq<Unit>, q: seq<Unit>)
    ensures [ChEq] + ([ChU] + ([ChPlus] + h + [ChSpace] + q)) == TagOf(h) + q
  {
    assert TagOf(h) == [ChEq] + ([ChU] + ([ChPlus] + h + [ChSpace]));
  }

  /** The tag of an accepted code point reads back as `=c `. */
  lemma ScalarTagReadBack(v: nat, rest: seq<Unit>)
    requires IsScalar(v)
    ensures HexToUnicode(Tag(v) + rest) == [ChEq] + Encode(v) + [ChSpace] + HexToUnicode(rest)
  {
    assert Tag(v) == TagOf(Hex2(v));
    ScalarTagOfReadBack(Hex2(v), rest);
  }

  /** The tag of a lone surrogate is copied unchanged. */
  lemma SurrogateTagReadBack(v: nat, rest: seq<Unit>)
    requires !IsScalar(v)
    ensures HexToUnicode(Tag(v) + rest) == Tag(v) + HexToUnicode(rest)
  {
    assert Tag(v) == TagOf(Hex2(v));
    RejectedTagOfReadBack(Hex2(v), rest);
  }

  /** The round trip of a surrogate pair. */
  lemma PairReadBack(s: seq<Unit>)
    requires IsPairAt(s, 0)
    ensures HexToUnicode(UnicodeToHex(s)) == EchoPiece(s) + HexToUnicode(UnicodeToHex(s[2..]))
  {
    var v := CombineSurrogates(s[0], s[1]);
    var rest := UnicodeToHex(s[2..]);
    assert UnicodeToHex(s) == [s[0], s[1]] + (Tag(v) + rest) by {
      assert PieceLength(s) == 2;
      AppendAssoc([s[0], s[1]], Tag(v), rest);
    }
    assert s[0] != ChU && s[1] != ChU;
    var tail := HexToUnicode(rest);
    assert HexToUnicode(UnicodeToHex(s)) == [s[0], s[1]] + HexToUnicode(Tag(v) + rest) by {
      HexToUnicodeCopiesPlainText([s[0], s[1]], Tag(v) + rest);
    }
    assert HexToUnicode(Tag(v) + rest) == [ChEq] + Encode(v) + [ChSpace] + tail by {
      ScalarTagReadBack(v, rest);
    }
    assert Encode(v) == [s[0], s[1]] by {
      SplitAfterCombine(s[0], s[1]);
    }
    assert EchoPiece(s) == [s[0], s[1], ChEq, s[0], s[1], ChSpace];
    PairPieces(s[0], s[1], tail);
  }

  lemma PairPieces(hi: Unit, lo: Unit, tail: seq<Unit>)
    ensures [hi, lo] + ([ChEq] + [hi, lo] + [ChSpace] + tail) == [hi, lo, ChEq, hi, lo, ChSpace] + tail
  {
  }

  lemma UnicodeToHexSingle(s: seq<Unit>)
    requires s != [] && !IsPairAt(s, 0)
    ensures UnicodeToHex(s) == [s[0]] + (Tag(s[0]) + UnicodeToHex(s[1..]))
  {
    assert PieceLength(s) == 1 && UnicodePiece(s) == [s[0]] + Tag(s[0]);
    ConsAppend(s[0], Tag(s[0]), UnicodeToHex(s[1..]));
  }

  /** The round trip of any other unit. */
  lemma SingleReadBack(s: seq<Unit>)
    requires s != [] && !IsPairAt(s, 0)
    ensures HexToUnicode(UnicodeToHex(s)) == EchoPiece(s) + HexToUnicode(UnicodeToHex(s[1..]))
  {
    var c := s[0];
    var rest := UnicodeToHex(s[1..]);
    var tail := HexToUnicode(rest);
    var t := Tag(c) + rest;
    UnicodeToHexSingle(s);
    assert HexToUnicode([c] + t) == [c] + HexToUnicode(t) by {
      assert t[0] == ChEq;
      assert !StartsToken([c] + t);
      HexToUnicodeUnfold([c] + t);
      assert HexStep([c] + t) == ([c], 1);
      assert ([c] + t)[1..] == t;
    }
    if IsScalar(c) {
      ScalarTagReadBack(c, rest);
      EchoScalar(s);
      ConsAppend(c, [ChEq] + Encode(c) + [ChSpace], tail);
    } else {
      assert HexToUnicode(t) == Tag(c) + tail by {
        SurrogateTagReadBack(c, rest);
      }
      assert EchoPiece(s) == [c] + Tag(c);
      ConsAppend(c, Tag(c), tail);
    }
  }

  /** The echo of a unit that is a code point of its own. */
  lemma EchoScalar(s: seq<Unit>)
    requires s != [] && !IsPairAt(s, 0) && IsScalar(s[0])
    ensures EchoPiece(s) == [s[0]] + ([ChEq] + Encode(s[0]) + [ChSpace])
  {
    assert Encode(s[0]) == [s[0]];
  }

  lemma AppendAssoc(a: seq<Unit>, b: seq<Unit>, c: seq<Unit>)
    ensures a + (b + c) == (a + b) + c
  {
  }

  lemma ConsAppend(a: Unit, p: seq<Unit>, q: seq<Unit>)
    ensures [a] + (p + q) == [a] + p + q
  {
  }

  /** Round trip: converting characters to `U+XXXX` tags and back gives each
      character twice, `c=c `; only lone surrogates keep their tag. */
  lemma {:induction false} HexToUnicodeAfterUnicodeToHex(s: seq<Unit>)
    ensures HexToUnicode(UnicodeToHex(s)) == Echo(s)
    decreases |s|
  {
    if s != [] {
      if IsPairAt(s, 0) {
        PairReadBack(s);
        HexToUnicodeAfterUnicodeToHex(s[2..]);
      } else {
        SingleReadBack(s);
        HexToUnicodeAfterUnicodeToHex(s[1..]);
      }
    }
  }

  // ---- the buffer writers --------------------------------------------------

  /** The first `n` units of `s` (all of it when it is shorter). */
  function Clip(s: seq<Unit>, n: nat): (r: seq<Unit>)
    ensures |r| == if |s| <= n then |s| else n
  {
    if |s| <= n then s else s[..n]
  }

  lemma ClipAppend(p: seq<Unit>, ch: Unit, cap: nat)
    ensures Clip(p + [ch], cap) == if |p| < cap then Clip(p, cap) + [ch] else Clip(p, cap)
  {
    if |p| >= cap {
      assert (p + [ch])[..cap] == p[..cap];
    }
  }

  /** `AddCharToBuffer`: writes `ch` at `pos` only while room remains;
      `pos` and `room` play the output position and the remaining count. */
  method AddCharToBuffer(ch: Unit, buffer: array<Unit>, pos: nat, room: nat) returns (pos': nat, room': nat)
    requires pos + room <= buffer.Length
    modifies buffer
    ensures pos' + room' == pos + room
    ensures room > 0 ==> pos' == pos + 1 && buffer[..] == old(buffer[..])[pos := ch]
    ensures room == 0 ==> pos' == pos && buffer[..] == old(buffer[..])
    ensures buffer[..pos'] == old(buffer[..pos]) + if room > 0 then [ch] else []
  {
    if room > 0 {
      buffer[pos] := ch;
      assert buffer[..pos + 1] == old(buffer[..pos]) + [ch];
      return pos + 1, room - 1;
    }
    return pos, room;
  }

  /** The cases of one loop iteration, as the code distinguishes them. */
  lemma HexStepCases(s: seq<Unit>)
    requires s != []
    ensures (s[0] == ChU && UnitAt(s, 1) == ChPlus && IsHexUnit(UnitAt(s, 2))) <==> StartsToken(s)
    ensures StartsToken(s) && IsScalar(TokenValue(s).0) && TokenValue(s).0 < BmpEnd
            ==> HexStep(s) == ([TokenValue(s).0 as Unit], TokenValue(s).1)
    ensures StartsToken(s) && IsScalar(TokenValue(s).0) && TokenValue(s).0 >= BmpEnd
            ==> HexStep(s) == ([SplitSurrogates(TokenValue(s).0).0, SplitSurrogates(TokenValue(s).0).1], TokenValue(s).1)
    ensures !(StartsToken(s) && IsScalar(TokenValue(s).0)) ==> HexStep(s) == ([s[0]], 1)
  {
  }

  /** Appending one unit to what has been produced, and to the buffer. */
  method Emit(ch: Unit, output: array<Unit>, pos: nat, room: nat, ghost produced: seq<Unit>, ghost cap: nat)
    returns (pos': nat, room': nat)
    requires pos + room <= output.Length && pos + room == cap
    requires pos == |Clip(produced, cap)| && output[..pos] == Clip(produced, cap)
    modifies output
    ensures pos' + room' == cap && pos' == |Clip(produced + [ch], cap)|
    ensures output[..pos'] == Clip(produced + [ch], cap)
  {
    ClipAppend(produced, ch, cap);
    pos', room' := AddCharToBuffer(ch, output, pos, room);
  }

  /** One iteration of the loop of `TranslateHexToUnicode`, at source index `i`. */
  method HexToUnicodeIteration(source: seq<Unit>, i: nat, output: array<Unit>, pos: nat, room: nat,
                               ghost produced: seq<Unit>, ghost cap: nat)
    returns (next: nat, pos': nat, room': nat)
    requires i < |source|
    requires pos + room <= output.Length && pos + room == cap
    requires pos == |Clip(produced, cap)| && output[..pos] == Clip(produced, cap)
    modifies output
    ensures next == i + HexStep(source[i..]).1
    ensures pos' + room' == cap && pos' == |Clip(produced + HexStep(source[i..]).0, cap)|
    ensures output[..pos'] == Clip(produced + HexStep(source[i..]).0, cap)
  {
    ghost var rest := source[i..];
    HexStepCases(rest);
    pos', room' := pos, room;
    ghost var done := produced;
    var ch := source[i];
    next := i + 1;
    if ch == ChU && UnitAt(source, i + 1) == ChPlus && IsHexUnit(UnitAt(source, i + 2)) {
      var tok := TokenValue(source[i..]);
      var u := tok.0;
      if IsScalar(u) {
        if u < BmpEnd {
          ch := u as Unit;
        } else {
          var hl := SplitSurrogates(u);
          pos', room' := Emit(hl.0, output, pos', room', done, cap);
          done := done + [hl.0];
          ch := hl.1;
        }
        next := i + tok.1;
      }
    }
    pos', room' := Emit(ch, output, pos', room', done, cap);
    done := done + [ch];
    assert done == produced + HexStep(rest).0;
  }

  /** `TranslateHexToUnicode`: writes the first `outputCch` units of the
      translation, then the terminating NUL; returns the count written. */
  method TranslateHexToUnicode(source: seq<Unit>, output: array<Unit>, outputCch: nat) returns (n: nat)
    requires outputCch < output.Length
    modifies output
    ensures n == |Clip(HexToUnicode(source), outputCch)|
    ensures output[..n] == Clip(HexToUnicode(source), outputCch) && output[n] == 0
  {
    var i := 0;
    var pos, room := 0, outputCch;
    ghost var produced: seq<Unit> := [];
    while i < |source|
      invariant 0 <= i <= |source|
      invariant HexToUnicode(source) == produced + HexToUnicode(source[i..])
      invariant pos == |Clip(produced, outputCch)| && pos + room == outputCch
      invariant output[..pos] == Clip(produced, outputCch)
      decreases |source| - i
    {
      ghost var rest := source[i..];
      ghost var step := HexStep(rest);
      var next;
      next, pos, room := HexToUnicodeIteration(source, i, output, pos, room, produced, outputCch);
      assert HexToUnicode(source) == (produced + step.0) + HexToUnicode(source[next..]) by {
        HexToUnicodeUnfold(rest);
        assert rest[step.1..] == source[next..];
        AppendAssoc(produced, step.0, HexToUnicode(source[next..]));
      }
      produced := produced + step.0;
      i := next;
    }
    assert source[i..] == [];
    output[pos] := 0;
    n := pos;
  }

  /** `snwprintf(.., L"=U+%02X ", u)` into a buffer that has room for it. */
  method FormatTag(u: nat, output: array<Unit>, pos: nat, room: nat) returns (pos': nat, room': nat)
    requires |Tag(u)| <= room && pos + room <= output.Length
    modifies output
    ensures pos' == pos + |Tag(u)| && room' == room - |Tag(u)|
    ensures output[..pos'] == old(output[..pos]) + Tag(u)
  {
    var tag := Tag(u);
    pos', room' := pos, room;
    var k := 0;
    while k < |tag|
      invariant 0 <= k <= |tag|
      invariant pos' == pos + k && room' == room - k
      invariant output[..pos'] == old(output[..pos]) + tag[..k]
    {
      pos', room' := AddCharToBuffer(tag[k], output, pos', room');
      assert tag[..k + 1] == tag[..k] + [tag[k]];
      k := k + 1;
    }
  }

  /** One iteration of the loop of `TranslateUnicodeToHex`, at source index `i`. */
  method UnicodeToHexIteration(source: seq<Unit>, i: nat, output: array<Unit>, pos: nat, room: nat)
    returns (next: nat, pos': nat, room': nat)
    requires i < |source| && |UnicodePiece(source[i..])| <= room && pos + room <= output.Length
    modifies output
    ensures next == i + PieceLength(source[i..])
    ensures pos' + room' == pos + room
    ensures output[..pos'] == old(output[..pos]) + UnicodePiece(source[i..])
  {
    ghost var rest := source[i..];
    var u: nat := source[i];
    pos', room' := AddCharToBuffer(source[i], output, pos, room);
    next := i + 1;
    var nextCh := UnitAt(source, next);
    if IsHighSurrogate(u) && IsLowSurrogate(nextCh) {
      assert IsPairAt(rest, 0);
      u := CombineSurrogates(source[i], nextCh);
      pos', room' := AddCharToBuffer(nextCh, output, pos', room');
      next := next + 1;
      assert old(output[..pos]) + [source[i], nextCh] == old(output[..pos]) + [source[i]] + [nextCh];
    }
    ghost var before := output[..pos'];
    pos', room' := FormatTag(u, output, pos', room');
    AppendAssoc(old(output[..pos]), if IsPairAt(rest, 0) then [rest[0], rest[1]] else [rest[0]], Tag(u));
  }

  /** `TranslateUnicodeToHex`, for an output buffer the translation fits in
      (the engine sizes it by `OutputSizeForUnicodeToHex`). */
  method TranslateUnicodeToHex(source: seq<Unit>, output: array<Unit>, outputCch: nat) returns (n: nat)
    requires |UnicodeToHex(source)| <= outputCch < output.Length
    modifies output
    ensures n == |UnicodeToHex(source)|
    ensures output[..n] == UnicodeToHex(source) && output[n] == 0
  {
    var i: nat := 0;
    var pos: nat, room: nat := 0, outputCch;
    while i < |source|
      invariant i <= |source| && pos + room == outputCch
      invariant UnicodeToHex(source) == output[..pos] + UnicodeToHex(source[i..])
      decreases |source| - i
    {
      ghost var rest := source[i..];
      ghost var done := output[..pos];
      assert UnicodeToHex(rest) == UnicodePiece(rest) + UnicodeToHex(rest[PieceLength(rest)..]);
      var next;
      next, pos, room := UnicodeToHexIteration(source, i, output, pos, room);
      assert rest[PieceLength(rest)..] == source[next..];
      AppendAssoc(done, UnicodePiece(rest), UnicodeToHex(source[next..]));
      i := next;
    }
    assert source[i..] == [];
    output[pos] := 0;
    n := pos;
  }
}
