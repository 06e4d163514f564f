/** Retyping clipboard text in another layout (`TranslateChar`,
    `TranslateBuffer`, `TranslateString` of both revisions) and the clipboard
    decision (`TranslateClipboard` of both revisions). The keyboard queries are
    oracles: `maps(ch, l)` is `VkKeyScanExW(ch, l) != -1`, `toUnicode(ch, s, t)` the
    units `ToUnicodeEx` produces in layout `t` for the keystroke typing `ch` in
    layout `s` (empty when it produces none), `layouts` the installed layouts. */
module Transliteration {
  import opened Common
  import opened CodepointCodec
  import opened LayoutDetector

  datatype Keyboard = Keyboard(
    maps: (Unit, Hkl) -> bool,
    toUnicode: (Unit, Hkl, Hkl) -> seq<Unit>,
    layouts: seq<Hkl>)

  /** What `TranslateChar` produces for `ch`: nothing when the source layout has
      no key for it or the target layout gives no character. */
  function Retype(kb: Keyboard, ch: Unit, source: Hkl, target: Hkl): seq<Unit> {
    if kb.maps(ch, source) then kb.toUnicode(ch, source, target) else []
  }

  /** A character becomes its retyped units, or stays itself when it cannot be
      retyped. */
  function CharPiece(kb: Keyboard, ch: Unit, source: Hkl, target: Hkl): (r: seq<Unit>)
    ensures r != []
  {
    var t := Retype(kb, ch, source, target);
    if t != [] then t else [ch]
  }

  /** The whole text retyped, character by character. */
  function Transliterate(kb: Keyboard, s: seq<Unit>, source: Hkl, target: Hkl): (r: seq<Unit>)
    ensures |s| <= |r|
    decreases |s|
  {
    if s == [] then []
    else Transliterate(kb, s[..|s| - 1], source, target) + CharPiece(kb, s[|s| - 1], source, target)
  }

  /** Text the source layout cannot type at all comes back unchanged. */
  lemma {:induction false} UntypeableTextUnchanged(kb: Keyboard, s: seq<Unit>, source: Hkl, target: Hkl)
    requires forall i :: 0 <= i < |s| ==> !kb.maps(s[i], source)
    ensures Transliterate(kb, s, source, target) == s
    decreases |s|
  {
    if s != [] {
      UntypeableTextUnchanged(kb, s[..|s| - 1], source, target);
      assert s == s[..|s| - 1] + [s[|s| - 1]];
    }
  }

  /** When no character retypes into more than two units, the doubled buffer
      holds the whole translation. */
  lemma {:induction false} DoubleBufferSuffices(kb: Keyboard, s: seq<Unit>, source: Hkl, target: Hkl)
    requires forall i :: 0 <= i < |s| ==> |Retype(kb, s[i], source, target)| <= 2
    ensures |Transliterate(kb, s, source, target)| <= 2 * |s|
    ensures Clip(Transliterate(kb, s, source, target), 2 * |s|) == Transliterate(kb, s, source, target)
    decreases |s|
  {
    if s != [] {
      var p := s[..|s| - 1];
      assert forall i :: 0 <= i < |p| ==> p[i] == s[i];
      DoubleBufferSuffices(kb, p, source, target);
    }
  }

  /** Clipping a concatenation clips the second part to the room the first leaves. */
  lemma ClipConcat(a: seq<Unit>, b: seq<Unit>, cap: nat)
    ensures Clip(a + b, cap) == Clip(a, cap) + Clip(b, cap - |Clip(a, cap)|)
  {
    if |a| >= cap {
      assert (a + b)[..cap] == a[..cap];
    } else if |a + b| > cap {
      assert (a + b)[..cap] == a + b[..cap - |a|];
    }
  }

  /** `ToUnicodeEx` writing into the output buffer: at most `room` units. */
  method WriteUnits(units: seq<Unit>, output: array<Unit>, pos: nat, room: nat) returns (rc: nat)
    requires pos + room <= output.Length
    modifies output
    ensures rc == |Clip(units, room)|
    ensures output[..pos + rc] == old(output[..pos]) + Clip(units, room)
  {
    var w := Clip(units, room);
    forall i | pos <= i < pos + |w| {
      output[i] := w[i - pos];
    }
    assert output[..pos + |w|] == old(output[..pos]) + w;
    rc := |w|;
  }

  /** `TranslateChar`: writes what `ch` retypes into, as far as the room allows;
      returns the count written (0 when nothing could be written). */
  method TranslateChar(kb: Keyboard, ch: Unit, output: array<Unit>, pos: nat, room: nat, source: Hkl, target: Hkl)
    returns (n: nat, pos': nat, room': nat)
    requires pos + room <= output.Length
    modifies output
    ensures pos' == pos + n && pos' + room' == pos + room
    ensures n == 0 <==> Retype(kb, ch, source, target) == [] || room == 0
    ensures output[..pos'] == old(output[..pos]) + Clip(Retype(kb, ch, source, target), room)
  {
    if !kb.maps(ch, source) {
      return 0, pos, room;
    }
    var rc := WriteUnits(kb.toUnicode(ch, source, target), output, pos, room);
    if rc > 0 {
      return rc, pos + rc, room - rc;
    }
    return 0, pos, room;
  }

  /** One character of the loop of `TranslateBuffer`: `TranslateChar`, or the
      character itself when it wrote nothing. */
  method TranslateOne(kb: Keyboard, ch: Unit, output: array<Unit>, pos: nat, room: nat, source: Hkl, target: Hkl)
    returns (pos': nat, room': nat)
    requires pos + room <= output.Length
    modifies output
    ensures pos' + room' == pos + room
    ensures output[..pos'] == old(output[..pos]) + Clip(CharPiece(kb, ch, source, target), room)
  {
    var n;
    n, pos', room' := TranslateChar(kb, ch, output, pos, room, source, target);
    if n == 0 {
      pos', room' := AddCharToBuffer(ch, output, pos', room');
    }
  }

  /** The body of the loop of the earlier `TranslateString`: the unmapped
      character is copied in place while room remains. */
  method TranslateOneEarly(kb: Keyboard, ch: Unit, output: array<Unit>, dst: nat, targetCch: nat, source: Hkl, target: Hkl)
    returns (dst': nat, targetCch': nat)
    requires dst + targetCch <= output.Length
    modifies output
    ensures dst' + targetCch' == dst + targetCch
    ensures output[..dst'] == old(output[..dst]) + Clip(CharPiece(kb, ch, source, target), targetCch)
  {
    var n;
    n, dst', targetCch' := TranslateChar(kb, ch, output, dst, targetCch, source, target);
    if n == 0 && targetCch' > 0 {
      output[dst'] := ch;
      assert output[..dst' + 1] == output[..dst'] + [ch];
      dst' := dst' + 1;
      targetCch' := targetCch' - 1;
    }
  }

  /** The step of both translation loops: the clipped translation of a prefix
      grows by the clipped piece of the next character. */
  lemma ClipStep(kb: Keyboard, s: seq<Unit>, i: nat, source: Hkl, target: Hkl, cap: nat, done: seq<Unit>, room: nat)
    requires i < |s| && done == Clip(Transliterate(kb, s[..i], source, target), cap) && |done| + room == cap
    ensures done + Clip(CharPiece(kb, s[i], source, target), room)
      == Clip(Transliterate(kb, s[..i + 1], source, target), cap)
  {
    assert s[..i + 1][..i] == s[..i];
    ClipConcat(Transliterate(kb, s[..i], source, target), CharPiece(kb, s[i], source, target), cap);
  }

  /** `TranslateBuffer`: the loop over the source, then the terminator. */
  method TranslateBuffer(kb: Keyboard, sourceText: seq<Unit>, output: array<Unit>, outputCch: nat, source: Hkl, target: Hkl)
    returns (n: nat)
    requires outputCch < output.Length
    modifies output
    ensures n == |Clip(Transliterate(kb, sourceText, source, target), outputCch)|
    ensures output[..n] == Clip(Transliterate(kb, sourceText, source, target), outputCch) && output[n] == 0
  {
    var i := 0;
    var pos: nat, room: nat := 0, outputCch;
    while i < |sourceText|
      invariant 0 <= i <= |sourceText| && pos + room == outputCch
      invariant output[..pos] == Clip(Transliterate(kb, sourceText[..i], source, target), outputCch)
    {
      ghost var done := output[..pos];
      pos, room := TranslateOne(kb, sourceText[i], output, pos, room, source, target);
      ClipStep(kb, sourceText, i, source, target, outputCch, done, room + (pos - |done|));
      i := i + 1;
    }
    assert sourceText[..i] == sourceText;
    output[pos] := 0;
    assert output[..pos] == Clip(Transliterate(kb, sourceText, source, target), outputCch);
    n := pos;
  }

  /** The text `TranslateString` produces: the codecs for the two HEX pseudo
      layouts, otherwise retyping into a buffer twice the length of the text. */
  function Translation(kb: Keyboard, s: seq<Unit>, source: Hkl, target: Hkl): seq<Unit> {
    if target == HklHexToUnicode then HexToUnicode(s)
    else if target == HklUnicodeToHex then UnicodeToHex(s)
    else Clip(Transliterate(kb, s, source, target), 2 * |s|)
  }

  /** `TranslateString` (current revision): sizes the buffer
      (`OutputSizeForUnicodeToHex` = 11 units per source unit,
      `OutputSizeForHexToUnicode` = 1, otherwise 2), allocates it (`allocOk`
      tells whether `GlobalAlloc`/`GlobalLock` succeed) and fills it. */
  method TranslateString(kb: Keyboard, sourceText: seq<Unit>, source: Hkl, target: Hkl, allocOk: bool)
    returns (r: Option<seq<Unit>>)
    ensures !allocOk ==> r == None
    ensures allocOk ==> r == Some(Translation(kb, sourceText, source, target))
  {
    var sourceCch := |sourceText|;
    var outputCch := if target == HklUnicodeToHex then sourceCch * (1 + 3 + 1 + 6)
                     else if target == HklHexToUnicode then sourceCch
                     else sourceCch * 2;
    if !allocOk {
      return None;
    }
    var output := new Unit[outputCch + 1];
    var n;
    if target == HklHexToUnicode {
      n := TranslateHexToUnicode(sourceText, output, outputCch);
      HexToUnicodeNotLonger(sourceText);
    } else if target == HklUnicodeToHex {
      UnicodeToHexFits(sourceText);
      n := TranslateUnicodeToHex(sourceText, output, outputCch);
    } else {
      n := TranslateBuffer(kb, sourceText, output, outputCch, source, target);
    }
    r := Some(output[..n]);
  }

  /** `TranslateString` (earlier revision): retyping only, with an index loop
      and the unmapped character copied inline while room remains. */
  method TranslateStringEarly(kb: Keyboard, sourceText: seq<Unit>, source: Hkl, target: Hkl, allocOk: bool)
    returns (r: Option<seq<Unit>>)
    ensures !allocOk ==> r == None
    ensures allocOk ==> r == Some(Clip(Transliterate(kb, sourceText, source, target), 2 * |sourceText|))
  {
    var sourceCch := |sourceText|;
    var targetCch: nat := sourceCch * 2;
    if !allocOk {
      return None;
    }
    var output := new Unit[targetCch + 1];
    ghost var cap := targetCch;
    var dst: nat := 0;
    var i := 0;
    while i < sourceCch
      invariant 0 <= i <= sourceCch && dst + targetCch == cap
      invariant output[..dst] == Clip(Transliterate(kb, sourceText[..i], source, target), cap)
    {
      ghost var done := output[..dst];
      dst, targetCch := TranslateOneEarly(kb, sourceText[i], output, dst, targetCch, source, target);
      ClipStep(kb, sourceText, i, source, target, cap, done, cap - |done|);
      i := i + 1;
    }
    assert sourceText[..i] == sourceText;
    output[dst] := 0;
    r := Some(output[..dst]);
  }

  /** The data the clipboard calls work on: whether `OpenClipboard` succeeds, the
      text `GetClipboardData` + `GlobalLock` give (none when either fails), whether
      the buffer for the translation can be allocated, and whether
      `EmptyClipboard` and `SetClipboardData` succeed. */
  datatype Clipboard = Clipboard(open: bool, text: Option<seq<Unit>>, allocOk: bool, emptyOk: bool, setOk: bool)

  /** What happens to the clipboard's contents. */
  datatype ClipboardEffect = Untouched | Emptied | Replaced(text: seq<Unit>)

  /** The shared tail of both revisions of `TranslateClipboard`, given the source
      layout chosen and the translation: no-op when source and target agree,
      otherwise the translation replaces the text when every step succeeds. */
  function ClipboardOutcome(cb: Clipboard, source: Hkl, target: Hkl, translated: seq<Unit>): (r: (bool, ClipboardEffect))
    ensures r.0 <==> r.1.Replaced?
    ensures r.0 <==> cb.open && cb.text != None && source != target && cb.allocOk && cb.emptyOk && cb.setOk
    ensures r.1 == Emptied <==> cb.open && cb.text != None && source != target && cb.allocOk && cb.emptyOk && !cb.setOk
    ensures r.1.Replaced? ==> r.1.text == translated
  {
    if !cb.open || cb.text == None then (false, Untouched)
    else if source == target then (false, Untouched)
    else if !cb.allocOk then (false, Untouched)
    else if !cb.emptyOk then (false, Untouched)
    else if !cb.setOk then (false, Emptied)
    else (true, Replaced(translated))
  }

  /** The source layout the current revision assumes: none for the HEX pseudo
      layouts, the detected one otherwise. */
  function SourceLayout(kb: Keyboard, text: seq<Unit>, target: Hkl): Hkl {
    if target != HklHexToUnicode && target != HklUnicodeToHex then Detect(kb.maps, text, target, kb.layouts)
    else HklNull
  }

  /** `TranslateClipboard` (current revision) as a function of its inputs. */
  function ClipboardResult(kb: Keyboard, cb: Clipboard, target: Hkl): (bool, ClipboardEffect) {
    var text := if cb.text == None then [] else cb.text.value;
    var source := SourceLayout(kb, text, target);
    ClipboardOutcome(cb, source, target, Translation(kb, text, source, target))
  }

  /** `TranslateClipboard` (earlier revision): always detects the source layout. */
  function ClipboardResultEarly(kb: Keyboard, cb: Clipboard, target: Hkl): (bool, ClipboardEffect) {
    var text := if cb.text == None then [] else cb.text.value;
    var source := Detect(kb.maps, text, target, kb.layouts);
    ClipboardOutcome(cb, source, target, Clip(Transliterate(kb, text, source, target), 2 * |text|))
  }

  /** `TranslateClipboard` (current revision). */
  method TranslateClipboard(kb: Keyboard, cb: Clipboard, target: Hkl) returns (done: bool, effect: ClipboardEffect)
    ensures (done, effect) == ClipboardResult(kb, cb, target)
  {
    if !cb.open || cb.text == None {
      return false, Untouched;
    }
    var txt := cb.text.value;
    var source := HklNull;
    if target != HklHexToUnicode && target != HklUnicodeToHex {
      source := DetectStringLayout(kb.maps, txt, target, kb.layouts);
    }
    if source == target {
      return false, Untouched;
    }
    var translated := TranslateString(kb, txt, source, target, cb.allocOk);
    if translated == None {
      return false, Untouched;
    }
    if !cb.emptyOk {
      return false, Untouched;
    }
    if !cb.setOk {
      return false, Emptied;
    }
    return true, Replaced(translated.value);
  }

  /** `TranslateClipboard` (earlier revision). */
  method TranslateClipboardEarly(kb: Keyboard, cb: Clipboard, target: Hkl) returns (done: bool, effect: ClipboardEffect)
    ensures (done, effect) == ClipboardResultEarly(kb, cb, target)
  {
    if !cb.open || cb.text == None {
      return false, Untouched;
    }
    var txt := cb.text.value;
    var source := DetectStringLayout(kb.maps, txt, target, kb.layouts);
    if source == target {
      return false, Untouched;
    }
    var translated := TranslateStringEarly(kb, txt, source, target, cb.allocOk);
    if translated == None {
      return false, Untouched;
    }
    if !cb.emptyOk {
      return false, Untouched;
    }
    if !cb.setOk {
      return false, Emptied;
    }
    return true, Replaced(translated.value);
  }

  /** The HEX pseudo layouts skip detection: the outcome does not depend on the
      installed layouts or on what they can type. */
  lemma HexModesSkipDetection(kb1: Keyboard, kb2: Keyboard, cb: Clipboard, target: Hkl)
    requires target == HklHexToUnicode || target == HklUnicodeToHex
    ensures ClipboardResult(kb1, cb, target) == ClipboardResult(kb2, cb, target)
  {
  }

  /** When the text already looks typed in the target layout, the clipboard is
      left alone and the request reports failure (both revisions). */
  lemma SameLayoutIsNoop(kb: Keyboard, cb: Clipboard, target: Hkl)
    requires cb.text != None && Detect(kb.maps, cb.text.value, target, kb.layouts) == target
    ensures target != HklHexToUnicode && target != HklUnicodeToHex ==> ClipboardResult(kb, cb, target) == (false, Untouched)
    ensures ClipboardResultEarly(kb, cb, target) == (false, Untouched)
  {
  }

  /** A successful request replaces the clipboard text with the translation of
      the text that was there, from the layout it was detected to be typed in. */
  lemma ReplacedWithTranslation(kb: Keyboard, cb: Clipboard, target: Hkl)
    requires ClipboardResult(kb, cb, target).0
    ensures cb.text != None
    ensures var source := SourceLayout(kb, cb.text.value, target);
      source != target && ClipboardResult(kb, cb, target).1 == Replaced(Translation(kb, cb.text.value, source, target))
  {
  }

  /** The hex example round trip through the clipboard: "@" becomes "@=U+40 ". */
  lemma UnicodeToHexClipboardExample(kb: Keyboard)
    ensures ClipboardResult(kb, Clipboard(true, Some([0x40]), true, true, true), HklUnicodeToHex)
      == (true, Replaced([0x40, 0x3D, 0x55, 0x2B, 0x34, 0x30, 0x20]))
  {
    UnicodeToHexExample();
  }
}
