/** The synthetic copy/paste keystrokes (`AddKeypress`, `SendKeyChord`,
    `SimulateKeyboardCopy`, `SimulateKeyboardPaste`). Which keys are held
    (`GetAsyncKeyState`) is a set parameter and `SendInput` an oracle; the scan
    code from `MapVirtualKeyA` is not part of this model. */
module KeyChord {
  import opened Common

  /** How the engine treats the target window's application. */
  datatype SpecialHandling = NoSpecialHandling | Ignore | CtrlInsert

  /** One keyboard `INPUT` record: the key, whether it is a release
      (`KEYEVENTF_KEYUP`) and whether it is an extended key (`KEYEVENTF_EXTENDEDKEY`). */
  datatype KeyInput = KeyInput(vk: Vkey, keyUp: bool, extended: bool)

  /** Size of the `INPUT` buffer of `SendKeyChord`. */
  const ChordBufferSize: nat := 32

  /** The record `AddKeypress` fills in for `vk`. */
  function Keypress(vk: Vkey, down: bool): (k: KeyInput)
    ensures k.vk == vk && k.keyUp == !down
    ensures k.extended <==> vk == VK_INSERT
  {
    KeyInput(vk, !down, vk == VK_INSERT)
  }

  /** `AddKeypress`: fills slot `idx` and returns the next index; -1 (also when
      `idx` already is -1) when `idx` is outside the buffer, which is then untouched. */
  method AddKeypress(keypresses: array<KeyInput>, idx: int, vk: Vkey, down: bool) returns (r: int)
    modifies keypresses
    ensures idx < 0 || idx >= keypresses.Length ==> r == -1 && keypresses[..] == old(keypresses[..])
    ensures 0 <= idx < keypresses.Length ==>
      r == idx + 1 && keypresses[..] == old(keypresses[..])[idx := Keypress(vk, down)]
  {
    if idx < 0 || idx >= keypresses.Length {
      return -1;
    }
    keypresses[idx] := Keypress(vk, down);
    return idx + 1;
  }

  /** The held modifiers, in the order of the fixed modifier list. */
  function HeldModifiers(held: set<Vkey>, mods: seq<Vkey>): (r: seq<Vkey>)
    ensures |r| <= |mods|
    decreases |mods|
  {
    if mods == [] then []
    else
      var last := mods[|mods| - 1];
      HeldModifiers(held, mods[..|mods| - 1]) + if last in held then [last] else []
  }

  /** Exactly the modifiers that are held are released and restored. */
  lemma {:induction false} HeldModifiersMembers(held: set<Vkey>, mods: seq<Vkey>)
    ensures forall v :: v in HeldModifiers(held, mods) <==> v in mods && v in held
    decreases |mods|
  {
    if mods != [] {
      var p := mods[..|mods| - 1];
      HeldModifiersMembers(held, p);
      assert mods == p + [mods[|mods| - 1]];
    }
  }

  /** With no key held, nothing is released or restored. */
  lemma {:induction false} NothingHeld(mods: seq<Vkey>)
    ensures HeldModifiers({}, mods) == []
    decreases |mods|
  {
    if mods != [] {
      NothingHeld(mods[..|mods| - 1]);
    }
  }

  /** Presses (`down`) or releases of each key of `vks`, in order. */
  function Presses(vks: seq<Vkey>, down: bool): (r: seq<KeyInput>)
    ensures |r| == |vks|
    ensures forall i :: 0 <= i < |vks| ==> r[i] == Keypress(vks[i], down)
  {
    if vks == [] then [] else [Keypress(vks[0], down)] + Presses(vks[1..], down)
  }

  /** The whole chord: release the held modifiers, press and release
      `modifier`+`key`, then press the held modifiers again. */
  function ChordSequence(held: set<Vkey>, modifier: Vkey, key: Vkey): seq<KeyInput> {
    ChordOver(HeldModifiers(held, ModifierVKeys), modifier, key)
  }

  /** The chord always fits the 32-record buffer: at most 8 modifiers are
      released and pressed again around the 4 records of the chord itself. */
  lemma ChordFitsBuffer(held: set<Vkey>, modifier: Vkey, key: Vkey)
    ensures |ChordSequence(held, modifier, key)| == 2 * |HeldModifiers(held, ModifierVKeys)| + 4
    ensures |ChordSequence(held, modifier, key)| <= 20 < ChordBufferSize
  {
  }

  /** The first loop of `SendKeyChord`: releases every held key of `mods` (the
      fixed modifier list). */
  method ReleaseHeldModifiers(held: set<Vkey>, mods: seq<Vkey>, keypresses: array<KeyInput>)
    returns (nkeys: int, nmods: nat)
    requires |mods| <= keypresses.Length
    modifies keypresses
    ensures nmods == |HeldModifiers(held, mods)| && nkeys == nmods
    ensures keypresses[..nmods] == Presses(HeldModifiers(held, mods), false)
  {
    nkeys, nmods := 0, 0;
    var i := 0;
    while i < |mods|
      invariant 0 <= i <= |mods|
      invariant nmods == |HeldModifiers(held, mods[..i])| && nkeys == nmods <= i
      invariant keypresses[..nmods] == Presses(HeldModifiers(held, mods[..i]), false)
    {
      var vk := mods[i];
      assert mods[..i + 1][..i] == mods[..i];
      if vk in held {
        ghost var before := keypresses[..nmods];
        nkeys := AddKeypress(keypresses, nkeys, vk, false);
        assert keypresses[..nmods] == before;
        nmods := nmods + 1;
        assert keypresses[..nmods] == before + [Keypress(vk, false)];
      }
      i := i + 1;
    }
    assert mods[..i] == mods;
  }

  /** Appends one record at `nkeys`. */
  method Append(keypresses: array<KeyInput>, nkeys: nat, vk: Vkey, down: bool) returns (r: nat)
    requires nkeys < keypresses.Length
    modifies keypresses
    ensures r == nkeys + 1
    ensures keypresses[..r] == old(keypresses[..nkeys]) + [Keypress(vk, down)]
  {
    var n := AddKeypress(keypresses, nkeys, vk, down);
    assert keypresses[..n] == old(keypresses[..nkeys]) + [Keypress(vk, down)];
    r := n;
  }

  /** `SendKeyChord`: builds the chord in a 32-record buffer, the restoring loop
      reading the released modifiers back from the buffer, and hands it to
      `SendInput`; the result is what `SendInput` reports. */
  method SendKeyChord(held: set<Vkey>, send: seq<KeyInput> -> bool, modifier: Vkey, key: Vkey)
    returns (ok: bool, sent: seq<KeyInput>)
    ensures sent == ChordSequence(held, modifier, key)
    ensures ok == send(sent)
  {
    var keypresses := new KeyInput[ChordBufferSize](_ => KeyInput(0, false, false));
    var n := BuildChord(held, ModifierVKeys, modifier, key, keypresses);
    sent := keypresses[..n];
    ok := if n > 0 then send(sent) else false;
  }

  /** The chord releasing and restoring the held keys of `mods`. */
  function ChordOver(h: seq<Vkey>, modifier: Vkey, key: Vkey): seq<KeyInput> {
    Presses(h, false)
      + [Keypress(modifier, true), Keypress(key, true), Keypress(key, false), Keypress(modifier, false)]
      + Presses(h, true)
  }

  /** The three stages of `SendKeyChord` filling the buffer. */
  method BuildChord(held: set<Vkey>, mods: seq<Vkey>, modifier: Vkey, key: Vkey, keypresses: array<KeyInput>)
    returns (n: nat)
    requires |mods| <= 8 && keypresses.Length == ChordBufferSize
    modifies keypresses
    ensures n <= keypresses.Length
    ensures keypresses[..n] == ChordOver(HeldModifiers(held, mods), modifier, key)
  {
    var nkeys, nmods := ReleaseHeldModifiers(held, mods, keypresses);
    ghost var h := HeldModifiers(held, mods);
    ghost var ups := keypresses[..nmods];
    n := nkeys;
    n := Append(keypresses, n, modifier, true);
    n := Append(keypresses, n, key, true);
    n := Append(keypresses, n, key, false);
    n := Append(keypresses, n, modifier, false);
    ghost var chord := [Keypress(modifier, true), Keypress(key, true), Keypress(key, false), Keypress(modifier, false)];
    assert keypresses[..n] == ups + chord;
    n := RestoreHeldModifiers(keypresses, nmods, n, h);
  }

  /** The last loop of `SendKeyChord`: presses again the `nmods` modifiers
      released at the start of the buffer. */
  method RestoreHeldModifiers(keypresses: array<KeyInput>, nmods: nat, nkeys: nat, ghost h: seq<Vkey>)
    returns (n: nat)
    requires |h| == nmods <= 8 && nkeys == nmods + 4 && keypresses.Length == ChordBufferSize
    requires keypresses[..nmods] == Presses(h, false)
    modifies keypresses
    ensures n == nkeys + nmods
    ensures keypresses[..n] == old(keypresses[..nkeys]) + Presses(h, true)
  {
    ghost var start := keypresses[..nkeys];
    n := nkeys;
    var i := 0;
    while i < nmods
      invariant 0 <= i <= nmods && n == nkeys + i
      invariant keypresses[..n] == start + Presses(h[..i], true)
    {
      assert keypresses[i] == keypresses[..n][i] == start[i] == Presses(h, false)[i];
      var vk := keypresses[i].vk;
      ghost var before := keypresses[..n];
      n := Append(keypresses, n, vk, true);
      RestoreStep(start, h, i, before, keypresses[..n]);
      i := i + 1;
    }
    assert h[..i] == h;
  }

  /** One round of the restoring loop: the buffer grows by the press of the
      next released modifier. */
  lemma RestoreStep(start: seq<KeyInput>, h: seq<Vkey>, i: nat, before: seq<KeyInput>, after: seq<KeyInput>)
    requires i < |h| && before == start + Presses(h[..i], true)
    requires after == before + [Keypress(h[i], true)]
    ensures after == start + Presses(h[..i + 1], true)
  {
    assert h[..i + 1] == h[..i] + [h[i]];
    PressesAppend(h[..i], [h[i]], true);
  }

  lemma {:induction false} PressesAppend(a: seq<Vkey>, b: seq<Vkey>, down: bool)
    ensures Presses(a + b, down) == Presses(a, down) + Presses(b, down)
  {
  }

  /** The chord (modifier, key) that `SimulateKeyboardCopy` (`copy`) or
      `SimulateKeyboardPaste` sends; none for an ignored application. */
  function ChordFor(sh: SpecialHandling, copy: bool): (r: Option<(Vkey, Vkey)>)
    ensures r == None <==> sh == Ignore
    ensures sh == CtrlInsert ==> r == Some(if copy then (VK_CONTROL, VK_INSERT) else (VK_SHIFT, VK_INSERT))
    ensures sh == NoSpecialHandling ==> r == Some((VK_CONTROL, if copy then VK_C else VK_V))
  {
    match sh
    case Ignore => None
    case CtrlInsert => Some((if copy then VK_CONTROL else VK_SHIFT, VK_INSERT))
    case NoSpecialHandling => Some((VK_CONTROL, if copy then VK_C else VK_V))
  }

  /** `SimulateKeyboardCopy` (`copy`) and `SimulateKeyboardPaste`: sends the
      chord of `ChordFor`, or nothing and false for an ignored application. */
  method SimulateKeyboardChord(sh: SpecialHandling, copy: bool, held: set<Vkey>, send: seq<KeyInput> -> bool)
    returns (ok: bool, sent: seq<KeyInput>)
    ensures sh == Ignore ==> !ok && sent == []
    ensures sh != Ignore ==>
      var c := ChordFor(sh, copy).value;
      sent == ChordSequence(held, c.0, c.1) && ok == send(sent)
  {
    var c := ChordFor(sh, copy);
    if c == None {
      return false, [];
    }
    ok, sent := SendKeyChord(held, send, c.value.0, c.value.1);
  }

  /** The keys pressed by a copy chord with no modifier held (Ctrl+C for a plain
      application). */
  lemma PlainCopyChord(send: seq<KeyInput> -> bool)
    ensures ChordSequence({}, VK_CONTROL, VK_C)
      == [KeyInput(VK_CONTROL, false, false), KeyInput(VK_C, false, false),
          KeyInput(VK_C, true, false), KeyInput(VK_CONTROL, true, false)]
  {
    NothingHeld(ModifierVKeys);
  }
}
