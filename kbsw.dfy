/** The configuration and dispatch logic of the current `kbsw.c`: key names
    looked up in the usage text, the key and layout tables, layout ids (KLIDs)
    normalised before loading, automatic layout assignment, the option setter
    the command-line parser calls, what an activation of a key does, and the
    decisions `main` takes. `LoadKeyboardLayoutA` and `GetKeyboardLayoutList`
    are parameters. */
module Kbsw {
  import opened Common
  import opened CLib
  import opened Docopt
  import KbswEarly
  import DocoptParse

  /** `kUsage`: the help text, which also defines the options and the key names. */
  const Usage: string :=
    "Command line: " + KbswEarly.Prog + " [options] KEY[=LAYOUT] [KEY[=LAYOUT]...]\n"
    + "\n"
    + "where KEY can be one of the following:\n"
    + "    LC  LCtrl   LeftCtrl   LeftControl\n"
    + "    RC  RCtrl   RightCtrl  RightControl\n"
    + "    LS  LShift  LeftShift\n"
    + "    RS  RShift  RightShift\n"
    + "    LA  LAlt    LeftAlt\n"
    + "    RA  RAlt    RightAlt\n"
    + "    LW  LWin    LeftWin\n"
    + "    RW  RWin    RightWin\n"
    + "    CL  Caps    CapsLock\n"
    + "    NL          NumLock\n"
    + "    SL          ScrollLock\n"
    + "\n"
    + "and LAYOUT codes can be obtained by running\n"
    + "    " + KbswEarly.Prog + " --list-layouts\n"
    + "\n"
    + "A special dummy layout named 'HEX' can be used for Hexadecimal<->Unicode\n"
    + "conversion (see Usage below).\n"
    + "\n"
    + "You can omit '=LAYOUT' for some or all KEYs; these layouts will be assigned\n"
    + "automatically in the order they appear in --list-layouts.\n"
    + "\n"
    + "-t --timeout=300   KEY double-press timeout, in milliseconds\n"
    + "-q --quiet         suppress error messages (only return error code)\n"
    + "-F --fullscreen    do not ignore fullscreen apps\n"
    + "-x --exit          stop the running copy of " + KbswEarly.Prog + "\n"
    + "-p --pause         make the running instance stop doing anything\n"
    + "-r --resume        make a paused running instance resume working\n"
    + "-s --status        show parameters of the running instance\n"
    + "-l --list-layouts  display installed keyboard layouts\n"
    + "-h --help          show this text\n"
    + "\n"
    + "Usage:\n"
    + "\n"
    + " - Press KEY twice quickly to switch to the corresponding keyboard LAYOUT.\n"
    + "\n"
    + " - To correct some text mistakenly typed in a wrong keyboard layout,\n"
    + "   select it and press the correct layout's KEY quickly twice while\n"
    + "   holding down any other modifier key (such as Shift, Alt, Ctrl).\n"
    + "   This action replaces the clipboard content.\n"
    + "\n"
    + " - To convert hexadecimal Unicode codepoint(s) into character(s),\n"
    + "   for example 'U+0040' to '@', select them and double-tap a KEY\n"
    + "   assigned to the special LAYOUT named 'HEX'.\n"
    + "\n"
    + " - To do the reverse of the above, select some characters and double-tap a KEY\n"
    + "   assigned to a special LAYOUT 'HEX' while holding down any other modifier key.\n"

  /** What the key lines of the usage text start with. */
  const KeyLinePrefix: string := "\n    "

  /** The commands, in rising precedence: when several are given the highest wins. */
  datatype Command = Run | Resume | Pause | ListLayouts | ShowStatus | Quit | Help

  function Rank(c: Command): nat {
    match c
    case Run => 0
    case Resume => 1
    case Pause => 2
    case ListLayouts => 3
    case ShowStatus => 4
    case Quit => 5
    case Help => 6
  }

  // ---------------------------------------------------------------------------
  // Key names

  /** `key_names`: the code each key line starts with, and its key. */
  const KeyNames: seq<(string, Vkey)> :=
    [("LC", VK_LCONTROL), ("RC", VK_RCONTROL), ("LS", VK_LSHIFT), ("RS", VK_RSHIFT),
     ("LA", VK_LMENU), ("RA", VK_RMENU), ("LW", VK_LWIN), ("RW", VK_RWIN),
     ("CL", VK_CAPITAL), ("NL", VK_NUMLOCK), ("SL", VK_SCROLL)]

  /** The keys a switch can be assigned to: the eight modifiers and the three locks. */
  const SwitchKeys: set<Vkey> := set i | 0 <= i < |KeyNames| :: KeyNames[i].1

  /** What `ParseKeyName(keyname, keyname_len)` returns, for `keyword` the
      first `keyname_len` characters of `keyname`. */
  function KeyNameVk(usage: string, keyword: string): Vkey {
    KbswEarly.LineKey(usage, KeyLinePrefix, KeyNames, keyword)
  }

  /** A recognised key name is one of the switch keys. */
  lemma KeyNameVkMeans(usage: string, keyword: string)
    ensures KeyNameVk(usage, keyword) != 0 ==> KeyNameVk(usage, keyword) in SwitchKeys
  {
    KbswEarly.LineKeyMeans(usage, KeyLinePrefix, KeyNames, keyword);
    assert forall i :: 0 <= i < |KeyNames| ==> KeyNames[i].1 in SwitchKeys;
  }

  /** `ParseKeyName`: the keyword search, then the loop over `key_names`. */
  method ParseKeyName(usage: string, keyname: string, keynameLen: nat) returns (vk: Vkey)
    requires keynameLen <= |keyname|
    ensures vk == KeyNameVk(usage, keyname[..keynameLen])
  {
    var line := FindLineWithWord(usage, KeyLinePrefix, keyname[..keynameLen]);
    if line == None {
      return 0;
    }
    vk := KbswEarly.LookupCode(usage[line.value..], KeyNames);
  }

  // ---------------------------------------------------------------------------
  // The key table

  /** The first slot at or after `i` that holds `vk` or is empty; `|keys|` if none. */
  function KeySlot(keys: seq<Vkey>, vk: Vkey, i: nat): (r: nat)
    requires i <= |keys|
    ensures i <= r <= |keys|
    ensures r < |keys| ==> keys[r] == vk || keys[r] == 0
    ensures forall k :: i <= k < r ==> keys[k] != vk && keys[k] != 0
    decreases |keys| - i
  {
    if i == |keys| || keys[i] == vk || keys[i] == 0 then i else KeySlot(keys, vk, i + 1)
  }

  /** `KeySlot` is determined by its properties. */
  lemma {:induction false} KeySlotIs(keys: seq<Vkey>, vk: Vkey, i: nat, r: nat)
    requires i <= r <= |keys|
    requires r < |keys| ==> keys[r] == vk || keys[r] == 0
    requires forall k :: i <= k < r ==> keys[k] != vk && keys[k] != 0
    ensures KeySlot(keys, vk, i) == r
    decreases r - i
  {
    if i < r {
      KeySlotIs(keys, vk, i + 1, r);
    }
  }

  /** What `AddLayoutSwitchKey` returns and does to the key table. */
  function AddKey(keys: seq<Vkey>, vk: Vkey): (r: (int, seq<Vkey>)) {
    var k := KeySlot(keys, vk, 0);
    if k == |keys| || keys[k] == vk then (-1, keys) else (k, keys[k := vk])
  }

  /** The used slots come first, and no key is in two of them. */
  predicate Packed(keys: seq<Vkey>) {
    (forall i, j :: 0 <= i < j < |keys| && keys[i] == 0 ==> keys[j] == 0)
    && (forall i, j :: 0 <= i < j < |keys| && keys[i] != 0 ==> keys[i] != keys[j])
  }

  /** The number of used slots of a packed table. */
  function Used(keys: seq<Vkey>): (n: nat)
    ensures n <= |keys|
    ensures forall k :: 0 <= k < n ==> keys[k] != 0
    ensures n < |keys| ==> keys[n] == 0
  {
    KeySlot(keys, 0, 0)
  }

  /** On a packed table, `AddLayoutSwitchKey` fails (-1) exactly for a key
      already present or a full table and then changes nothing; otherwise it
      returns the first empty slot, writes the key there and nothing else, and
      the table stays packed. */
  lemma AddKeyRules(keys: seq<Vkey>, vk: Vkey)
    requires Packed(keys) && vk != 0
    ensures var (idx, keys') := AddKey(keys, vk);
      (idx == -1 <==> Used(keys) == |keys| || vk in keys)
      && (idx == -1 ==> keys' == keys)
      && (idx != -1 ==> idx == Used(keys) && keys' == keys[idx := vk] && Used(keys') == idx + 1 && Packed(keys'))
  {
    var k := KeySlot(keys, vk, 0);
    var (idx, keys') := AddKey(keys, vk);
    if k < |keys| && keys[k] == 0 {
      KeySlotIs(keys, 0, 0, k);
      assert forall j :: 0 <= j < |keys| ==> keys[j] != vk by {
        forall j | 0 <= j < |keys|
          ensures keys[j] != vk
        {
          if j >= k {
            assert keys[j] == 0;
          }
        }
      }
      KeySlotIs(keys', 0, 0, k + 1);
    }
  }

  // ---------------------------------------------------------------------------
  // Layout ids

  /** The number of characters of a KLID (`KL_NAMELENGTH - 1`). */
  const KlidLength: nat := 8

  predicate IsZeroChar(c: char) {
    c == '0'
  }

  /** The number of leading zeros of `value`. */
  function LeadingZeros(value: string): (n: nat)
    ensures n <= |value|
  {
    RunLength(value, 0, IsZeroChar)
  }

  /** The KLID `ParseNonOptionArg` builds from the text after `=`: the leading
      zeros dropped, then zeros put back in front up to eight characters; none
      when more than eight significant characters remain. */
  function Klid(value: string): (r: Option<string>)
    ensures r.Some? ==> |r.value| == KlidLength
  {
    var rest := value[LeadingZeros(value)..];
    if |rest| >= KlidLength + 1 then None
    else Some(seq(KlidLength - |rest|, _ => '0') + rest)
  }

  /** A KLID is refused exactly when nine or more characters follow the
      leading zeros; otherwise it ends with those characters and starts with
      zeros. */
  lemma KlidRules(value: string)
    ensures var rest := value[LeadingZeros(value)..];
      (Klid(value).None? <==> |rest| > KlidLength)
      && (Klid(value).Some? ==>
        Klid(value).value[KlidLength - |rest|..] == rest
        && forall k :: 0 <= k < KlidLength - |rest| ==> Klid(value).value[k] == '0')
  {
  }

  /** Leading zeros make no difference to the KLID. */
  lemma KlidIgnoresLeadingZeros(value: string)
    ensures Klid("0" + value) == Klid(value)
  {
    var z := LeadingZeros(value);
    var s := "0" + value;
    RunLengthOfPrefix(s, 0, IsZeroChar, z + 1);
    assert s[z + 1..] == value[z..];
  }

  /** Normalising a normalised KLID changes nothing. */
  lemma KlidIdempotent(value: string)
    requires Klid(value).Some?
    ensures Klid(Klid(value).value) == Klid(value)
  {
    var rest := value[LeadingZeros(value)..];
    var klid := Klid(value).value;
    var pad := KlidLength - |rest|;
    assert rest != [] ==> rest[0] != '0';
    RunLengthOfPrefix(klid, 0, IsZeroChar, pad);
    assert klid[pad..] == rest;
  }

  /** The KLID text of `ParseNonOptionArg`: skip the zeros, check the length,
      fill the buffer with the padding and copy the rest after it. */
  method NormaliseKlid(value: string) returns (r: Option<string>)
    ensures r == Klid(value)
  {
    var start := 0;
    while start < |value| && value[start] == '0'
      invariant 0 <= start <= |value|
      invariant forall k :: 0 <= k < start ==> IsZeroChar(value[k])
    {
      start := start + 1;
    }
    RunLengthOfPrefix(value, 0, IsZeroChar, start);
    var len := |value| - start;
    if len >= KlidLength + 1 {
      return None;
    }
    var pad := KlidLength - len;
    var buffer := new char[KlidLength];
    var i := 0;
    while i < pad
      invariant 0 <= i <= pad
      invariant forall k :: 0 <= k < i ==> buffer[k] == '0'
    {
      buffer[i] := '0';
      i := i + 1;
    }
    var j := 0;
    while j < len
      invariant 0 <= j <= len
      invariant forall k :: 0 <= k < pad ==> buffer[k] == '0'
      invariant forall k :: pad <= k < pad + j ==> buffer[k] == value[start + k - pad]
    {
      buffer[pad + j] := value[start + j];
      j := j + 1;
    }
    assert buffer[..] == seq(pad, _ => '0') + value[start..];
    r := Some(buffer[..]);
  }

  // ---------------------------------------------------------------------------
  // Positional arguments

  /** The layout a `KEY=value` argument asks for: `HEX` is the hexadecimal
      dummy layout; anything else is loaded by its KLID with `load`
      (`LoadKeyboardLayoutA`, which gives 0 on failure). */
  function LayoutFor(value: string, load: string -> Hkl): (r: Option<Hkl>)
    ensures value == "HEX" ==> r == Some(HklHexToUnicode)
    // another value names a layout exactly when its KLID is well formed and loads
    ensures value != "HEX" ==> (r.Some? <==> Klid(value).Some? && load(Klid(value).value) != HklNull)
    ensures value != "HEX" && r.Some? ==> r.value == load(Klid(value).value)
    // NULL never stands for a layout
    ensures r.Some? ==> r.value != HklNull
  {
    if value == "HEX" then Some(HklHexToUnicode)
    else
      match Klid(value)
      case None => None
      case Some(klid) => if load(klid) == HklNull then None else Some(load(klid))
  }

  /** Where the key name of a positional argument ends: at its first `=`, or
      at its end. */
  function KeyNameLength(arg: string): (n: nat)
    ensures n <= |arg|
  {
    match StrChr(arg, '=', 0)
    case None => |arg|
    case Some(eq) => eq
  }

  /** What `ParseNonOptionArg` does to the key and layout tables, and whether
      it succeeds. */
  function NonOptionArg(usage: string, load: string -> Hkl, keys: seq<Vkey>, layouts: seq<Hkl>, arg: string)
    : (r: (bool, seq<Vkey>, seq<Hkl>))
    requires |keys| == |layouts|
    ensures |r.1| == |r.2| == |keys|
  {
    var len := KeyNameLength(arg);
    var vk := KeyNameVk(usage, arg[..len]);
    if vk == 0 then (false, keys, layouts)
    else
      var hkl := if len == |arg| then Some(HklAutoAssign) else LayoutFor(arg[len + 1..], load);
      if hkl.None? then (false, keys, layouts)
      else
        var (idx, keys') := AddKey(keys, vk);
        if idx < 0 then (false, keys', layouts) else (true, keys', layouts[idx := hkl.value])
  }

  /** A positional argument fails without changing anything for an unknown
      key name, a refused or unloadable layout, a key already present or a
      full table. On success the key goes into the first empty slot and its
      layout beside it: to be assigned later when there is no `=`, the
      hexadecimal dummy layout for `=HEX`, the loaded layout otherwise. */
  lemma NonOptionArgRules(usage: string, load: string -> Hkl, keys: seq<Vkey>, layouts: seq<Hkl>, arg: string)
    requires |keys| == |layouts| && Packed(keys)
    ensures var (ok, keys', layouts') := NonOptionArg(usage, load, keys, layouts, arg);
      var len := KeyNameLength(arg);
      var vk := KeyNameVk(usage, arg[..len]);
      (!ok ==> keys' == keys && layouts' == layouts)
      && (vk == 0 ==> !ok)
      && (ok <==> (vk != 0 && vk !in keys && Used(keys) < |keys|
                   && (len == |arg| || LayoutFor(arg[len + 1..], load).Some?)))
      && (ok ==> (keys' == keys[Used(keys) := vk] && Packed(keys')
                  && layouts' == layouts[Used(keys) := if len == |arg| then HklAutoAssign
                                                       else LayoutFor(arg[len + 1..], load).value]))
  {
    var len := KeyNameLength(arg);
    var vk := KeyNameVk(usage, arg[..len]);
    if vk != 0 {
      AddKeyRules(keys, vk);
    }
  }

  /** A key named without `=LAYOUT` is left for automatic assignment. */
  lemma KeyAloneIsAutoAssigned(usage: string, load: string -> Hkl, keys: seq<Vkey>, layouts: seq<Hkl>, arg: string)
    requires |keys| == |layouts| && Packed(keys)
    requires forall k :: 0 <= k < |arg| ==> arg[k] != '='
    ensures var (ok, keys', layouts') := NonOptionArg(usage, load, keys, layouts, arg);
      ok ==> layouts'[Used(keys)] == HklAutoAssign && keys'[Used(keys)] == KeyNameVk(usage, arg)
  {
    assert KeyNameLength(arg) == |arg|;
    assert arg[..|arg|] == arg;
    NonOptionArgRules(usage, load, keys, layouts, arg);
  }

  // ---------------------------------------------------------------------------
  // Options

  /** The `Options` fields, as values. */
  datatype OptionsView = OptionsView(
    command: Command, tapTimeout: Dword, keys: seq<Vkey>, layouts: seq<Hkl>,
    quiet: bool, ignoreFullscreen: bool)

  /** Options whose two tables have the same size (`static_assert` in
      `AddLayoutSwitchKey`). */
  type Settings = v: OptionsView | |v.keys| == |v.layouts|
    witness OptionsView(Run, 0, [], [], false, false)

  /** What `AppDocOptSetOption` does: opt 0 is a positional argument; `l`, `s`,
      `p`, `r`, `x` and `h` request a command; `q` makes the program quiet;
      `F` stops it ignoring full-screen applications; `t` sets the double-tap
      timeout (`atoi`, stored in an `unsigned`); any other option fails. */
  function SetOption(usage: string, load: string -> Hkl, v: Settings, opt: char, val: Option<string>)
    : (r: (bool, Settings))
    // the command only ever rises in precedence, and help always wins
    ensures Rank(r.1.command) >= Rank(v.command)
    ensures opt == 'h' ==> r.1.command == Help
    // an unknown option fails and changes nothing
    ensures opt !in {0 as char, 'l', 's', 'p', 'r', 'x', 'h', 'q', 'F', 't'} ==> !r.0 && r.1 == v
    // only a positional argument touches the tables
    ensures opt != 0 as char ==> r.1.keys == v.keys && r.1.layouts == v.layouts
    // only `t` sets the timeout, to the `unsigned` value of `atoi`
    ensures opt != 't' ==> r.1.tapTimeout == v.tapTimeout
    ensures opt == 't' ==> r.0 && r.1.tapTimeout == Atoi(KbswEarly.ValText(val)) % Pow32
    // `q` sets quiet and `F` clears ignore-fullscreen, and nothing else touches them
    ensures r.1.quiet == (v.quiet || opt == 'q')
    ensures r.1.ignoreFullscreen == (v.ignoreFullscreen && opt != 'F')
  {
    if opt == 0 as char then
      var (ok, keys, layouts) := NonOptionArg(usage, load, v.keys, v.layouts, KbswEarly.ValText(val));
      (ok, v.(keys := keys, layouts := layouts))
    else if opt == 'l' then (true, v.(command := Raise(Rank, v.command, ListLayouts)))
    else if opt == 's' then (true, v.(command := Raise(Rank, v.command, ShowStatus)))
    else if opt == 'p' then (true, v.(command := Raise(Rank, v.command, Pause)))
    else if opt == 'r' then (true, v.(command := Raise(Rank, v.command, Resume)))
    else if opt == 'x' then (true, v.(command := Raise(Rank, v.command, Quit)))
    else if opt == 'h' then (true, v.(command := Raise(Rank, v.command, Help)))
    else if opt == 'q' then (true, v.(quiet := true))
    else if opt == 'F' then (true, v.(ignoreFullscreen := false))
    else if opt == 't' then (true, v.(tapTimeout := Atoi(KbswEarly.ValText(val)) % Pow32))
    else (false, v)
  }

  /** `AppDocOptSetOption` as the option setter of the command-line parser. */
  function Setter(usage: string, load: string -> Hkl): DocoptParse.Setter<Settings> {
    (v, opt, val) => SetOption(usage, load, v, opt, val)
  }

  // ---------------------------------------------------------------------------
  // Automatic layout assignment

  /** The number of slots waiting for automatic assignment. */
  function CountAuto(layouts: seq<Hkl>): nat
    decreases |layouts|
  {
    if layouts == [] then 0
    else CountAuto(layouts[..|layouts| - 1]) + (if layouts[|layouts| - 1] == HklAutoAssign then 1 else 0)
  }

  /** Counting over a longer prefix counts at least as many. */
  lemma {:induction false} CountAutoMonotone(layouts: seq<Hkl>, i: nat, j: nat)
    requires i <= j <= |layouts|
    ensures CountAuto(layouts[..i]) <= CountAuto(layouts[..j])
    decreases j - i
  {
    if i < j {
      CountAutoMonotone(layouts, i, j - 1);
      assert layouts[..j][..j - 1] == layouts[..j - 1];
    }
  }

  /** The loop of `AutoAssignLayouts` from slot `i`, with `k` layouts of the
      installed list `installed` already handed out. */
  function AssignFrom(layouts: seq<Hkl>, installed: seq<Hkl>, i: nat, k: nat): (r: (bool, seq<Hkl>))
    requires i <= |layouts|
    ensures |r.1| == |layouts|
    decreases |layouts| - i
  {
    if i == |layouts| then (true, layouts)
    else if layouts[i] != HklAutoAssign then AssignFrom(layouts, installed, i + 1, k)
    else if |installed| == 0 || k >= |installed| then (false, layouts)
    else AssignFrom(layouts[i := installed[k]], installed, i + 1, k + 1)
  }

  /** What `AutoAssignLayouts` returns and leaves in the layout table. */
  function AutoAssign(layouts: seq<Hkl>, installed: seq<Hkl>): (r: (bool, seq<Hkl>))
    ensures |r.1| == |layouts|
  {
    AssignFrom(layouts, installed, 0, 0)
  }

  /** The `j`-th slot after a successful assignment: the layout of its
      position among the automatic slots, or what it held. */
  function Assigned(layouts: seq<Hkl>, installed: seq<Hkl>, j: nat): Hkl
    requires j < |layouts| && CountAuto(layouts) <= |installed|
  {
    if layouts[j] == HklAutoAssign then
      CountAutoMonotone(layouts, j + 1, |layouts|);
      assert layouts[..|layouts|] == layouts;
      assert layouts[..j + 1][..j] == layouts[..j];
      installed[CountAuto(layouts[..j])]
    else layouts[j]
  }

  /** The loop from slot `i` on a table whose slots from `i` on are as given
      succeeds exactly when the installed list covers every automatic slot. */
  lemma {:induction false} AssignFromOutcome(orig: seq<Hkl>, cur: seq<Hkl>, installed: seq<Hkl>, i: nat)
    requires i <= |orig| == |cur| && cur[i..] == orig[i..]
    requires CountAuto(orig[..i]) <= |installed|
    ensures AssignFrom(cur, installed, i, CountAuto(orig[..i])).0 <==> CountAuto(orig) <= |installed|
    decreases |orig| - i
  {
    var k := CountAuto(orig[..i]);
    if i == |orig| {
      assert orig[..i] == orig;
    } else {
      assert orig[..i + 1][..i] == orig[..i];
      assert cur[i] == orig[i];
      CountAutoMonotone(orig, i + 1, |orig|);
      assert orig[..|orig|] == orig;
      if orig[i] != HklAutoAssign {
        assert CountAuto(orig[..i + 1]) == k;
        assert cur[i + 1..] == orig[i + 1..];
        AssignFromOutcome(orig, cur, installed, i + 1);
      } else if |installed| == 0 || k >= |installed| {
        assert CountAuto(orig[..i + 1]) == k + 1;
      } else {
        var cur' := cur[i := installed[k]];
        assert CountAuto(orig[..i + 1]) == k + 1;
        assert cur'[i + 1..] == orig[i + 1..];
        AssignFromOutcome(orig, cur', installed, i + 1);
      }
    }
  }

  /** When the installed list covers every automatic slot, the loop from slot
      `i` keeps the slots before `i` and fills each later slot as `Assigned`
      says. */
  lemma {:induction false} AssignFromContents(orig: seq<Hkl>, cur: seq<Hkl>, installed: seq<Hkl>, i: nat)
    requires i <= |orig| == |cur| && cur[i..] == orig[i..]
    requires CountAuto(orig) <= |installed|
    ensures CountAuto(orig[..i]) <= |installed|
    ensures var r := AssignFrom(cur, installed, i, CountAuto(orig[..i])).1;
      r[..i] == cur[..i] && forall j :: i <= j < |orig| ==> r[j] == Assigned(orig, installed, j)
    decreases |orig| - i
  {
    assert orig[..|orig|] == orig;
    CountAutoMonotone(orig, i, |orig|);
    var k := CountAuto(orig[..i]);
    if i < |orig| {
      assert orig[..i + 1][..i] == orig[..i];
      assert cur[i] == orig[i];
      CountAutoMonotone(orig, i + 1, |orig|);
      var next := if orig[i] == HklAutoAssign then cur[i := installed[k]] else cur;
      var k' := if orig[i] == HklAutoAssign then k + 1 else k;
      assert CountAuto(orig[..i + 1]) == k';
      assert AssignFrom(cur, installed, i, k) == AssignFrom(next, installed, i + 1, k');
      assert next[i + 1..] == orig[i + 1..];
      AssignFromContents(orig, next, installed, i + 1);
      var r := AssignFrom(next, installed, i + 1, k').1;
      assert r[..i + 1][..i] == r[..i];
      assert r[i] == next[i] == Assigned(orig, installed, i);
    }
  }

  /** `AutoAssignLayouts` succeeds exactly when there are at least as many
      installed layouts as automatic slots; then the `k`-th automatic slot gets
      the `k`-th installed layout and every other slot keeps its layout. */
  lemma AutoAssignRules(layouts: seq<Hkl>, installed: seq<Hkl>)
    ensures AutoAssign(layouts, installed).0 <==> CountAuto(layouts) <= |installed|
    ensures AutoAssign(layouts, installed).0 ==>
      forall j :: 0 <= j < |layouts| ==> AutoAssign(layouts, installed).1[j] == Assigned(layouts, installed, j)
  {
    assert layouts[0..] == layouts;
    assert layouts[..0] == [];
    AssignFromOutcome(layouts, layouts, installed, 0);
    if CountAuto(layouts) <= |installed| {
      AssignFromContents(layouts, layouts, installed, 0);
    }
  }

  /** After a successful assignment from a list of real layouts, no slot is
      still waiting for one. */
  lemma AutoAssignResolves(layouts: seq<Hkl>, installed: seq<Hkl>)
    requires forall k :: 0 <= k < |installed| ==> IsRealLayout(installed[k])
    requires AutoAssign(layouts, installed).0
    ensures forall j :: 0 <= j < |layouts| ==> AutoAssign(layouts, installed).1[j] != HklAutoAssign
  {
    AutoAssignRules(layouts, installed);
    forall j | 0 <= j < |layouts|
      ensures AutoAssign(layouts, installed).1[j] != HklAutoAssign
    {
      assert AutoAssign(layouts, installed).1[j] == Assigned(layouts, installed, j);
      if layouts[j] == HklAutoAssign {
        CountAutoMonotone(layouts, j + 1, |layouts|);
        assert layouts[..|layouts|] == layouts;
        assert layouts[..j + 1][..j] == layouts[..j];
        assert IsRealLayout(installed[CountAuto(layouts[..j])]);
      }
    }
  }

  /** A table with no automatic slot is left as it is, whatever the list. */
  lemma {:induction false} NothingToAssign(layouts: seq<Hkl>, installed: seq<Hkl>, i: nat, k: nat)
    requires i <= |layouts| && forall j :: i <= j < |layouts| ==> layouts[j] != HklAutoAssign
    ensures AssignFrom(layouts, installed, i, k) == (true, layouts)
    decreases |layouts| - i
  {
    if i < |layouts| {
      NothingToAssign(layouts, installed, i + 1, k);
    }
  }

  // ---------------------------------------------------------------------------
  // The options object

  /** The layout half of a positional argument: `HEX`, or a layout
      identifier that is normalised and then loaded. */
  method ParseLayoutValue(value: string, load: string -> Hkl) returns (hkl: Option<Hkl>)
    ensures hkl == LayoutFor(value, load)
  {
    if value == "HEX" {
      return Some(HklHexToUnicode);
    }
    var klid := NormaliseKlid(value);
    if klid.None? {
      return None;
    }
    var h := load(klid.value);
    if h == HklNull {
      return None;
    }
    return Some(h);
  }

  /** The parsing half of `ParseNonOptionArg`: the key named before the
      first `=`, and (when that key is known) the layout named after it. */
  method ParseSwitchArg(usage: string, load: string -> Hkl, arg: string) returns (vk: Vkey, hkl: Option<Hkl>)
    ensures vk == KeyNameVk(usage, arg[..KeyNameLength(arg)])
    ensures vk != 0 ==> hkl == (if KeyNameLength(arg) == |arg| then Some(HklAutoAssign)
                                else LayoutFor(arg[KeyNameLength(arg) + 1..], load))
  {
    var eq := StrChr(arg, '=', 0);
    var len := if eq.Some? then eq.value else |arg|;
    assert len == KeyNameLength(arg);
    vk := ParseKeyName(usage, arg, len);
    hkl := Some(HklAutoAssign);
    if vk == 0 {
      return;
    }
    if eq.Some? {
      hkl := ParseLayoutValue(arg[eq.value + 1..], load);
    }
  }

  /** The parsed options (`Options`). */
  class Options {
    var command: Command
    var tapTimeout: Dword
    const keys: array<Vkey>
    const layouts: array<Hkl>
    var quiet: bool
    var ignoreFullscreen: bool

    ghost predicate Valid()
      reads this
    {
      keys.Length == MaxSwitches && layouts.Length == MaxSwitches
    }

    function View(): Settings
      requires Valid()
      reads this, keys, layouts
    {
      OptionsView(command, tapTimeout, keys[..], layouts[..], quiet, ignoreFullscreen)
    }

    /** `main` starts from the zeroed `gOptions` with `command = cmdRun` and
        `ignore_fullscreen = true`. */
    constructor ()
      ensures Valid() && fresh(keys) && fresh(layouts)
      ensures View() == InitialOptions()
    {
      command := Run;
      tapTimeout := 0;
      keys := new Vkey[MaxSwitches](_ => 0);
      layouts := new Hkl[MaxSwitches](_ => HklNull);
      quiet := false;
      ignoreFullscreen := true;
      new;
      assert keys[..] == seq(MaxSwitches, _ => 0);
      assert layouts[..] == seq(MaxSwitches, _ => HklNull);
    }

    /** `AddLayoutSwitchKey`: the slot loop over the key table. */
    method AddLayoutSwitchKey(vk: Vkey) returns (idx: int)
      requires Valid()
      modifies keys
      ensures (idx, keys[..]) == AddKey(old(keys[..]), vk)
    {
      var i := 0;
      while i < keys.Length
        invariant 0 <= i <= keys.Length
        invariant forall k :: 0 <= k < i ==> keys[k] != vk && keys[k] != 0
      {
        if keys[i] == vk {
          KeySlotIs(keys[..], vk, 0, i);
          return -1;
        }
        if keys[i] == 0 {
          KeySlotIs(keys[..], vk, 0, i);
          keys[i] := vk;
          return i;
        }
        i := i + 1;
      }
      KeySlotIs(keys[..], vk, 0, i);
      return -1;
    }

    /** `ParseNonOptionArg`, loading layouts with `load`. */
    method ParseNonOptionArg(usage: string, load: string -> Hkl, arg: string) returns (ok: bool)
      requires Valid()
      modifies keys, layouts
      ensures (ok, keys[..], layouts[..]) == NonOptionArg(usage, load, old(keys[..]), old(layouts[..]), arg)
    {
      var vk, hkl := ParseSwitchArg(usage, load, arg);
      if vk == 0 || hkl.None? {
        return false;
      }
      ok := AddLayout(vk, hkl.value);
    }

    /** The slot update that ends `ParseNonOptionArg`: the key goes in, and
        on success its layout beside it. */
    method AddLayout(vk: Vkey, hkl: Hkl) returns (ok: bool)
      requires Valid() && vk != 0
      modifies keys, layouts
      ensures var (idx, keys') := AddKey(old(keys[..]), vk);
        && keys[..] == keys'
        && ok == (idx >= 0)
        && layouts[..] == (if idx < 0 then old(layouts[..]) else old(layouts[..])[idx := hkl])
    {
      var idx := AddLayoutSwitchKey(vk);
      if idx < 0 {
        return false;
      }
      layouts[idx] := hkl;
      return true;
    }

    /** `AppDocOptSetOption`. */
    method AppDocOptSetOption(usage: string, load: string -> Hkl, opt: char, val: Option<string>)
      returns (ok: bool)
      requires Valid()
      modifies this, keys, layouts
      ensures Valid()
      ensures (ok, View()) == SetOption(usage, load, old(View()), opt, val)
    {
      var cmd := command;
      if opt == 0 as char {
        ok := ParseNonOptionArg(usage, load, KbswEarly.ValText(val));
        return;
      } else if opt == 'l' {
        cmd := ListLayouts;
      } else if opt == 's' {
        cmd := ShowStatus;
      } else if opt == 'p' {
        cmd := Pause;
      } else if opt == 'r' {
        cmd := Resume;
      } else if opt == 'x' {
        cmd := Quit;
      } else if opt == 'h' {
        cmd := Help;
      } else if opt == 'q' {
        quiet := true;
      } else if opt == 'F' {
        ignoreFullscreen := false;
      } else if opt == 't' {
        tapTimeout := Atoi(KbswEarly.ValText(val)) % Pow32;
      } else {
        return false;
      }
      if Rank(cmd) > Rank(command) {
        command := cmd;
      }
      return true;
    }

    /** `AutoAssignLayouts`, with `installed` what `GetKeyboardLayoutList`
        reports; `fetched` tells whether the list was asked for. */
    method AutoAssignLayouts(installed: seq<Hkl>) returns (ok: bool, fetched: bool)
      requires Valid()
      modifies layouts
      ensures (ok, layouts[..]) == AutoAssign(old(layouts[..]), installed)
      ensures fetched <==> HklAutoAssign in old(layouts[..])
    {
      ghost var orig := layouts[..];
      fetched := false;
      var k := 0;
      var i := 0;
      while i < layouts.Length
        invariant 0 <= i <= layouts.Length
        invariant AutoAssign(orig, installed) == AssignFrom(layouts[..], installed, i, k)
        invariant layouts[i..] == orig[i..]
        invariant fetched <==> HklAutoAssign in orig[..i]
      {
        assert orig[..i + 1] == orig[..i] + [orig[i]];
        assert layouts[i] == orig[i] by { assert layouts[i..][0] == orig[i..][0]; }
        ghost var before := layouts[..];
        if layouts[i] != HklAutoAssign {
          assert AssignFrom(before, installed, i, k) == AssignFrom(before, installed, i + 1, k);
          assert layouts[i + 1..] == orig[i + 1..] by { assert layouts[i + 1..] == layouts[i..][1..]; }
          i := i + 1;
          continue;
        }
        fetched := true;
        if |installed| == 0 || k >= |installed| {
          return false, fetched;
        }
        layouts[i] := installed[k];
        assert layouts[..] == before[i := installed[k]];
        assert AssignFrom(before, installed, i, k) == AssignFrom(layouts[..], installed, i + 1, k + 1);
        assert layouts[i + 1..] == orig[i + 1..] by { assert layouts[i + 1..] == before[i + 1..]; assert before[i + 1..] == before[i..][1..]; }
        k := k + 1;
        i := i + 1;
      }
      assert orig[..i] == orig;
      return true, fetched;
    }
  }

  /** The options `main` parses into. */
  function InitialOptions(): Settings {
    OptionsView(Run, 0, seq(MaxSwitches, _ => 0), seq(MaxSwitches, _ => HklNull), false, true)
  }

  // ---------------------------------------------------------------------------
  // Activation

  /** `AppHookNotify`: the hook reports slot `idx`; an index past the table
      posts nothing, otherwise the slot's layout and the modifier flag go to
      the main window. */
  function HookNotify(layouts: seq<Hkl>, idx: nat, anyModifier: bool): (r: Option<(bool, Hkl)>)
    ensures r.Some? <==> idx < |layouts|
    ensures r.Some? ==> r.value == (anyModifier, layouts[idx])
  {
    if idx >= |layouts| then None else Some((anyModifier, layouts[idx]))
  }

  /** The `UWM_ACTIVATE_LAYOUT` gate: an activation is dropped while a
      full-screen application runs (unless `-F` was given) or while the
      transliteration engine is busy. */
  function AcceptsActivation(ignoreFullscreen: bool, fullscreenRunning: bool, busy: bool): (r: bool) {
    !(ignoreFullscreen && fullscreenRunning) && !busy
  }

  /** What an activation asks of the rest of the program: a transliteration of
      the selection into a layout, and a layout change posted to the focused
      window. */
  datatype Request = Request(translateTo: Option<Hkl>, postLayout: Option<Hkl>)

  const NoRequest: Request := Request(None, None)

  /** `SetFocusedWindowLayout(new_layout, modifier)`; `found` says whether
      the foreground window and its thread were found, without which nothing
      is done. */
  function Dispatch(layout: Hkl, modifier: bool, found: bool): (r: Request)
    ensures !found ==> r == NoRequest
    // a found window always gets something to do
    ensures found ==> r != NoRequest
    // the HEX dummy layout is never posted; any other layout always is, unchanged
    ensures r.postLayout.Some? <==> found && layout != HklHexToUnicode
    ensures r.postLayout.Some? ==> r.postLayout.value == layout
    // the selection is converted for HEX, or when a modifier is held
    ensures r.translateTo.Some? <==> found && (layout == HklHexToUnicode || modifier)
    ensures r.translateTo.Some? && layout != HklHexToUnicode ==> r.translateTo.value == layout
    // HEX converts towards hex exactly when a modifier is held
    ensures r.translateTo.Some? && layout == HklHexToUnicode ==>
              (r.translateTo.value == HklUnicodeToHex <==> modifier)
              && (r.translateTo.value == HklHexToUnicode <==> !modifier)
  {
    if !found then NoRequest
    else if layout == HklHexToUnicode then
      Request(Some(if modifier then HklUnicodeToHex else HklHexToUnicode), None)
    else
      Request(if modifier then Some(layout) else None, Some(layout))
  }

  /** `MainWindowProc` on `UWM_ACTIVATE_LAYOUT`. */
  function OnActivateLayout(ignoreFullscreen: bool, fullscreenRunning: bool, busy: bool,
                            layout: Hkl, modifier: bool, found: bool): (r: Request)
    // something is asked for exactly when the gate is open and the window was found
    ensures r != NoRequest <==> AcceptsActivation(ignoreFullscreen, fullscreenRunning, busy) && found
    ensures r != NoRequest ==> r == Dispatch(layout, modifier, found)
  {
    if !AcceptsActivation(ignoreFullscreen, fullscreenRunning, busy) then NoRequest
    else Dispatch(layout, modifier, found)
  }

  /** The whole path from a double-tap of slot `idx` to the request: nothing
      happens while the engine is busy, while a full-screen application
      runs (unless `-F` was given) or when no foreground window is found.
      A HEX slot converts the selection towards hex with a modifier and
      towards Unicode without, and changes no layout; any other slot
      switches the focused window to that slot's layout and converts the
      selection into it exactly when a modifier was held. A configuration
      assigned from real layouts never asks for the auto-assign marker or
      NULL. */
  lemma ActivationTargets(layouts: seq<Hkl>, idx: nat, anyModifier: bool,
                          ignoreFullscreen: bool, fullscreenRunning: bool, busy: bool, found: bool)
    requires forall j :: 0 <= j < |layouts| ==> IsRealLayout(layouts[j]) || layouts[j] == HklHexToUnicode
    requires HookNotify(layouts, idx, anyModifier).Some?
    ensures var (m, layout) := HookNotify(layouts, idx, anyModifier).value;
      var r := OnActivateLayout(ignoreFullscreen, fullscreenRunning, busy, layout, m, found);
      var live := !busy && !(ignoreFullscreen && fullscreenRunning) && found;
      (!live ==> r == NoRequest)
      && (live && layouts[idx] == HklHexToUnicode ==>
            r == Request(Some(if anyModifier then HklUnicodeToHex else HklHexToUnicode), None))
      && (live && layouts[idx] != HklHexToUnicode ==>
            r.postLayout == Some(layouts[idx]) && (r.translateTo.Some? <==> anyModifier))
      && (r.translateTo.Some? ==>
            r.translateTo.value != HklAutoAssign && r.translateTo.value != HklNull)
      && (r.postLayout.Some? ==> IsRealLayout(r.postLayout.value))
  {
    var (m, layout) := HookNotify(layouts, idx, anyModifier).value;
    var r := OnActivateLayout(ignoreFullscreen, fullscreenRunning, busy, layout, m, found);
    assert layout == layouts[idx];
  }

  // ---------------------------------------------------------------------------
  // Start-up

  /** What `main` goes on to do after parsing and assigning layouts. */
  datatype Outcome =
    | ExitWithError
    | StartSwitcher(options: Settings)
    | PauseOrResume(resume: bool)
    | StopRunningCopy
    | ShowLayouts
    | ShowRunningStatus
    | ShowUsage

  /** `main` after `DocOptParseCommandLine`: a parse failure ends with status 1
      unless help was requested; then the layouts are assigned (a failure ends
      with status 1, even for help); `Run` without any key ends with status 1. */
  function Decide(parsed: bool, v: Settings, installed: seq<Hkl>): (r: Outcome)
    // a parse failure is fatal unless help was asked for
    ensures !parsed && v.command != Help ==> r == ExitWithError
    // a run needs at least one key
    ensures r.StartSwitcher? ==> parsed && |v.keys| > 0 && v.keys[0] != 0
    // anything but an error is what the command asks for
    ensures r != ExitWithError ==>
              (r.StartSwitcher? <==> v.command == Run)
              && (r == PauseOrResume(false) <==> v.command == Pause)
              && (r == PauseOrResume(true) <==> v.command == Resume)
              && (r == StopRunningCopy <==> v.command == Quit)
              && (r == ShowLayouts <==> v.command == ListLayouts)
              && (r == ShowRunningStatus <==> v.command == ShowStatus)
              && (r == ShowUsage <==> v.command == Help)
  {
    if !parsed && v.command != Help then ExitWithError
    else
      var (resolved, layouts) := AutoAssign(v.layouts, installed);
      if !resolved then ExitWithError
      else
        match v.command
        case Run => if |v.keys| == 0 || v.keys[0] == 0 then ExitWithError else StartSwitcher(v.(layouts := layouts))
        case Pause => PauseOrResume(false)
        case Resume => PauseOrResume(true)
        case Quit => StopRunningCopy
        case ListLayouts => ShowLayouts
        case ShowStatus => ShowRunningStatus
        case Help => ShowUsage
  }

  /** `main`: the command line is parsed against the usage text into the
      initial options, then `Decide`. */
  function Startup(usage: string, load: string -> Hkl, installed: seq<Hkl>, args: seq<string>): Outcome {
    var (parsed, _, v) := DocoptParse.ParseCommandLine(DocoptParse.DocEntries(usage), Setter(usage, load), InitialOptions(), args);
    Decide(parsed, v, installed)
  }

  /** The switcher starts only for `Run` on a parsed command line with at
      least one key, once every automatic slot has a layout; with a list of
      real layouts it then starts with no slot left to assign. Help is shown
      whenever it was requested and the layouts could be assigned. */
  lemma DecideRules(parsed: bool, v: Settings, installed: seq<Hkl>)
    ensures var r := Decide(parsed, v, installed);
      (r.StartSwitcher? <==> parsed && v.command == Run && |v.keys| > 0 && v.keys[0] != 0
                             && CountAuto(v.layouts) <= |installed|)
      && (r.StartSwitcher? ==> r.options == v.(layouts := AutoAssign(v.layouts, installed).1))
      && (r.StartSwitcher? && (forall k :: 0 <= k < |installed| ==> IsRealLayout(installed[k])) ==>
            forall j :: 0 <= j < |r.options.layouts| ==> r.options.layouts[j] != HklAutoAssign)
      && (v.command == Help ==> (r == ShowUsage <==> CountAuto(v.layouts) <= |installed|))
      && (!parsed && v.command != Help ==> r == ExitWithError)
  {
    AutoAssignRules(v.layouts, installed);
    if AutoAssign(v.layouts, installed).0 && (forall k :: 0 <= k < |installed| ==> IsRealLayout(installed[k])) {
      AutoAssignResolves(v.layouts, installed);
    }
  }
}
