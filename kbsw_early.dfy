/** The command-line configuration of the earlier `kbsw.c`: key names looked
    up in the usage text, the switch table of the hook parameters, the
    positional `KEY=LAYOUT` arguments and the option setter the parser calls. */
module KbswEarly {
  import opened Common
  import opened CLib
  import opened Docopt

  /** The program name the usage text is built with (`PROG`). */
  const Prog: string := "kbsw"

  /** `kUsage`: the help text, which also defines the options and the key names. */
  const Usage: string :=
    "Usage: " + Prog + " [options] KEY=LAYOUT [KEY=LAYOUT...]\n"
    + "\n"
    + "where LAYOUT codes can be obtained by running\n"
    + "\t" + Prog + " --list-layouts\n"
    + "\n"
    + "and KEY can be one of the following:\n"
    + "\tLC\tLCtrl\tLeftCtrl\t\tLeftControl\n"
    + "\tRC\tRCtrl\tRightCtrl\t\tRightControl\n"
    + "\tLS\tLShift\tLeftShift\n"
    + "\tRS\tRShift\tRightShift\n"
    + "\tLA\tLAlt\tLeftAlt\n"
    + "\tRA\tRAlt\tRightAlt\n"
    + "\tLW\tLWin\tLeftWin\n"
    + "\tRW\tRWin\tRightWin\n"
    + "\n"
    + "-t --timeout=300\tdouble-tap timeout, in milliseconds\n"
    + "-q --quit      \tstop the running copy of " + Prog + "\n"
    + "-l --list-layouts\tdisplay installed keyboard layouts and exit\n"
    + "-h --help      \tshow this text and exit\n"

  /** What the key lines of the usage text start with. */
  const KeyLinePrefix: string := "\n\t"

  /** The commands, in rising precedence: when several are given the highest wins. */
  datatype Command = Run | ListLayouts | Quit | Help

  function Rank(c: Command): nat {
    match c
    case Run => 0
    case ListLayouts => 1
    case Quit => 2
    case Help => 3
  }

  /** One slot of the hook parameters: a trigger key (0 for an empty slot) and
      the layout id reported when it is double-tapped. */
  datatype Switch = Switch(vk: Vkey, id: nat)

  /** `key_names`: the code each key line starts with, and its key. */
  const KeyNames: seq<(string, Vkey)> :=
    [("LC", VK_LCONTROL), ("RC", VK_RCONTROL), ("LS", VK_LSHIFT), ("RS", VK_RSHIFT),
     ("LA", VK_LMENU), ("RA", VK_RMENU), ("LW", VK_LWIN), ("RW", VK_RWIN)]

  /** `code` starts `rest` (`strncmp(rest, code, strlen(code)) == 0`). */
  predicate StartsWith(rest: string, code: string) {
    |code| <= |rest| && rest[..|code|] == code
  }

  /** The key of the first table entry whose code starts `rest`; 0 if none. */
  function CodeVk(rest: string, table: seq<(string, Vkey)>): (vk: Vkey)
    requires forall i :: 0 <= i < |table| ==> table[i].1 != 0
    ensures vk == 0 <==> forall i :: 0 <= i < |table| ==> !StartsWith(rest, table[i].0)
    ensures vk != 0 ==> exists i :: (0 <= i < |table| && StartsWith(rest, table[i].0) && vk == table[i].1
      && forall k :: 0 <= k < i ==> !StartsWith(rest, table[k].0))
    decreases |table|
  {
    if table == [] then 0
    else if StartsWith(rest, table[0].0) then table[0].1
    else
      var vk := CodeVk(rest, table[1..]);
      assert forall i :: 1 <= i < |table| ==> table[i] == table[1..][i - 1];
      vk
  }

  /** The key whose code (from `table`) starts the first line after `prefix`
      that holds `keyname` as a word; 0 when there is none. */
  function LineKey(usage: string, prefix: string, table: seq<(string, Vkey)>, keyname: string): Vkey
    requires prefix != [] && forall i :: 0 <= i < |table| ==> table[i].1 != 0
  {
    match FindLine(usage, prefix, keyname, 0)
    case None => 0
    case Some(start) => CodeVk(usage[start..], table)
  }

  /** A recognised key name is a key of the table, and comes from a key line
      holding the name with no earlier key line holding it. */
  lemma LineKeyMeans(usage: string, prefix: string, table: seq<(string, Vkey)>, keyname: string)
    requires LinePrefix(prefix) && forall i :: 0 <= i < |table| ==> table[i].1 != 0
    ensures var vk := LineKey(usage, prefix, table, keyname);
      vk != 0 ==>
        (exists i :: 0 <= i < |table| && vk == table[i].1)
        && exists start :: (FindLine(usage, prefix, keyname, 0) == Some(start)
          && LineHasWord(usage, start, keyname)
          && (forall p: nat :: OccursAt(usage, prefix, p) && p + |prefix| < start ==>
                !LineHasWord(usage, p + |prefix|, keyname)))
  {
    if FindLine(usage, prefix, keyname, 0).Some? {
      FindLineFirstHolding(usage, prefix, keyname);
    }
  }

  /** What `ParseKeyName` returns. */
  function KeyNameVk(usage: string, keyname: string): Vkey {
    LineKey(usage, KeyLinePrefix, KeyNames, keyname)
  }

  /** A key name recognised in the earlier usage text is one of the eight
      modifier keys. */
  lemma KeyNameVkMeans(usage: string, keyname: string)
    ensures KeyNameVk(usage, keyname) != 0 ==> KeyNameVk(usage, keyname) in ModifierVKeys
  {
    LineKeyMeans(usage, KeyLinePrefix, KeyNames, keyname);
    assert forall i :: 0 <= i < |KeyNames| ==> KeyNames[i].1 in ModifierVKeys;
  }

  /** `ParseKeyName`: the keyword search, then the loop over `key_names`. */
  method ParseKeyName(usage: string, keyname: string) returns (vk: Vkey)
    ensures vk == KeyNameVk(usage, keyname)
  {
    var line := FindLineWithWord(usage, KeyLinePrefix, keyname);
    if line == None {
      return 0;
    }
    vk := LookupCode(usage[line.value..], KeyNames);
  }

  /** The loop over `key_names`: the key of the first code that starts `rest`. */
  method LookupCode(rest: string, table: seq<(string, Vkey)>) returns (vk: Vkey)
    requires forall i :: 0 <= i < |table| ==> table[i].1 != 0
    ensures vk == CodeVk(rest, table)
  {
    var i := 0;
    while i < |table|
      invariant 0 <= i <= |table|
      invariant CodeVk(rest, table) == CodeVk(rest, table[i..])
    {
      if StartsWith(rest, table[i].0) {
        return table[i].1;
      }
      assert table[i..][1..] == table[i + 1..];
      i := i + 1;
    }
    return 0;
  }

  /** The parsing half of `ParseNonOptionArg`: split at `=`, look up the key
      name, read the layout with `strtoul`. */
  method ParseSwitchArg(usage: string, arg: string) returns (parsed: Option<(Vkey, nat)>)
    ensures parsed == SwitchArg(usage, arg)
  {
    var eq := StrChr(arg, '=', 0);
    if eq == None || eq.value >= KeyNameBufferSize {
      return None;
    }
    var keyname := arg[..eq.value];
    var vk := ParseKeyName(usage, keyname);
    if vk == 0 {
      return None;
    }
    var value := arg[eq.value + 1..];
    var (layout, end) := Strtoul16(value);
    if end != |value| {
      return None;
    }
    return Some((vk, layout));
  }

  /** The first slot at or after `i` that holds `vk` or is empty; `|sw|` if none. */
  function SlotFor(sw: seq<Switch>, vk: Vkey, i: nat): (r: nat)
    requires i <= |sw|
    ensures i <= r <= |sw|
    ensures r < |sw| ==> sw[r].vk == vk || sw[r].vk == 0
    ensures forall k :: i <= k < r ==> sw[k].vk != vk && sw[k].vk != 0
    decreases |sw| - i
  {
    if i == |sw| || sw[i].vk == vk || sw[i].vk == 0 then i else SlotFor(sw, vk, i + 1)
  }

  /** `SlotFor` is determined by its properties. */
  lemma {:induction false} SlotForIs(sw: seq<Switch>, vk: Vkey, i: nat, r: nat)
    requires i <= r <= |sw|
    requires r < |sw| ==> sw[r].vk == vk || sw[r].vk == 0
    requires forall k :: i <= k < r ==> sw[k].vk != vk && sw[k].vk != 0
    ensures SlotFor(sw, vk, i) == r
    decreases r - i
  {
    if i < r {
      SlotForIs(sw, vk, i + 1, r);
    }
  }

  /** What `AddLayoutSwitch` does to the table: fills the first empty slot,
      unless `vk` is met first or there is no empty slot. */
  function AddSwitch(sw: seq<Switch>, vk: Vkey, id: nat): (r: (bool, seq<Switch>))
    ensures |r.1| == |sw|
  {
    var k := SlotFor(sw, vk, 0);
    if k == |sw| || sw[k].vk == vk then (false, sw) else (true, sw[k := Switch(vk, id)])
  }

  /** The used slots come first, and no key is in two of them (as the table
      is kept from the empty start). */
  predicate Packed(sw: seq<Switch>) {
    (forall i, j :: 0 <= i < j < |sw| && sw[i].vk == 0 ==> sw[j].vk == 0)
    && (forall i, j :: 0 <= i < j < |sw| && sw[i].vk != 0 ==> sw[i].vk != sw[j].vk)
  }

  /** The number of used slots of a packed table. */
  function Used(sw: seq<Switch>): (n: nat)
    ensures n <= |sw|
    ensures forall k :: 0 <= k < n ==> sw[k].vk != 0
    ensures n < |sw| ==> sw[n].vk == 0
  {
    SlotFor(sw, 0, 0)
  }

  /** On a packed table, `AddLayoutSwitch` fails exactly for a key already
      present or a full table; otherwise it fills the first empty slot with
      both the key and the id, changes nothing else, and the table stays packed. */
  lemma AddSwitchRules(sw: seq<Switch>, vk: Vkey, id: nat)
    requires Packed(sw) && vk != 0
    ensures var (ok, sw') := AddSwitch(sw, vk, id);
      (!ok <==> Used(sw) == |sw| || exists k :: 0 <= k < |sw| && sw[k].vk == vk)
      && (!ok ==> sw' == sw)
      && (ok ==> sw' == sw[Used(sw) := Switch(vk, id)] && Used(sw') == Used(sw) + 1 && Packed(sw'))
  {
    var k := SlotFor(sw, vk, 0);
    var (ok, sw') := AddSwitch(sw, vk, id);
    if k < |sw| && sw[k].vk == 0 {
      SlotForIs(sw, 0, 0, k);
      assert forall j :: 0 <= j < |sw| ==> sw[j].vk != vk by {
        forall j | 0 <= j < |sw|
          ensures sw[j].vk != vk
        {
          if j >= k {
            assert sw[j].vk == 0;
          }
        }
      }
      SlotForIs(sw', 0, 0, k + 1);
    }
  }

  /** The part of `ParseNonOptionArg` after the `=`: the layout, if `strtoul`
      consumes the whole value. */
  function LayoutValue(value: string): (r: Option<nat>)
    ensures r.Some? ==> r.value <= ULongMax
  {
    var (layout, end) := Strtoul16(value);
    if end == |value| then Some(layout) else None
  }

  /** The size of the `keyname` buffer: names of 24 characters or more are rejected. */
  const KeyNameBufferSize: nat := 24

  /** The key and the layout a positional argument names, if it is well formed. */
  function SwitchArg(usage: string, arg: string): (r: Option<(Vkey, nat)>)
    ensures r.Some? ==> r.value.0 != 0
  {
    match StrChr(arg, '=', 0)
    case None => None
    case Some(eq) =>
      if eq >= KeyNameBufferSize then None
      else
        var vk := KeyNameVk(usage, arg[..eq]);
        if vk == 0 then None
        else
          match LayoutValue(arg[eq + 1..])
          case None => None
          case Some(layout) => Some((vk, layout))
  }

  /** What `ParseNonOptionArg` does to the switch table, and whether it succeeds. */
  function NonOptionArg(usage: string, sw: seq<Switch>, arg: string): (r: (bool, seq<Switch>))
    ensures !r.0 ==> r.1 == sw
  {
    match SwitchArg(usage, arg)
    case None => (false, sw)
    case Some((vk, layout)) => AddSwitch(sw, vk, layout)
  }

  /** A positional argument without an `=` is rejected and leaves the table alone. */
  lemma NoEqualsRejected(usage: string, sw: seq<Switch>, arg: string)
    requires forall k :: 0 <= k < |arg| ==> arg[k] != '='
    ensures NonOptionArg(usage, sw, arg) == (false, sw)
  {
    match StrChr(arg, '=', 0)
    case None =>
    case Some(eq) => assert false;
  }

  /** `arg` splits at its first `=`, at `eq`, into a recognised key name of at
      most 23 characters and a value `strtoul` consumes completely, and
      `ParseNonOptionArg` adds that key with that layout. */
  predicate AcceptedAt(usage: string, sw: seq<Switch>, arg: string, eq: nat)
  {
    eq < KeyNameBufferSize && eq < |arg| && arg[eq] == '='
    && (forall k :: 0 <= k < eq ==> arg[k] != '=')
    && KeyNameVk(usage, arg[..eq]) != 0
    && LayoutValue(arg[eq + 1..]).Some?
    && NonOptionArg(usage, sw, arg) == AddSwitch(sw, KeyNameVk(usage, arg[..eq]), LayoutValue(arg[eq + 1..]).value)
  }

  /** A succeeding positional argument is accepted at its first `=`. */
  lemma NonOptionArgAccepted(usage: string, sw: seq<Switch>, arg: string)
    requires NonOptionArg(usage, sw, arg).0
    ensures exists eq :: AcceptedAt(usage, sw, arg, eq)
  {
    match StrChr(arg, '=', 0)
    case None =>
    case Some(eq) =>
      assert AcceptedAt(usage, sw, arg, eq);
  }

  /** A value with junk after its hex digits is rejected, whatever the key. */
  lemma TrailingJunkRejected(usage: string, sw: seq<Switch>, name: string, digits: string, junk: char, rest: string)
    requires forall k :: 0 <= k < |name| ==> name[k] != '='
    requires forall k :: 0 <= k < |digits| ==> IsHexDigit(digits[k])
    requires !IsHexDigit(junk) && !IsSpace(junk) && junk != '-' && junk != '+' && junk != 'x' && junk != 'X'
    ensures NonOptionArg(usage, sw, name + "=" + digits + [junk] + rest) == (false, sw)
  {
    var arg := name + "=" + digits + [junk] + rest;
    var value := digits + [junk] + rest;
    assert StrChr(arg, '=', 0) == Some(|name|) by {
      assert arg[|name|] == '=';
      assert forall k :: 0 <= k < |name| ==> arg[k] == name[k];
    }
    assert arg[|name| + 1..] == value;
    assert value[|digits|] == junk;
    StrtoulStopsAtJunk(value, |digits|);
  }

  /** An empty value is consumed completely by `strtoul`, so `KEY=` is accepted
      with layout id 0. */
  lemma EmptyLayoutValueAccepted(usage: string, sw: seq<Switch>, name: string)
    requires |name| < KeyNameBufferSize && forall k :: 0 <= k < |name| ==> name[k] != '='
    requires KeyNameVk(usage, name) != 0
    ensures NonOptionArg(usage, sw, name + "=") == AddSwitch(sw, KeyNameVk(usage, name), 0)
  {
    var arg := name + "=";
    assert StrChr(arg, '=', 0) == Some(|name|) by {
      assert arg[|name|] == '=';
      assert forall k :: 0 <= k < |name| ==> arg[k] == name[k];
    }
    assert arg[..|name|] == name;
    assert arg[|name| + 1..] == [];
  }

  /** The `Options` fields, as values. */
  datatype OptionsView = OptionsView(switches: seq<Switch>, tapTimeout: Dword, command: Command)

  /** `val` as a C string; the option setter never receives a missing value
      where it reads one when the usage text and the setter agree. */
  function ValText(val: Option<string>): string {
    if val.Some? then val.value else ""
  }

  /** What `AppDocOptSetOption` does: opt 0 is a positional argument; `l`, `q`
      and `h` request a command; `t` sets the double-tap timeout (`atoi`, stored
      in an `unsigned`); any other option fails. */
  function SetOption(usage: string, v: OptionsView, opt: char, val: Option<string>): (r: (bool, OptionsView))
    // the command only ever rises in precedence, and help always wins
    ensures Rank(r.1.command) >= Rank(v.command)
    ensures opt == 'h' ==> r.1.command == Help
    // an unknown option fails and changes nothing
    ensures opt !in {0 as char, 'l', 'q', 'h', 't'} ==> !r.0 && r.1 == v
    // only a positional argument touches the switch table
    ensures opt != 0 as char ==> r.1.switches == v.switches
    // only `t` sets the timeout, to the `unsigned` value of `atoi`
    ensures opt != 't' ==> r.1.tapTimeout == v.tapTimeout
    ensures opt == 't' ==> r.0 && r.1.tapTimeout == Atoi(ValText(val)) % Pow32
  {
    if opt == 0 as char then
      var (ok, sw) := NonOptionArg(usage, v.switches, ValText(val));
      (ok, v.(switches := sw))
    else if opt == 'l' then (true, v.(command := Raise(Rank, v.command, ListLayouts)))
    else if opt == 'q' then (true, v.(command := Raise(Rank, v.command, Quit)))
    else if opt == 'h' then (true, v.(command := Raise(Rank, v.command, Help)))
    else if opt == 't' then (true, v.(tapTimeout := Atoi(ValText(val)) % Pow32))
    else (false, v)
  }

  /** The parsed options (`Options`): the hook parameters' switch table and
      double-tap timeout, and the command. */
  class Options {
    const switches: array<Switch>
    var tapTimeout: Dword
    var command: Command

    ghost predicate Valid()
      reads this
    {
      switches.Length == MaxSwitches
    }

    function View(): OptionsView
      reads this, switches
    {
      OptionsView(switches[..], tapTimeout, command)
    }

    /** `Options opt = { .command = cmdRun }`: everything else zero. */
    constructor ()
      ensures Valid() && fresh(switches)
      ensures View() == OptionsView(seq(MaxSwitches, _ => Switch(0, 0)), 0, Run)
      ensures Packed(View().switches)
    {
      switches := new Switch[MaxSwitches](_ => Switch(0, 0));
      tapTimeout := 0;
      command := Run;
    }

    /** `AddLayoutSwitch`: the slot loop over the hook parameters. */
    method AddLayoutSwitch(vk: Vkey, id: nat) returns (ok: bool)
      requires Valid()
      modifies switches
      ensures (ok, switches[..]) == AddSwitch(old(switches[..]), vk, id)
    {
      var i := 0;
      while i < switches.Length
        invariant 0 <= i <= switches.Length
        invariant forall k :: 0 <= k < i ==> switches[k].vk != vk && switches[k].vk != 0
      {
        if switches[i].vk == vk {
          SlotForIs(switches[..], vk, 0, i);
          return false;
        }
        if switches[i].vk == 0 {
          SlotForIs(switches[..], vk, 0, i);
          switches[i] := Switch(vk, id);
          return true;
        }
        i := i + 1;
      }
      SlotForIs(switches[..], vk, 0, i);
      return false;
    }

    /** `ParseNonOptionArg`: parse the argument, then add the switch. */
    method ParseNonOptionArg(usage: string, arg: string) returns (ok: bool)
      requires Valid()
      modifies switches
      ensures (ok, switches[..]) == NonOptionArg(usage, old(switches[..]), arg)
    {
      var parsed := ParseSwitchArg(usage, arg);
      if parsed == None {
        return false;
      }
      ok := AddLayoutSwitch(parsed.value.0, parsed.value.1);
    }

    /** `AppDocOptSetOption`. */
    method AppDocOptSetOption(usage: string, opt: char, val: Option<string>) returns (ok: bool)
      requires Valid()
      modifies this, switches
      ensures (ok, View()) == SetOption(usage, old(View()), opt, val)
    {
      var cmd := command;
      if opt == 0 as char {
        ok := ParseNonOptionArg(usage, ValText(val));
        return;
      } else if opt == 'l' {
        cmd := ListLayouts;
      } else if opt == 'q' {
        cmd := Quit;
      } else if opt == 'h' {
        cmd := Help;
      } else if opt == 't' {
        tapTimeout := Atoi(ValText(val)) % Pow32;
      } else {
        return false;
      }
      if Rank(cmd) > Rank(command) {
        command := cmd;
      }
      return true;
    }
  }

  /** What `main` goes on to do once the command line is parsed. */
  datatype Action = ExitWithError | StartSwitcher | StopRunningCopy | PrintLayouts | ShowUsage

  /** `main`: a parse failure ends the program with status 1 unless help was
      requested; otherwise the command decides. */
  function StartupAction(parsed: bool, command: Command): (a: Action)
    ensures a == ExitWithError <==> !parsed && command != Help
    ensures command == Help ==> a == ShowUsage
    ensures a == StartSwitcher <==> parsed && command == Run
  {
    if !parsed && command != Help then ExitWithError
    else
      match command
      case Run => StartSwitcher
      case Quit => StopRunningCopy
      case ListLayouts => PrintLayouts
      case Help => ShowUsage
  }
}
