/** Types and constants shared by every part of the keyboard-layout switcher model:
    32-bit unsigned timestamps, UTF-16 code units, virtual-key codes, layout handles
    with their three sentinel values, and the table sizes. */
module Common {

  datatype Option<+T> = None | Some(value: T)

  /** 2^32: the modulus of the Win32 `DWORD` / C `unsigned` arithmetic. */
  const Pow32: int := 0x1_0000_0000

  /** A Win32 `DWORD` (also used for C `unsigned`): 32 bits, wraps around. */
  type Dword = x: int | 0 <= x < 0x1_0000_0000

  /** `a - b` on `DWORD`s: unsigned subtraction modulo 2^32. */
  function Sub32(a: Dword, b: Dword): (r: Dword)
    ensures a >= b ==> r == a - b
    ensures a < b ==> r == a - b + Pow32
  {
    (a - b) % Pow32
  }

  /** `++x` on a `DWORD`: wraps from 2^32-1 to 0. */
  function Inc32(a: Dword): (r: Dword)
    ensures a + 1 < Pow32 ==> r == a + 1
    ensures a + 1 == Pow32 ==> r == 0
  {
    (a + 1) % Pow32
  }

  /** A `WCHAR`: one UTF-16 code unit. */
  type Unit = x: int | 0 <= x < 0x1_0000

  /** A virtual-key code (`VKEY` is `unsigned`); 0 marks an empty slot. */
  type Vkey = nat

  /** A keyboard layout handle (`HKL`). Real layouts are any value other than
      the four below. */
  type Hkl = int

  const HklNull: Hkl := 0
  const HklAutoAssign: Hkl := -1
  const HklHexToUnicode: Hkl := -2
  const HklUnicodeToHex: Hkl := -3

  predicate IsRealLayout(h: Hkl) {
    h != HklNull && h != HklAutoAssign && h != HklHexToUnicode && h != HklUnicodeToHex
  }

  /** Number of switch slots (`HOOK_MAX_SWITCHES`, `MAX_SWITCHES`). */
  const MaxSwitches: nat := 8
  /** Capacity of the installed-layout buffer (`MAX_KEYBOARD_LAYOUTS`). */
  const MaxKeyboardLayouts: nat := 8

  // Win32 virtual-key codes used by the program
  const VK_SHIFT: Vkey := 0x10
  const VK_CONTROL: Vkey := 0x11
  const VK_CAPITAL: Vkey := 0x14
  const VK_INSERT: Vkey := 0x2D
  const VK_C: Vkey := 0x43
  const VK_V: Vkey := 0x56
  const VK_LWIN: Vkey := 0x5B
  const VK_RWIN: Vkey := 0x5C
  const VK_NUMLOCK: Vkey := 0x90
  const VK_SCROLL: Vkey := 0x91
  const VK_LSHIFT: Vkey := 0xA0
  const VK_RSHIFT: Vkey := 0xA1
  const VK_LCONTROL: Vkey := 0xA2
  const VK_RCONTROL: Vkey := 0xA3
  const VK_LMENU: Vkey := 0xA4
  const VK_RMENU: Vkey := 0xA5

  /** The fixed list of modifier keys, in the order the program scans them
      (`kModifierKeys` in the hook, `kModifierVKeys` without its 0 terminator). */
  const ModifierVKeys: seq<Vkey> :=
    [VK_LSHIFT, VK_LCONTROL, VK_LMENU, VK_LWIN, VK_RSHIFT, VK_RCONTROL, VK_RMENU, VK_RWIN]

  /** Reading a C string at index `i`: past the end it reads the terminating NUL. */
  function CharAt(s: string, i: int): char {
    if 0 <= i < |s| then s[i] else '\0'
  }

  /** The same for a wide (`WCHAR`) string. */
  function UnitAt(s: seq<Unit>, i: int): Unit {
    if 0 <= i < |s| then s[i] else 0
  }

  /** `if( cmd > command ) command = cmd`: the higher-ranked of the current
      value and a requested one, the current one on a tie. */
  function Raise<C>(rank: C -> nat, current: C, requested: C): (c: C)
    ensures rank(c) >= rank(current) && rank(c) >= rank(requested)
    ensures c == current || c == requested
    ensures rank(requested) <= rank(current) ==> c == current
  {
    if rank(requested) > rank(current) then requested else current
  }
}
