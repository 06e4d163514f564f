/** Which applications need special copy/paste handling
    (`GetWindowSpecialHandling`). What the OS reports about the target window —
    the process image path (`OpenProcess` + `QueryFullProcessImageNameA`) and the
    window class name (`GetClassNameA`) — is a parameter, `None` when the call fails. */
module SpecialHandlingRules {
  import opened Common
  import opened KeyChord

  /** What the OS tells about the target window. */
  datatype WindowInfo = WindowInfo(imagePath: Option<string>, className: Option<string>)

  predicate IsSeparator(c: char) {
    c == '/' || c == '\\'
  }

  /** Where the file name starts: just after the last separator found at an
      index of 1 or more (the scan stops before looking at the first character). */
  function BaseStart(path: string): (b: nat)
    ensures b <= |path|
    ensures b > 0 ==> 2 <= b && IsSeparator(path[b - 1])
    ensures forall k :: 1 <= k < |path| && b <= k ==> !IsSeparator(path[k])
    decreases |path|
  {
    if |path| <= 1 then 0
    else if IsSeparator(path[|path| - 1]) then |path|
    else BaseStart(path[..|path| - 1])
  }

  /** The backward scan of `GetWindowSpecialHandling`, from the
      terminating NUL down to the first character. */
  method FindBaseName(path: string) returns (b: nat)
    ensures b == BaseStart(path)
  {
    var e := |path|;
    while e != 0 && !IsSeparator(CharAt(path, e))
      invariant 0 <= e <= |path|
      invariant forall k :: e < k < |path| ==> !IsSeparator(path[k])
      decreases e
    {
      e := e - 1;
    }
    if e != 0 {
      e := e + 1;
    }
    BaseStartIsLastSeparator(path, e);
    b := e;
  }

  /** `BaseStart` is determined by where the last separator (past index 0) is. */
  lemma {:induction false} BaseStartIsLastSeparator(path: string, b: nat)
    requires b <= |path|
    requires b > 0 ==> 2 <= b && IsSeparator(path[b - 1])
    requires forall k :: 1 <= k < |path| && b <= k ==> !IsSeparator(path[k])
    ensures BaseStart(path) == b
    decreases |path|
  {
    if |path| > 1 && !IsSeparator(path[|path| - 1]) {
      var p := path[..|path| - 1];
      BaseStartIsLastSeparator(p, b);
    }
  }

  /** The ASCII lower-casing `stricmp` compares with. */
  function ToLower(c: char): (r: char)
    ensures 'A' <= c <= 'Z' ==> 'a' <= r <= 'z'
    ensures !('A' <= c <= 'Z') ==> r == c
  {
    if 'A' <= c <= 'Z' then (c as int + 32) as char else c
  }

  /** `stricmp(a, b) == 0`. */
  predicate EqualIgnoringCase(a: string, b: string) {
    |a| == |b| && forall i :: 0 <= i < |a| ==> ToLower(a[i]) == ToLower(b[i])
  }

  /** `kExeSpecialHandling`. */
  const ExeTable: seq<(string, SpecialHandling)> :=
    [("putty.exe", Ignore), ("kitty.exe", Ignore), ("mintty.exe", CtrlInsert)]

  /** The first table entry whose name matches `exe`, ignoring case. */
  function TableLookup(exe: string, table: seq<(string, SpecialHandling)>): (r: Option<SpecialHandling>)
    ensures r == None <==> forall i :: 0 <= i < |table| ==> !EqualIgnoringCase(exe, table[i].0)
    ensures r != None ==>
      exists i :: (0 <= i < |table| && EqualIgnoringCase(exe, table[i].0) && r.value == table[i].1
        && forall k :: 0 <= k < i ==> !EqualIgnoringCase(exe, table[k].0))
    decreases |table|
  {
    if table == [] then None
    else if EqualIgnoringCase(exe, table[0].0) then Some(table[0].1)
    else
      var r := TableLookup(exe, table[1..]);
      assert forall i :: 1 <= i < |table| ==> table[i] == table[1..][i - 1];
      r
  }

  /** The class name of classic console windows. */
  const ConsoleClassName: string := "ConsoleWindowClass"

  /** What `GetWindowSpecialHandling` decides. */
  function Classify(w: WindowInfo): SpecialHandling {
    match w.imagePath
    case None => NoSpecialHandling
    case Some(path) =>
      match TableLookup(path[BaseStart(path)..], ExeTable)
      case Some(sh) => sh
      case None => if w.className == Some(ConsoleClassName) then CtrlInsert else NoSpecialHandling
  }

  /** `GetWindowSpecialHandling`: the file-name scan, then the table loop, then
      the console rule. */
  method GetWindowSpecialHandling(w: WindowInfo) returns (sh: SpecialHandling)
    ensures sh == Classify(w)
  {
    if w.imagePath == None {
      return NoSpecialHandling;
    }
    var path := w.imagePath.value;
    var b := FindBaseName(path);
    var exe := path[b..];
    var i := 0;
    while i < |ExeTable|
      invariant 0 <= i <= |ExeTable|
      invariant forall k :: 0 <= k < i ==> !EqualIgnoringCase(exe, ExeTable[k].0)
    {
      if EqualIgnoringCase(exe, ExeTable[i].0) {
        assert TableLookup(exe, ExeTable) == Some(ExeTable[i].1) by {
          TableLookupFirst(exe, ExeTable, i);
        }
        return ExeTable[i].1;
      }
      i := i + 1;
    }
    if w.className == Some(ConsoleClassName) {
      return CtrlInsert;
    }
    return NoSpecialHandling;
  }

  /** The first matching entry is the one looked up. */
  lemma {:induction false} TableLookupFirst(exe: string, table: seq<(string, SpecialHandling)>, i: nat)
    requires i < |table| && EqualIgnoringCase(exe, table[i].0)
    requires forall k :: 0 <= k < i ==> !EqualIgnoringCase(exe, table[k].0)
    ensures TableLookup(exe, table) == Some(table[i].1)
    decreases i
  {
    if i > 0 {
      TableLookupFirst(exe, table[1..], i - 1);
    }
  }

  /** The rules, stated on the file name: PuTTY and KiTTY are ignored whatever
      their window class; mintty, and any other program showing a classic console
      window, gets Ctrl/Shift+Insert; everything else, and any window whose
      process cannot be queried, is handled normally. */
  lemma ClassifyRules(w: WindowInfo)
    ensures var exe := if w.imagePath == None then "" else w.imagePath.value[BaseStart(w.imagePath.value)..];
      var table := w.imagePath != None
        && (EqualIgnoringCase(exe, "putty.exe") || EqualIgnoringCase(exe, "kitty.exe")
            || EqualIgnoringCase(exe, "mintty.exe"));
      && (Classify(w) == Ignore <==>
            w.imagePath != None && (EqualIgnoringCase(exe, "putty.exe") || EqualIgnoringCase(exe, "kitty.exe")))
      && (Classify(w) == CtrlInsert <==>
            w.imagePath != None && (EqualIgnoringCase(exe, "mintty.exe")
              || (!table && w.className == Some(ConsoleClassName))))
  {
    if w.imagePath != None {
      var path := w.imagePath.value;
      var exe := path[BaseStart(path)..];
      var r := TableLookup(exe, ExeTable);
      assert ExeTable[0].0 == "putty.exe" && ExeTable[1].0 == "kitty.exe" && ExeTable[2].0 == "mintty.exe";
      if EqualIgnoringCase(exe, "putty.exe") {
        assert r == Some(Ignore);
      } else if EqualIgnoringCase(exe, "kitty.exe") {
        assert r == Some(Ignore);
      } else if EqualIgnoringCase(exe, "mintty.exe") {
        assert r == Some(CtrlInsert);
      } else {
        assert r == None;
      }
    }
  }

  /** A PuTTY window is ignored, whatever its directory and whatever the case
      of its file name. */
  lemma PuttyIsIgnored(dir: string, name: string, cls: Option<string>)
    requires |dir| >= 2 && IsSeparator(dir[|dir| - 1])
    requires EqualIgnoringCase(name, "putty.exe")
    ensures Classify(WindowInfo(Some(dir + name), cls)) == Ignore
  {
    var path := dir + name;
    assert BaseStart(path) == |dir| by {
      forall k | |dir| <= k < |path|
        ensures !IsSeparator(path[k])
      {
        assert path[k] == name[k - |dir|];
        assert ToLower(name[k - |dir|]) == ToLower("putty.exe"[k - |dir|]);
      }
      BaseStartIsLastSeparator(path, |dir|);
    }
    assert path[|dir|..] == name;
    assert TableLookup(name, ExeTable) == Some(Ignore) by {
      TableLookupFirst(name, ExeTable, 0);
    }
  }
}
