/** The parts of the help-text driven command-line parser (`docopt.c`) that
    only read the help text: the option lines it enumerates, how one argument
    is matched against one option line, and the keyword search over lines.
    Strings carry no embedded NUL; a read at or past the end sees the
    terminating NUL (`CharAt`). */
module Docopt {
  import opened Common
  import opened CLib

  /** A character that ends a long option name (`strcspn(longopt, "= \t\n")`). */
  predicate EndsLongName(c: char) {
    c == '=' || c == ' ' || c == '\t' || c == '\n'
  }

  predicate InLongName(c: char) {
    !EndsLongName(c)
  }

  /** `LongOptLength`: the length of the name at the start of `s`, or 0 when
      that name runs to the end of its line or of the text. */
  function LongOptLength(s: string): (n: nat)
    ensures n > 0 ==> n < |s| && (s[n] == '=' || s[n] == ' ' || s[n] == '\t')
    ensures forall k :: 0 <= k < n ==> InLongName(s[k])
    ensures (exists m :: 0 < m < |s| && (s[m] == '=' || s[m] == ' ' || s[m] == '\t')
                         && forall k :: 0 <= k < m ==> InLongName(s[k])) ==> n > 0
  {
    var len := RunLength(s, 0, InLongName);
    if len < |s| && s[len] != '\n' then len else 0
  }

  /** What `IterDocOpt` hands its callback for one option line: the option
      character, the long name (empty when there is none), whether the long
      name is followed by `=`, and the text after that `=` (the default value,
      running to the end of the help text). */
  datatype Entry = Entry(opt: char, longName: string, hasValue: bool, defaultText: string)

  /** The option line whose `\n-` starts at `p`. */
  function EntryAt(doc: string, p: nat): (e: Entry)
    requires OccursAt(doc, "\n-", p)
    ensures e.opt == CharAt(doc, p + 2)
    ensures e.longName != [] ==>
      p + 6 + |e.longName| < |doc| && doc[p + 3..p + 6] == " --"
      && doc[p + 6..p + 6 + |e.longName|] == e.longName
    ensures e.hasValue <==> e.longName != [] && doc[p + 6 + |e.longName|] == '='
    ensures e.hasValue ==> e.defaultText == doc[p + 7 + |e.longName|..]
  {
    var q := p + 2;
    var hasLong := CharAt(doc, q + 1) == ' ' && CharAt(doc, q + 2) == '-' && CharAt(doc, q + 3) == '-';
    var len := if hasLong then LongOptLength(doc[q + 4..]) else 0;
    var hasValue := len > 0 && doc[q + 4 + len] == '=';
    Entry(CharAt(doc, q), if len > 0 then doc[q + 4..q + 4 + len] else [], hasValue,
          if hasValue then doc[q + 5 + len..] else [])
  }

  /** Where the `\n-` of the option lines visited from `from` on start: each
      search resumes just after the `\n-` found. */
  function EntryPositions(doc: string, from: nat): (ps: seq<nat>)
    requires from <= |doc|
    ensures forall i :: 0 <= i < |ps| ==> from <= ps[i] && OccursAt(doc, "\n-", ps[i])
    decreases |doc| - from
  {
    match StrStr(doc, "\n-", from)
    case None => []
    case Some(p) => [p] + EntryPositions(doc, p + 2)
  }

  /** Every `\n-` of the help text from `from` on is visited. */
  lemma EntryPositionsComplete(doc: string, from: nat)
    requires from <= |doc|
    ensures forall p :: p in EntryPositions(doc, from) <==> from <= p && OccursAt(doc, "\n-", p)
  {
    forall q: nat | from <= q && OccursAt(doc, "\n-", q)
      ensures q in EntryPositions(doc, from)
    {
      EntryPositionVisited(doc, from, q);
    }
  }

  /** The `\n-` at `q` is visited by a scan from any `from` up to `q`. */
  lemma {:induction false} EntryPositionVisited(doc: string, from: nat, q: nat)
    requires from <= q && OccursAt(doc, "\n-", q)
    ensures q in EntryPositions(doc, from)
    decreases q - from
  {
    StrStrIsFirst(doc, "\n-", from, q);
    var p := StrStr(doc, "\n-", from).value;
    EntryPositionsStep(doc, from);
    if q != p {
      NoSelfOverlap(doc, "\n-", p, q);
      EntryPositionVisited(doc, p + 2, q);
    }
  }

  /** The scan from `from` is the next `\n-`, then the scan after it. */
  lemma EntryPositionsStep(doc: string, from: nat)
    requires from <= |doc|
    ensures StrStr(doc, "\n-", from).None? ==> EntryPositions(doc, from) == []
    ensures StrStr(doc, "\n-", from).Some? ==>
      var p := StrStr(doc, "\n-", from).value;
      EntryPositions(doc, from) == [p] + EntryPositions(doc, p + 2)
  {
  }

  /** The `\n-` are visited in increasing order. */
  lemma {:induction false} EntryPositionsIncreasing(doc: string, from: nat)
    requires from <= |doc|
    ensures forall i, j :: 0 <= i < j < |EntryPositions(doc, from)| ==>
      EntryPositions(doc, from)[i] < EntryPositions(doc, from)[j]
    decreases |doc| - from
  {
    match StrStr(doc, "\n-", from)
    case None =>
    case Some(p) =>
      EntryPositionsIncreasing(doc, p + 2);
      var rest := EntryPositions(doc, p + 2);
      assert EntryPositions(doc, from) == [p] + rest;
  }

  /** The characters of an occurrence are those of the pattern. */
  lemma OccursAtChar(doc: string, pat: string, i: nat, k: nat)
    requires OccursAt(doc, pat, i) && k < |pat|
    ensures doc[i + k] == pat[k]
  {
    assert doc[i..i + |pat|][k] == doc[i + k];
  }

  /** How one argument fares against one option line. */
  datatype ArgMatch =
    | NoMatch                            // `DOCOPT_NO_MATCH`
    | Malformed                          // `DOCOPT_ERROR` before the option is set
    | Matched(value: Option<string>)     // the option and its value, if any

  /** `--name` or `--name=value`: the name and the value. */
  function SplitLong(key: string): (r: (string, Option<string>))
    ensures r.1 == None ==> r.0 == key && forall k :: 0 <= k < |key| ==> key[k] != '='
    ensures r.1 != None ==> key == r.0 + "=" + r.1.value && forall k :: 0 <= k < |r.0| ==> r.0[k] != '='
  {
    match StrChr(key, '=', 0)
    case None => (key, None)
    case Some(eq) =>
      assert key == key[..eq] + "=" + key[eq + 1..];
      (key[..eq], Some(key[eq + 1..]))
  }

  /** The matching part of `ParseArgumentCallback`, before the option is set. */
  function MatchArgument(e: Entry, arg: string): (r: ArgMatch)
    ensures CharAt(arg, 0) != '-' ==> r == Malformed
    ensures r.Matched? ==> (r.value != None <==> e.hasValue)
    ensures r.Matched? && CharAt(arg, 1) == '-' ==>
      SplitLong(arg[2..]) == (e.longName, r.value)
    ensures r.Matched? && CharAt(arg, 1) != '-' ==>
      CharAt(arg, 1) == e.opt && r.value == (if |arg| > 2 then Some(arg[2..]) else None)
  {
    if CharAt(arg, 0) != '-' then Malformed
    else
      var (matches, value) :=
        if CharAt(arg, 1) == '-' then
          var (name, v) := SplitLong(arg[2..]);
          (name == e.longName, v)
        else
          var m := CharAt(arg, 1) == e.opt;
          (m, if m && |arg| > 2 then Some(arg[2..]) else None);
      if !matches then NoMatch
      else if (value != None) != e.hasValue then Malformed
      else Matched(value)
  }

  /** `--name=value` and `-xvalue` mean the same for an option with a value,
      `--name` and `-x` for one without. */
  lemma LongAndShortFormsAgree(e: Entry, v: string)
    requires e.longName != [] && e.opt != '-' && e.opt != 0 as char
    requires forall k :: 0 <= k < |e.longName| ==> e.longName[k] != '='
    requires e.hasValue ==> v != []
    ensures var long := "--" + e.longName + (if e.hasValue then "=" + v else "");
      var short := ['-', e.opt] + (if e.hasValue then v else "");
      var expected := if e.hasValue then Some(v) else None;
      MatchArgument(e, long) == Matched(expected) && MatchArgument(e, short) == Matched(expected)
  {
    var long := "--" + e.longName + (if e.hasValue then "=" + v else "");
    var key := long[2..];
    assert CharAt(long, 0) == '-' && CharAt(long, 1) == '-';
    if e.hasValue {
      assert key == e.longName + "=" + v;
      var r := StrChr(key, '=', 0);
      assert key[|e.longName|] == '=';
      assert r == Some(|e.longName|);
      assert key[..|e.longName|] == e.longName;
      assert key[|e.longName| + 1..] == v;
    } else {
      assert key == e.longName;
    }
    var short := ['-', e.opt] + (if e.hasValue then v else "");
    assert CharAt(short, 0) == '-' && CharAt(short, 1) == e.opt;
    if e.hasValue {
      assert short[2..] == v;
    }
  }

  /** Where the line starting at `start` ends: its `\n`, or the end of the text. */
  function LineEnd(doc: string, start: nat): (e: nat)
    requires start <= |doc|
    ensures start <= e <= |doc| && (e < |doc| ==> doc[e] == '\n')
    ensures forall k :: start <= k < e ==> doc[k] != '\n'
  {
    match StrChr(doc, '\n', start)
    case Some(nl) => nl
    case None => |doc|
  }

  /** `kw` occurs at `i` with white space on both sides (the character after it
      may be the terminating NUL, which is not white space). */
  predicate WordAt(doc: string, kw: string, i: nat) {
    1 <= i && i + |kw| <= |doc| && IsSpace(doc[i - 1]) && OccursAt(doc, kw, i) && IsSpace(CharAt(doc, i + |kw|))
  }

  /** The line starting at `start` holds `kw` as a white-space delimited word;
      the character just before `start` (the end of the prefix) counts as the
      space before it. */
  predicate LineHasWord(doc: string, start: nat, kw: string)
    requires start <= |doc|
  {
    WordIn(doc, kw, start, LineEnd(doc, start))
  }

  /** `kw` is a delimited word at some position from `i` on, ending by `e`. */
  predicate WordIn(doc: string, kw: string, i: nat, e: nat)
    decreases e - i
  {
    i + |kw| <= e && (WordAt(doc, kw, i) || WordIn(doc, kw, i + 1, e))
  }

  lemma {:induction false} WordInMeans(doc: string, kw: string, i: nat, e: nat)
    ensures WordIn(doc, kw, i, e) <==> exists j :: i <= j && j + |kw| <= e && WordAt(doc, kw, j)
    decreases e - i
  {
    if i + |kw| <= e {
      WordInMeans(doc, kw, i + 1, e);
      if exists j :: i <= j && j + |kw| <= e && WordAt(doc, kw, j) {
        var j :| i <= j && j + |kw| <= e && WordAt(doc, kw, j);
        assert j == i || (i + 1 <= j && j + |kw| <= e && WordAt(doc, kw, j));
      }
    }
  }

  /** The search of `DocOptFindLineWithWord` with the test applied to each
      line left open: the start (after `prefix`) of the first line from
      `from` on that starts with `prefix` and passes `holds`. */
  function SearchLines(doc: string, prefix: string, holds: nat -> bool, from: nat): (r: Option<nat>)
    requires prefix != [] && from <= |doc|
    ensures r.Some? ==> from + |prefix| <= r.value <= |doc|
    decreases |doc| - from
  {
    match StrStr(doc, prefix, from)
    case None => None
    case Some(p) =>
      var start := p + |prefix|;
      if holds(start) then Some(start) else SearchLines(doc, prefix, holds, start)
  }

  /** The test `DocOptFindLineWithWord` applies to a line. */
  function HoldsWord(doc: string, kw: string): (nat -> bool) {
    (start: nat) => start <= |doc| && LineHasWord(doc, start, kw)
  }

  /** What `DocOptFindLineWithWord` returns, searching from `from`: the start
      (after `prefix`) of the first visited line holding the word. */
  function FindLine(doc: string, prefix: string, kw: string, from: nat): (r: Option<nat>)
    requires prefix != [] && from <= |doc|
    ensures r.Some? ==> from + |prefix| <= r.value <= |doc|
  {
    SearchLines(doc, prefix, HoldsWord(doc, kw), from)
  }

  /** The line the search returns starts with the prefix and passes the test. */
  lemma {:induction false} SearchLinesFound(doc: string, prefix: string, holds: nat -> bool, from: nat)
    requires prefix != [] && from <= |doc|
    ensures var r := SearchLines(doc, prefix, holds, from);
      r.Some? ==> OccursAt(doc, prefix, r.value - |prefix|) && holds(r.value)
    decreases |doc| - from
  {
    match StrStr(doc, prefix, from)
    case None =>
    case Some(p) =>
      var start := p + |prefix|;
      if holds(start) {
        assert OccursAt(doc, prefix, p);
        assert SearchLines(doc, prefix, holds, from) == Some(start);
        assert start - |prefix| == p;
      } else {
        assert SearchLines(doc, prefix, holds, from) == SearchLines(doc, prefix, holds, start);
        SearchLinesFound(doc, prefix, holds, start);
      }
  }

  /** The line `FindLine` returns starts with the prefix and holds the word. */
  lemma FindLineFound(doc: string, prefix: string, kw: string)
    requires prefix != []
    ensures var r := FindLine(doc, prefix, kw, 0);
      r.Some? ==> OccursAt(doc, prefix, r.value - |prefix|) && LineHasWord(doc, r.value, kw)
  {
    SearchLinesFound(doc, prefix, HoldsWord(doc, kw), 0);
  }

  /** A prefix that is a line break followed by text with no line break (like
      the indentation of the key lines) never overlaps itself. */
  predicate LinePrefix(prefix: string) {
    prefix != [] && prefix[0] == '\n' && forall k :: 1 <= k < |prefix| ==> prefix[k] != '\n'
  }

  /** A line starting with the prefix that fails the test is passed over. */
  lemma SearchLinesSkip(doc: string, prefix: string, holds: nat -> bool, from: nat, p0: nat)
    requires prefix != [] && from <= |doc| && StrStr(doc, prefix, from) == Some(p0)
    requires !holds(p0 + |prefix|)
    ensures SearchLines(doc, prefix, holds, from) == SearchLines(doc, prefix, holds, p0 + |prefix|)
  {
    match StrStr(doc, prefix, from)
    case Some(p) =>
      assert p == p0;
  }

  /** For such a prefix, no line starting with the prefix before the one the
      search returns (or anywhere, when it returns nothing) passes the test. */
  lemma {:induction false} SearchLinesIsFirst(doc: string, prefix: string, holds: nat -> bool, from: nat, p: nat)
    requires LinePrefix(prefix) && from <= p && OccursAt(doc, prefix, p)
    requires var r := SearchLines(doc, prefix, holds, from); r.None? || p + |prefix| < r.value
    ensures !holds(p + |prefix|)
    decreases |doc| - from
  {
    var found := StrStr(doc, prefix, from);
    StrStrIsFirst(doc, prefix, from, p);
    var p0 := found.value;
    if p != p0 {
      var start := p0 + |prefix|;
      NoSelfOverlap(doc, prefix, p0, p);
      assert !holds(start);
      SearchLinesSkip(doc, prefix, holds, from, p0);
      SearchLinesIsFirst(doc, prefix, holds, start, p);
    }
  }

  /** For such a prefix, no line starting with the prefix before the one
      `DocOptFindLineWithWord` returns (or anywhere, when it returns nothing)
      holds the word. */
  lemma FindLineIsFirst(doc: string, prefix: string, kw: string, p: nat)
    requires LinePrefix(prefix) && OccursAt(doc, prefix, p)
    requires var r := FindLine(doc, prefix, kw, 0); r.None? || p + |prefix| < r.value
    ensures !LineHasWord(doc, p + |prefix|, kw)
  {
    SearchLinesIsFirst(doc, prefix, HoldsWord(doc, kw), 0, p);
    assert !HoldsWord(doc, kw)(p + |prefix|);
  }

  /** The line `DocOptFindLineWithWord` returns holds the word, and no line
      before it that starts with the prefix does. */
  lemma FindLineFirstHolding(doc: string, prefix: string, kw: string)
    requires LinePrefix(prefix)
    ensures var r := FindLine(doc, prefix, kw, 0);
      r.Some? ==> (LineHasWord(doc, r.value, kw)
        && forall p: nat :: OccursAt(doc, prefix, p) && p + |prefix| < r.value ==>
             !LineHasWord(doc, p + |prefix|, kw))
  {
    var r := FindLine(doc, prefix, kw, 0);
    FindLineFound(doc, prefix, kw);
    if r.Some? {
      forall p: nat | OccursAt(doc, prefix, p) && p + |prefix| < r.value
        ensures !LineHasWord(doc, p + |prefix|, kw)
      {
        FindLineIsFirst(doc, prefix, kw, p);
      }
    }
  }

  /** For such a prefix, `DocOptFindLineWithWord` returns nothing exactly when
      no line starting with the prefix holds the word. */
  lemma FindLineNone(doc: string, prefix: string, kw: string)
    requires LinePrefix(prefix)
    ensures FindLine(doc, prefix, kw, 0).None? <==>
      forall p: nat :: OccursAt(doc, prefix, p) ==> !LineHasWord(doc, p + |prefix|, kw)
  {
    if FindLine(doc, prefix, kw, 0).None? {
      forall p: nat | OccursAt(doc, prefix, p)
        ensures !LineHasWord(doc, p + |prefix|, kw)
      {
        FindLineIsFirst(doc, prefix, kw, p);
      }
    } else {
      FindLineFound(doc, prefix, kw);
      var start := FindLine(doc, prefix, kw, 0).value;
      var p: nat := start - |prefix|;
      assert OccursAt(doc, prefix, p) && LineHasWord(doc, p + |prefix|, kw);
    }
  }

  /** Two occurrences of a line prefix cannot overlap. */
  lemma NoSelfOverlap(doc: string, prefix: string, p0: nat, p: nat)
    requires LinePrefix(prefix) && OccursAt(doc, prefix, p0) && OccursAt(doc, prefix, p)
    requires p0 < p
    ensures p0 + |prefix| <= p
  {
    if p < p0 + |prefix| {
      OccursAtChar(doc, prefix, p0, p - p0);
      assert false;
    }
  }

  /** With an empty keyword, a line "holds" it wherever two white-space
      characters are adjacent (the end of the prefix counting as one). */
  lemma EmptyKeywordMatchesAdjacentSpaces(doc: string, start: nat)
    requires 1 <= start <= |doc|
    ensures LineHasWord(doc, start, "") <==>
      exists i :: start <= i <= LineEnd(doc, start) && IsSpace(doc[i - 1]) && IsSpace(CharAt(doc, i))
  {
    WordInMeans(doc, "", start, LineEnd(doc, start));
    if exists i :: start <= i <= LineEnd(doc, start) && IsSpace(doc[i - 1]) && IsSpace(CharAt(doc, i)) {
      var i :| start <= i <= LineEnd(doc, start) && IsSpace(doc[i - 1]) && IsSpace(CharAt(doc, i));
      assert OccursAt(doc, "", i);
      assert WordAt(doc, "", i);
    }
  }

  /** The inner loop of `DocOptFindLineWithWord`: every position of the line
      where the keyword fits. */
  method ScanLine(doc: string, kw: string, start: nat) returns (found: bool)
    requires 1 <= start <= |doc|
    ensures found == LineHasWord(doc, start, kw)
  {
    var lineLen := LineEnd(doc, start) - start;
    if lineLen < |kw| {
      return false;
    }
    var i := 0;
    while i <= lineLen - |kw|
      invariant i <= lineLen - |kw| + 1
      invariant LineHasWord(doc, start, kw) == WordIn(doc, kw, start + i, start + lineLen)
    {
      if IsSpace(doc[start + i - 1]) && doc[start + i..start + i + |kw|] == kw
         && IsSpace(CharAt(doc, start + i + |kw|)) {
        assert WordAt(doc, kw, start + i);
        return true;
      }
      i := i + 1;
    }
    return false;
  }

  /** One round of the outer loop of `DocOptFindLineWithWord`: the next line
      starting with `prefix` after `pos`, and whether it holds the keyword. */
  method NextLine(doc: string, prefix: string, kw: string, pos: nat)
    returns (done: bool, r: Option<nat>, next: nat)
    requires prefix != [] && pos <= |doc|
    ensures done ==> r == FindLine(doc, prefix, kw, pos)
    ensures !done ==> pos < next <= |doc| && FindLine(doc, prefix, kw, next) == FindLine(doc, prefix, kw, pos)
  {
    var found := StrStr(doc, prefix, pos);
    if found == None {
      return true, None, pos;
    }
    var start := found.value + |prefix|;
    var hit := ScanLine(doc, kw, start);
    assert HoldsWord(doc, kw)(start) == hit;
    if hit {
      return true, Some(start), start;
    }
    return false, None, start;
  }

  /** `DocOptFindLineWithWord`: every line starting with `prefix`, in order,
      until one holds the keyword. */
  method FindLineWithWord(doc: string, prefix: string, kw: string) returns (r: Option<nat>)
    requires prefix != []
    ensures r == FindLine(doc, prefix, kw, 0)
  {
    var pos := 0;
    while true
      invariant pos <= |doc|
      invariant FindLine(doc, prefix, kw, 0) == FindLine(doc, prefix, kw, pos)
      decreases |doc| - pos
    {
      var done, found, next := NextLine(doc, prefix, kw, pos);
      if done {
        return found;
      }
      pos := next;
    }
  }
}
