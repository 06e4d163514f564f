/** The command-line driver of `docopt.c` (`IterDocOpt`, its two callbacks and
    `DocOptParseCommandLine`), calling the option setter of the earlier `kbsw.c`
    whose parser it is. The help text is both the syntax the arguments are
    parsed with and the text the key names are looked up in. */
module DocoptParse {
  import opened Common
  import opened CLib
  import opened Docopt
  import opened KbswEarly

  /** Which callback `IterDocOpt` runs on every option line. */
  datatype Callback = SetDefaults | ParseArgument

  /** `DOCOPT_MATCH`: the argument was taken by an option line. */
  const DocoptMatch: int := 1
  /** `DOCOPT_ERROR`. */
  const DocoptError: int := -1

  /** The application's option setter (`AppDocOptSetOption`) over option
      values of type `O`: whether it accepted, and the new options. */
  type Setter<!O> = (O, char, Option<string>) -> (bool, O)

  /** The setter of the earlier `kbsw.c`, reading key names from `doc`. */
  function KbswSetter(doc: string): Setter<OptionsView> {
    (v, opt, val) => SetOption(doc, v, opt, val)
  }

  /** `SetDefaultsCallback`: an option with a value is set from the text after
      its `=`; 1 if the setter rejects it. */
  function DefaultsCallback<O>(setter: Setter<O>, v: O, e: Entry): (r: (int, O))
    ensures !e.hasValue ==> r == (0, v)
    ensures r.0 == 0 || r.0 == 1
  {
    if !e.hasValue then (0, v)
    else
      var (ok, v') := setter(v, e.opt, Some(e.defaultText));
      (if ok then 0 else 1, v')
  }

  /** `ParseArgumentCallback`: `DOCOPT_NO_MATCH` (0) for another option's
      argument, `DOCOPT_ERROR` when the value presence is wrong or the setter
      rejects it, `DOCOPT_MATCH` once the option is set. */
  function ArgumentCallback<O>(setter: Setter<O>, v: O, e: Entry, arg: string): (r: (int, O))
    ensures r.0 == 0 <==> MatchArgument(e, arg) == NoMatch
    ensures r.0 == DocoptMatch ==>
      MatchArgument(e, arg).Matched? && setter(v, e.opt, MatchArgument(e, arg).value) == (true, r.1)
    ensures r.0 != DocoptMatch ==> r.0 == 0 || r.0 == DocoptError
  {
    match MatchArgument(e, arg)
    case NoMatch => (0, v)
    case Malformed => (DocoptError, v)
    case Matched(val) =>
      var (ok, v') := setter(v, e.opt, val);
      (if ok then DocoptMatch else DocoptError, v')
  }

  function RunCallback<O>(cb: Callback, setter: Setter<O>, v: O, e: Entry, arg: string): (int, O) {
    match cb
    case SetDefaults => DefaultsCallback(setter, v, e)
    case ParseArgument => ArgumentCallback(setter, v, e, arg)
  }

  /** The option lines at positions `ps`, parsed. */
  function EntriesAt(doc: string, ps: seq<nat>): (es: seq<Entry>)
    requires forall i :: 0 <= i < |ps| ==> OccursAt(doc, "\n-", ps[i])
    ensures |es| == |ps|
    decreases |ps|
  {
    if ps == [] then [] else [EntryAt(doc, ps[0])] + EntriesAt(doc, ps[1..])
  }

  /** The `i`-th entry is the line at the `i`-th position. */
  lemma {:induction false} EntriesAtMeans(doc: string, ps: seq<nat>)
    requires forall i :: 0 <= i < |ps| ==> OccursAt(doc, "\n-", ps[i])
    ensures forall i :: 0 <= i < |ps| ==> EntriesAt(doc, ps)[i] == EntryAt(doc, ps[i])
    decreases |ps|
  {
    if ps != [] {
      EntriesAtMeans(doc, ps[1..]);
      assert forall i :: 1 <= i < |ps| ==> ps[i] == ps[1..][i - 1];
    }
  }

  /** Parsing a line in front of the others. */
  lemma EntriesAtCons(doc: string, p: nat, ps: seq<nat>)
    requires OccursAt(doc, "\n-", p) && forall i :: 0 <= i < |ps| ==> OccursAt(doc, "\n-", ps[i])
    ensures EntriesAt(doc, [p] + ps) == [EntryAt(doc, p)] + EntriesAt(doc, ps)
  {
    assert ([p] + ps)[1..] == ps;
  }

  /** The option lines from `pos` on: none when no `\n-` follows, else the
      next one in front of those after it. */
  lemma EntriesFromStep(doc: string, pos: nat)
    requires pos <= |doc|
    ensures StrStr(doc, "\n-", pos).None? ==> EntriesAt(doc, EntryPositions(doc, pos)) == []
    ensures StrStr(doc, "\n-", pos).Some? ==>
      var p := StrStr(doc, "\n-", pos).value;
      EntriesAt(doc, EntryPositions(doc, pos)) == [EntryAt(doc, p)] + EntriesAt(doc, EntryPositions(doc, p + 2))
  {
    var found := StrStr(doc, "\n-", pos);
    if found.Some? {
      var p := found.value;
      var rest := EntryPositions(doc, p + 2);
      EntryPositionsStep(doc, pos);
      EntriesAtCons(doc, p, rest);
    }
  }

  /** Every option line of the help text, in order. */
  function DocEntries(doc: string): (es: seq<Entry>) {
    EntriesAt(doc, EntryPositions(doc, 0))
  }

  /** What `IterDocOpt` does over the option lines `es`: the callback on each
      in turn, until one returns something other than 0. */
  function Iterate<O>(es: seq<Entry>, cb: Callback, arg: string, setter: Setter<O>, v: O): (r: (int, O))
    decreases |es|
  {
    if es == [] then (0, v)
    else
      var (rc, v') := RunCallback(cb, setter, v, es[0], arg);
      if rc != 0 then (rc, v') else Iterate(es[1..], cb, arg, setter, v')
  }

  /** The first of the option lines `es` that `arg` matches at all (correctly
      or not); `|es|` when none does. */
  function FirstMatch(es: seq<Entry>, arg: string): (i: nat)
    ensures i <= |es|
    ensures forall k :: 0 <= k < i ==> MatchArgument(es[k], arg) == NoMatch
    ensures i < |es| ==> MatchArgument(es[i], arg) != NoMatch
    decreases |es|
  {
    if es == [] then 0
    else if MatchArgument(es[0], arg) != NoMatch then 0
    else
      var i := FirstMatch(es[1..], arg);
      assert forall k :: 1 <= k < i + 1 ==> es[k] == es[1..][k - 1];
      i + 1
  }

  /** An argument is decided by the first option line it matches: no line
      matching leaves `DOCOPT_NO_MATCH` and the options as they were;
      otherwise the result is that line's callback alone. */
  lemma {:induction false} IterateTakesFirstMatch<O>(es: seq<Entry>, arg: string, setter: Setter<O>, v: O)
    ensures var i := FirstMatch(es, arg);
      Iterate(es, ParseArgument, arg, setter, v)
        == if i == |es| then (0, v) else ArgumentCallback(setter, v, es[i], arg)
    decreases |es|
  {
    if es != [] && MatchArgument(es[0], arg) == NoMatch {
      var tail := es[1..];
      IterateTakesFirstMatch(tail, arg, setter, v);
      var f := FirstMatch(tail, arg);
      if f < |tail| {
        assert es[f + 1] == tail[f];
      }
    }
  }

  /** Hence an argument is taken (`DOCOPT_MATCH`) exactly when the first line
      it matches matches it well and the setter accepts the value; an
      argument no line matches comes back as `DOCOPT_NO_MATCH` with nothing
      changed. */
  lemma ArgumentTaken<O>(es: seq<Entry>, arg: string, setter: Setter<O>, v: O)
    ensures var i := FirstMatch(es, arg);
      var (rc, v') := Iterate(es, ParseArgument, arg, setter, v);
      (rc == DocoptMatch <==> (i < |es| && MatchArgument(es[i], arg).Matched?
        && setter(v, es[i].opt, MatchArgument(es[i], arg).value).0))
      && (rc == DocoptMatch ==> setter(v, es[i].opt, MatchArgument(es[i], arg).value) == (true, v'))
      && (rc == 0 <==> i == |es|)
      && (rc == 0 ==> v' == v)
  {
    IterateTakesFirstMatch(es, arg, setter, v);
  }

  /** Defaults: a rejected default stops the iteration with 1; a help text
      without any option taking a value leaves the options as they were. */
  lemma {:induction false} DefaultsAllOrFail<O>(es: seq<Entry>, setter: Setter<O>, v: O)
    ensures var (rc, v') := Iterate(es, SetDefaults, [], setter, v);
      (rc == 0 || rc == 1)
      && ((forall i :: 0 <= i < |es| ==> !es[i].hasValue) ==> rc == 0 && v' == v)
    decreases |es|
  {
    if es != [] {
      var (rc0, v0) := DefaultsCallback(setter, v, es[0]);
      if rc0 == 0 {
        DefaultsAllOrFail(es[1..], setter, v0);
        assert forall i :: 1 <= i < |es| ==> es[i] == es[1..][i - 1];
      }
    }
  }

  /** Every default is handed to the setter in order: when all are accepted,
      the options are those the setter builds from them one after the other. */
  function ApplyDefaults<O>(es: seq<Entry>, setter: Setter<O>, v: O): (r: Option<O>)
    decreases |es|
  {
    if es == [] then Some(v)
    else if !es[0].hasValue then ApplyDefaults(es[1..], setter, v)
    else
      var (ok, v') := setter(v, es[0].opt, Some(es[0].defaultText));
      if ok then ApplyDefaults(es[1..], setter, v') else None
  }

  /** The defaults pass succeeds exactly when every default is accepted, and
      then leaves the options every default has been applied to. */
  lemma {:induction false} DefaultsApplied<O>(es: seq<Entry>, setter: Setter<O>, v: O)
    ensures var (rc, v') := Iterate(es, SetDefaults, [], setter, v);
      (rc == 0 <==> ApplyDefaults(es, setter, v).Some?)
      && (rc == 0 ==> ApplyDefaults(es, setter, v) == Some(v'))
    decreases |es|
  {
    if es != [] {
      var (rc0, v0) := DefaultsCallback(setter, v, es[0]);
      if rc0 == 0 {
        DefaultsApplied(es[1..], setter, v0);
      }
    }
  }

  /** `SetDefaultsCallback`. */
  method SetDefaultsCallback(po: Options, doc: string, e: Entry) returns (rc: int)
    requires po.Valid()
    modifies po, po.switches
    ensures po.Valid()
    ensures (rc, po.View()) == DefaultsCallback(KbswSetter(doc), old(po.View()), e)
  {
    if !e.hasValue {
      return 0;
    }
    var ok := po.AppDocOptSetOption(doc, e.opt, Some(e.defaultText));
    rc := if ok then 0 else 1;
  }

  /** `ParseArgumentCallback`. */
  method ParseArgumentCallback(po: Options, doc: string, e: Entry, arg: string) returns (rc: int)
    requires po.Valid()
    modifies po, po.switches
    ensures po.Valid()
    ensures (rc, po.View()) == ArgumentCallback(KbswSetter(doc), old(po.View()), e, arg)
  {
    var m := MatchArgument(e, arg);
    if m == NoMatch {
      return 0;
    }
    if m == Malformed {
      return DocoptError;
    }
    var ok := po.AppDocOptSetOption(doc, e.opt, m.value);
    if !ok {
      return DocoptError;
    }
    return DocoptMatch;
  }

  /** The callback `IterDocOpt` was given, on one option line. */
  method RunCallbackOn(po: Options, doc: string, cb: Callback, e: Entry, arg: string) returns (rc: int)
    requires po.Valid()
    modifies po, po.switches
    ensures po.Valid()
    ensures (rc, po.View()) == RunCallback(cb, KbswSetter(doc), old(po.View()), e, arg)
  {
    if cb == SetDefaults {
      rc := SetDefaultsCallback(po, doc, e);
    } else {
      rc := ParseArgumentCallback(po, doc, e, arg);
    }
  }

  /** The iteration over a line in front of the others. */
  lemma IterateCons<O>(e: Entry, es: seq<Entry>, cb: Callback, arg: string, setter: Setter<O>, v: O)
    ensures var r := RunCallback(cb, setter, v, e, arg);
      Iterate([e] + es, cb, arg, setter, v) == if r.0 != 0 then r else Iterate(es, cb, arg, setter, r.1)
  {
    assert ([e] + es)[1..] == es;
  }

  /** The iteration over the option lines from `pos` on. */
  function IterateFrom<O>(doc: string, pos: nat, cb: Callback, arg: string, setter: Setter<O>, v: O): (int, O)
    requires pos <= |doc|
  {
    Iterate(EntriesAt(doc, EntryPositions(doc, pos)), cb, arg, setter, v)
  }

  /** One round of the iteration from `pos`: it ends when no `\n-` follows;
      otherwise the callback runs on the next option line, and the iteration
      goes on after it unless the callback returned something other than 0. */
  lemma IterateFromStep<O>(doc: string, pos: nat, cb: Callback, arg: string, setter: Setter<O>, v: O)
    requires pos <= |doc|
    ensures StrStr(doc, "\n-", pos).None? ==> IterateFrom(doc, pos, cb, arg, setter, v) == (0, v)
    ensures StrStr(doc, "\n-", pos).Some? ==>
      var p := StrStr(doc, "\n-", pos).value;
      var r := RunCallback(cb, setter, v, EntryAt(doc, p), arg);
      p + 2 <= |doc|
      && IterateFrom(doc, pos, cb, arg, setter, v) == if r.0 != 0 then r else IterateFrom(doc, p + 2, cb, arg, setter, r.1)
  {
    EntriesFromStep(doc, pos);
    var found := StrStr(doc, "\n-", pos);
    if found.Some? {
      var p := found.value;
      IterateCons(EntryAt(doc, p), EntriesAt(doc, EntryPositions(doc, p + 2)), cb, arg, setter, v);
    }
  }

  /** One round of `IterDocOpt` from `pos`: the next option line's callback,
      or the end of the help text. */
  method IterStep(po: Options, doc: string, cb: Callback, arg: string, pos: nat)
    returns (done: bool, rc: int, next: nat)
    requires po.Valid() && pos <= |doc|
    modifies po, po.switches
    ensures po.Valid()
    ensures !done ==> pos < next <= |doc|
    ensures IterateFrom(doc, pos, cb, arg, KbswSetter(doc), old(po.View()))
      == if done then (rc, po.View()) else IterateFrom(doc, next, cb, arg, KbswSetter(doc), po.View())
  {
    IterateFromStep(doc, pos, cb, arg, KbswSetter(doc), po.View());
    var found := StrStr(doc, "\n-", pos);
    if found == None {
      return true, 0, pos;
    }
    var p := found.value;
    rc := RunCallbackOn(po, doc, cb, EntryAt(doc, p), arg);
    done := rc != 0;
    next := p + 2;
  }

  /** `IterDocOpt`: every `\n-` of the help text in turn, stopping at the first
      callback result other than `DOCOPT_NO_MATCH`. */
  method IterDocOpt(po: Options, doc: string, cb: Callback, arg: string) returns (rc: int)
    requires po.Valid()
    modifies po, po.switches
    ensures po.Valid()
    ensures (rc, po.View()) == Iterate(DocEntries(doc), cb, arg, KbswSetter(doc), old(po.View()))
  {
    var pos := 0;
    while true
      invariant pos <= |doc| && po.Valid()
      invariant Iterate(DocEntries(doc), cb, arg, KbswSetter(doc), old(po.View()))
        == IterateFrom(doc, pos, cb, arg, KbswSetter(doc), po.View())
      decreases |doc| - pos
    {
      var done, r, next := IterStep(po, doc, cb, arg, pos);
      if done {
        return r;
      }
      pos := next;
    }
  }

  /** One command-line argument: an option is handed to `IterDocOpt` and must be
      taken (`DOCOPT_MATCH`); anything else is a positional argument (opt 0). */
  function ArgStep<O>(es: seq<Entry>, setter: Setter<O>, v: O, arg: string): (r: (bool, O)) {
    if CharAt(arg, 0) == '-' then
      var (rc, v') := Iterate(es, ParseArgument, arg, setter, v);
      (rc == DocoptMatch, v')
    else setter(v, 0 as char, Some(arg))
  }

  /** The arguments in order, every one processed even after a failure: the
      first failing argument, if any, and the final options. */
  function ArgsRun<O>(es: seq<Entry>, setter: Setter<O>, v: O, args: seq<string>): (r: (Option<string>, O))
    decreases |args|
  {
    if args == [] then (None, v)
    else
      var (reported, v1) := ArgsRun(es, setter, v, args[..|args| - 1]);
      var last := args[|args| - 1];
      var (ok, v2) := ArgStep(es, setter, v1, last);
      (if reported == None && !ok then Some(last) else reported, v2)
  }

  /** The options before argument `i` is processed. */
  function StateBefore<O>(es: seq<Entry>, setter: Setter<O>, v: O, args: seq<string>, i: nat): O
    requires i <= |args|
  {
    ArgsRun(es, setter, v, args[..i]).1
  }

  /** Whether argument `i` succeeds, in the options the earlier ones left. */
  predicate Succeeds<O>(es: seq<Entry>, setter: Setter<O>, v: O, args: seq<string>, i: nat)
    requires i < |args|
  {
    ArgStep(es, setter, StateBefore(es, setter, v, args, i), args[i]).0
  }

  /** Processing a prefix of the arguments sees the same states. */
  lemma SucceedsOnPrefix<O>(es: seq<Entry>, setter: Setter<O>, v: O, args: seq<string>, n: nat)
    requires n <= |args|
    ensures forall i :: 0 <= i < n ==> Succeeds(es, setter, v, args, i) == Succeeds(es, setter, v, args[..n], i)
  {
    forall i | 0 <= i < n
      ensures Succeeds(es, setter, v, args, i) == Succeeds(es, setter, v, args[..n], i)
    {
      assert args[..n][..i] == args[..i];
      assert args[..n][i] == args[i];
    }
  }

  /** No argument is reported exactly when every argument succeeded. */
  lemma {:induction false} ArgsRunReportsNothing<O>(es: seq<Entry>, setter: Setter<O>, v: O, args: seq<string>)
    ensures ArgsRun(es, setter, v, args).0 == None <==>
      forall i :: 0 <= i < |args| ==> Succeeds(es, setter, v, args, i)
    decreases |args|
  {
    if args != [] {
      var n := |args| - 1;
      ArgsRunReportsNothing(es, setter, v, args[..n]);
      SucceedsOnPrefix(es, setter, v, args, n);
      assert Succeeds(es, setter, v, args, n) == ArgStep(es, setter, ArgsRun(es, setter, v, args[..n]).1, args[n]).0;
    }
  }

  /** The error reporter sees the first argument that failed, and only it. */
  lemma {:induction false} ArgsRunReportsFirstFailure<O>(es: seq<Entry>, setter: Setter<O>, v: O, args: seq<string>)
    ensures ArgsRun(es, setter, v, args).0 != None ==> exists i :: (0 <= i < |args|
      && ArgsRun(es, setter, v, args).0 == Some(args[i])
      && !Succeeds(es, setter, v, args, i)
      && forall k :: 0 <= k < i ==> Succeeds(es, setter, v, args, k))
    decreases |args|
  {
    if args != [] {
      var n := |args| - 1;
      var init := args[..n];
      ArgsRunReportsFirstFailure(es, setter, v, init);
      ArgsRunReportsNothing(es, setter, v, init);
      SucceedsOnPrefix(es, setter, v, args, n);
      assert init[..n] == init;
      if ArgsRun(es, setter, v, init).0 != None {
        var i :| 0 <= i < |init|
          && ArgsRun(es, setter, v, init).0 == Some(init[i])
          && !Succeeds(es, setter, v, init, i)
          && forall k :: 0 <= k < i ==> Succeeds(es, setter, v, init, k);
        assert init[i] == args[i];
      }
    }
  }

  /** What `DocOptParseCommandLine` returns (success, and the argument
      reported as invalid), and the options it leaves. */
  function ParseCommandLine<O>(es: seq<Entry>, setter: Setter<O>, v: O, args: seq<string>)
    : (r: (bool, Option<string>, O))
  {
    var (rc, v0) := Iterate(es, SetDefaults, [], setter, v);
    if rc != 0 then (false, None, v0)
    else
      var (reported, v') := ArgsRun(es, setter, v0, args);
      (reported == None, reported, v')
  }

  /** Parsing succeeds exactly when every default is accepted and then every
      argument succeeds; a rejected default reports no argument. */
  lemma ParseCommandLineRules<O>(es: seq<Entry>, setter: Setter<O>, v: O, args: seq<string>)
    ensures var (ok, reported, _) := ParseCommandLine(es, setter, v, args);
      (ApplyDefaults(es, setter, v).None? ==> !ok && reported == None)
      && (ApplyDefaults(es, setter, v).Some? ==>
            (ok <==> forall i :: 0 <= i < |args| ==> Succeeds(es, setter, ApplyDefaults(es, setter, v).value, args, i)))
      && (ok <==> reported == None && ApplyDefaults(es, setter, v).Some?)
  {
    DefaultsApplied(es, setter, v);
    var (rc, v0) := Iterate(es, SetDefaults, [], setter, v);
    if rc == 0 {
      ArgsRunReportsNothing(es, setter, v0, args);
    }
  }

  /** `DocOptParseCommandLine`: defaults first, then every argument after the
      program name (`args` is `argv[1..]`), reporting the first failure once. */
  method DocOptParseCommandLine(po: Options, doc: string, args: seq<string>)
    returns (ok: bool, reported: Option<string>)
    requires po.Valid()
    modifies po, po.switches
    ensures po.Valid()
    ensures (ok, reported, po.View()) == ParseCommandLine(DocEntries(doc), KbswSetter(doc), old(po.View()), args)
  {
    var rc := IterDocOpt(po, doc, SetDefaults, []);
    if rc != 0 {
      return false, None;
    }
    ghost var v0 := po.View();
    ghost var es := DocEntries(doc);
    var reportedError := false;
    reported := None;
    var i := 0;
    while i < |args|
      invariant 0 <= i <= |args| && po.Valid()
      invariant (reported, po.View()) == ArgsRun(es, KbswSetter(doc), v0, args[..i])
      invariant reportedError <==> reported != None
    {
      var arg := args[i];
      var argOk: bool;
      if CharAt(arg, 0) == '-' {
        var r := IterDocOpt(po, doc, ParseArgument, arg);
        argOk := r == DocoptMatch;
      } else {
        argOk := po.AppDocOptSetOption(doc, 0 as char, Some(arg));
      }
      if !argOk && !reportedError {
        reported := Some(arg);
        reportedError := true;
      }
      assert args[..i + 1][..i] == args[..i];
      i := i + 1;
    }
    assert args[..i] == args;
    ok := !reportedError;
  }
}
