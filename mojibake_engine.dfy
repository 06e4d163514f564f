/** The transliteration engine's state machine (`MojibakeTranslateSelection`,
    `MojibakeOnClipboardUpdate`, `MojibakeTimer`, `MojibakeIsBusy`): a request
    copies the selection (first by `WM_COPY`, then by a simulated keystroke),
    translates the clipboard when it changes, and pastes after a short delay.
    The tick count, the timer handle returned by `SetTimer`, the held keys and
    `SendInput` are parameters; the window handle is a number. */
module MojibakeEngine {
  import opened Common
  import opened KeyChord
  import opened SpecialHandlingRules
  import opened Transliteration

  /** `WMCOPY_TIMEOUT_ms`, `CTRL_INSERT_TIMEOUT_ms`, `PASTE_DELAY_ms`. */
  const WmCopyTimeoutMs: Dword := 100
  const CtrlInsertTimeoutMs: Dword := 300
  const PasteDelayMs: Dword := 100

  datatype State = Idle | WaitingForWmCopy | WaitingForKeyboardCopy | DelayBeforePaste

  /** The engine globals, plus whether the timer is still set (`KillTimer`
      clears it). */
  datatype EngineView = EngineView(
    state: State, targetWindow: int, targetLayout: Hkl, startTime: Dword,
    timer: nat, specialHandling: SpecialHandling, timerSet: bool)

  /** While a request is in progress its timer is set, so a later tick can
      always finish it. */
  predicate TimerKeepsRequestAlive(v: EngineView) {
    v.state != Idle ==> v.timerSet
  }

  /** `MojibakeTranslateSelection`; `copyPosted` tells whether `WM_COPY` was sent. */
  function SelectionStep(v: EngineView, window: int, target: Hkl, w: WindowInfo, tick: Dword, timerId: nat)
    : (r: (EngineView, bool))
  {
    if v.state != Idle then (v, false)
    else
      var sh := Classify(w);
      if sh == Ignore then (v.(specialHandling := sh), false)
      else
        var v1 := v.(specialHandling := sh, targetWindow := window, targetLayout := target, startTime := tick,
                     timer := timerId, timerSet := timerId != 0 || v.timerSet);
        if timerId == 0 then (v1, false) else (v1.(state := WaitingForWmCopy), true)
  }

  /** `MojibakeOnClipboardUpdate`, given what `TranslateClipboard` of the
      revision in use does. */
  function ClipboardStep(v: EngineView, result: (bool, ClipboardEffect), tick: Dword): (r: EngineView) {
    if (v.state == WaitingForWmCopy || v.state == WaitingForKeyboardCopy) && result.0
    then v.(startTime := tick, state := DelayBeforePaste)
    else v
  }

  /** The keystrokes `SimulateKeyboardCopy` (`copy`) or `SimulateKeyboardPaste`
      sends, and what it reports. */
  function ChordResult(sh: SpecialHandling, copy: bool, held: set<Vkey>, send: seq<KeyInput> -> bool)
    : (bool, seq<KeyInput>)
  {
    if sh == Ignore then (false, [])
    else
      var c := ChordFor(sh, copy).value;
      var sent := ChordSequence(held, c.0, c.1);
      (send(sent), sent)
  }

  /** `MojibakeTimer` at time `now`: the new globals and the keystrokes sent. */
  function TimerStep(v: EngineView, now: Dword, held: set<Vkey>, send: seq<KeyInput> -> bool)
    : (r: (EngineView, seq<KeyInput>))
  {
    var elapsed := Sub32(now, v.startTime);
    match v.state
    case WaitingForWmCopy =>
      if elapsed >= WmCopyTimeoutMs then
        var c := ChordResult(v.specialHandling, true, held, send);
        if c.0 then (v.(startTime := now, state := WaitingForKeyboardCopy), c.1)
        else (v.(startTime := now, state := Idle, timerSet := false), c.1)
      else (v, [])
    case WaitingForKeyboardCopy =>
      if elapsed >= CtrlInsertTimeoutMs then (v.(state := Idle, timerSet := false), []) else (v, [])
    case DelayBeforePaste =>
      if elapsed >= PasteDelayMs then
        (v.(state := Idle, timerSet := false), ChordResult(v.specialHandling, false, held, send).1)
      else (v, [])
    case Idle => (v.(timerSet := false), [])
  }

  // ---------------------------------------------------------------------------
  // Runs of events

  /** What reaches the engine: a translation request (`MojibakeTranslateSelection`),
      a clipboard notification with the outcome of `TranslateClipboard`, or a
      timer tick. */
  datatype Event =
    | Selection(window: int, target: Hkl, w: WindowInfo, tick: Dword, timerId: nat)
    | ClipboardUpdate(result: (bool, ClipboardEffect), tick: Dword)
    | Tick(now: Dword, held: set<Vkey>, send: seq<KeyInput> -> bool)

  /** What the engine does to the outside world in one event: posts `WM_COPY`,
      translates the clipboard (with its success flag), or calls
      `SimulateKeyboardCopy` / `SimulateKeyboardPaste` with the keys sent. */
  datatype Output =
    | Quiet
    | PostCopy
    | Translated(ok: bool)
    | CopyChord(keys: seq<KeyInput>)
    | PasteChord(keys: seq<KeyInput>)

  predicate Waiting(s: State) {
    s == WaitingForWmCopy || s == WaitingForKeyboardCopy
  }

  /** One event. */
  function Step(v: EngineView, e: Event): (r: (EngineView, Output))
    // `WM_COPY` is posted exactly when a request leaves the idle state
    ensures r.1 == PostCopy <==> v.state == Idle && r.0.state == WaitingForWmCopy
    // a waiting state is entered only by posting `WM_COPY` or from another waiting state
    ensures Waiting(r.0.state) && r.1 != PostCopy ==> Waiting(v.state)
    ensures r.0.state == WaitingForWmCopy && r.1 != PostCopy ==> v.state == WaitingForWmCopy
    // the clipboard is translated only while waiting for the copy
    ensures r.1.Translated? ==> Waiting(v.state)
    // the paste is delayed exactly after a successful translation
    ensures r.1 == Translated(true) <==> Waiting(v.state) && r.0.state == DelayBeforePaste
    ensures r.0.state == DelayBeforePaste ==> v.state == DelayBeforePaste || r.1 == Translated(true)
    // the wait for `WM_COPY` ends with the translation or with the copy chord
    ensures r.1.CopyChord? ==> v.state == WaitingForWmCopy && r.0.state != WaitingForWmCopy
    ensures v.state == WaitingForWmCopy && r.0.state != WaitingForWmCopy ==>
              r.1.CopyChord? || r.1 == Translated(true)
    // the paste chord ends the request
    ensures r.1.PasteChord? <==> v.state == DelayBeforePaste && r.0.state == Idle
  {
    match e
    case Selection(window, target, w, tick, timerId) =>
      var (v', posted) := SelectionStep(v, window, target, w, tick, timerId);
      (v', if posted then PostCopy else Quiet)
    case ClipboardUpdate(result, tick) =>
      (ClipboardStep(v, result, tick), if Waiting(v.state) then Translated(result.0) else Quiet)
    case Tick(now, held, send) =>
      var (v', keys) := TimerStep(v, now, held, send);
      (v', if v.state == WaitingForWmCopy && v'.state != WaitingForWmCopy then CopyChord(keys)
           else if v.state == DelayBeforePaste && v'.state == Idle then PasteChord(keys)
           else Quiet)
  }

  /** A run of events from `v`: the final view and one output per event. */
  function Run(v: EngineView, es: seq<Event>): (r: (EngineView, seq<Output>))
    ensures |r.1| == |es|
    decreases |es|
  {
    if es == [] then (v, [])
    else
      var (v1, o) := Step(v, es[0]);
      var (vn, os) := Run(v1, es[1..]);
      (vn, [o] + os)
  }

  /** How many outputs satisfy `p`. */
  function Count(os: seq<Output>, p: Output -> bool): (n: nat)
    ensures n <= |os|
    decreases |os|
  {
    if os == [] then 0 else (if p(os[0]) then 1 else 0) + Count(os[1..], p)
  }

  predicate IsPostCopy(o: Output) { o == PostCopy }
  predicate IsTranslation(o: Output) { o == Translated(true) }
  predicate IsCopyChord(o: Output) { o.CopyChord? }
  predicate IsPasteChord(o: Output) { o.PasteChord? }

  function Flag(b: bool): nat { if b then 1 else 0 }

  /** The outputs of a non-empty run are those of its first step, then the rest. */
  lemma RunCons(v: EngineView, es: seq<Event>, p: Output -> bool)
    requires es != []
    ensures Count(Run(v, es).1, p) == Flag(p(Step(v, es[0]).1)) + Count(Run(Step(v, es[0]).0, es[1..]).1, p)
  {
    var os := Run(v, es).1;
    assert os[1..] == Run(Step(v, es[0]).0, es[1..]).1;
  }

  /** Every paste is paid for by a successful translation: in any run there
      are no more paste chords than translations, plus one for a paste that
      was already pending. */
  lemma {:induction false} PastesFollowTranslations(v: EngineView, es: seq<Event>)
    ensures Count(Run(v, es).1, IsPasteChord)
            <= Count(Run(v, es).1, IsTranslation) + Flag(v.state == DelayBeforePaste)
    decreases |es|
  {
    if es != [] {
      var v1 := Step(v, es[0]).0;
      PastesFollowTranslations(v1, es[1..]);
      RunCons(v, es, IsPasteChord);
      RunCons(v, es, IsTranslation);
    }
  }

  /** Every successful translation is paid for by a `WM_COPY` request: no more
      translations than requests, plus one for a request already waiting. */
  lemma {:induction false} TranslationsFollowRequests(v: EngineView, es: seq<Event>)
    ensures Count(Run(v, es).1, IsTranslation)
            <= Count(Run(v, es).1, IsPostCopy) + Flag(Waiting(v.state))
    decreases |es|
  {
    if es != [] {
      var v1 := Step(v, es[0]).0;
      TranslationsFollowRequests(v1, es[1..]);
      RunCons(v, es, IsTranslation);
      RunCons(v, es, IsPostCopy);
    }
  }

  /** The keyboard copy is tried at most once per request. */
  lemma {:induction false} CopyChordOncePerRequest(v: EngineView, es: seq<Event>)
    ensures Count(Run(v, es).1, IsCopyChord)
            <= Count(Run(v, es).1, IsPostCopy) + Flag(v.state == WaitingForWmCopy)
    decreases |es|
  {
    if es != [] {
      var v1 := Step(v, es[0]).0;
      CopyChordOncePerRequest(v1, es[1..]);
      RunCons(v, es, IsCopyChord);
      RunCons(v, es, IsPostCopy);
    }
  }

  /** From an idle engine, each request (each `WM_COPY` posted) leads to at
      most one keyboard copy, one successful translation and one paste. */
  lemma AtMostOncePerRequest(v: EngineView, es: seq<Event>)
    requires v.state == Idle
    ensures var os := Run(v, es).1;
      Count(os, IsCopyChord) <= Count(os, IsPostCopy)
      && Count(os, IsPasteChord) <= Count(os, IsTranslation) <= Count(os, IsPostCopy)
  {
    PastesFollowTranslations(v, es);
    TranslationsFollowRequests(v, es);
    CopyChordOncePerRequest(v, es);
  }

  /** Every step keeps a busy engine's timer set. */
  lemma StepsKeepTimerAlive(v: EngineView, window: int, target: Hkl, w: WindowInfo, tick: Dword, timerId: nat,
                            result: (bool, ClipboardEffect), now: Dword, held: set<Vkey>, send: seq<KeyInput> -> bool)
    requires TimerKeepsRequestAlive(v)
    ensures TimerKeepsRequestAlive(SelectionStep(v, window, target, w, tick, timerId).0)
    ensures TimerKeepsRequestAlive(ClipboardStep(v, result, tick))
    ensures TimerKeepsRequestAlive(TimerStep(v, now, held, send).0)
  {
  }

  /** Two late ticks end any request: a busy engine never stays busy. */
  lemma LateTicksEndRequest(v: EngineView, t1: Dword, t2: Dword, held: set<Vkey>, send: seq<KeyInput> -> bool)
    requires Sub32(t1, v.startTime) >= CtrlInsertTimeoutMs
    requires Sub32(t2, t1) >= CtrlInsertTimeoutMs
    ensures TimerStep(TimerStep(v, t1, held, send).0, t2, held, send).0.state == Idle
  {
  }

  /** The engine. The same state machine serves both revisions; `early`
      selects which `TranslateClipboard` it calls. */
  class Engine {
    const early: bool
    var state: State
    var targetWindow: int
    var targetLayout: Hkl
    var startTime: Dword
    var timer: nat
    var specialHandling: SpecialHandling
    var timerSet: bool

    function View(): EngineView
      reads this
    {
      EngineView(state, targetWindow, targetLayout, startTime, timer, specialHandling, timerSet)
    }

    /** The engine starts idle, with no timer. */
    constructor (early: bool)
      ensures this.early == early && state == Idle && !timerSet
      ensures TimerKeepsRequestAlive(View())
    {
      this.early := early;
      state := Idle;
      targetWindow, targetLayout, startTime, timer := 0, HklNull, 0, 0;
      specialHandling := NoSpecialHandling;
      timerSet := false;
    }

    /** `MojibakeIsBusy`. */
    function IsBusy(): (r: bool)
      reads this
      ensures r <==> View().state != Idle
    {
      state != Idle
    }

    /** `MojibakeTranslateSelection` for the window `window`, whose process and
        class the OS describes as `w`. */
    method TranslateSelection(window: int, target: Hkl, w: WindowInfo, tick: Dword, timerId: nat)
      returns (copyPosted: bool)
      modifies this
      ensures (View(), copyPosted) == SelectionStep(old(View()), window, target, w, tick, timerId)
    {
      if IsBusy() {
        return false;
      }
      specialHandling := GetWindowSpecialHandling(w);
      if specialHandling == Ignore {
        return false;
      }
      targetWindow := window;
      targetLayout := target;
      startTime := tick;
      timer := timerId;
      if timer == 0 {
        return false;
      }
      timerSet := true;
      state := WaitingForWmCopy;
      copyPosted := true;
    }

    /** `MojibakeOnClipboardUpdate`: the clipboard is translated only while
        waiting for the copy. */
    method OnClipboardUpdate(kb: Keyboard, cb: Clipboard, tick: Dword) returns (effect: ClipboardEffect)
      modifies this
      ensures old(View().state) == Idle || old(View().state) == DelayBeforePaste ==>
        View() == old(View()) && effect == Untouched
      ensures old(View().state) == WaitingForWmCopy || old(View().state) == WaitingForKeyboardCopy ==>
        var result := if early then ClipboardResultEarly(kb, cb, old(targetLayout))
                      else ClipboardResult(kb, cb, old(targetLayout));
        View() == ClipboardStep(old(View()), result, tick) && effect == result.1
    {
      effect := Untouched;
      if state == WaitingForWmCopy || state == WaitingForKeyboardCopy {
        var done;
        if early {
          done, effect := TranslateClipboardEarly(kb, cb, targetLayout);
        } else {
          done, effect := TranslateClipboard(kb, cb, targetLayout);
        }
        if done {
          startTime := tick;
          state := DelayBeforePaste;
        }
      }
    }

    /** `MojibakeTimer` at time `now`; `sent` is what reached `SendInput`. */
    method Timer(now: Dword, held: set<Vkey>, send: seq<KeyInput> -> bool) returns (sent: seq<KeyInput>)
      modifies this
      ensures (View(), sent) == TimerStep(old(View()), now, held, send)
    {
      var elapsed := Sub32(now, startTime);
      sent := [];
      match state
      case WaitingForWmCopy =>
        if elapsed >= WmCopyTimeoutMs {
          startTime := now;
          var ok;
          ok, sent := SimulateKeyboardChord(specialHandling, true, held, send);
          if ok {
            state := WaitingForKeyboardCopy;
          } else {
            timerSet := false;
            state := Idle;
          }
        }
      case WaitingForKeyboardCopy =>
        if elapsed >= CtrlInsertTimeoutMs {
          timerSet := false;
          state := Idle;
        }
      case DelayBeforePaste =>
        if elapsed >= PasteDelayMs {
          timerSet := false;
          state := Idle;
          var ok;
          ok, sent := SimulateKeyboardChord(specialHandling, false, held, send);
        }
      case Idle =>
        timerSet := false;
    }
  }
}
