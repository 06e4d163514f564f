/** The double-tap detector of the low-level keyboard hook (kbswhook.c).

    Three globals make up its state: the index of the switch whose tap
    sequence is in progress (or none), the time of the last key-down of a
    configured key, and a transition count whose parity says whether the
    switch is down (odd) or up (even). Counts 8 and 9 are sentinels that mark
    a sequence as spoiled; the fourth valid transition (down-up-down-up)
    activates the switch. */
module SwitchDetector {
  import opened Common

  /** Events closer than this to the previous key-down are treated as noise. */
  const MinDelayMs: Dword := 10
  /** `gCurrentSwitch` when no sequence is in progress. */
  const NoSwitch: int := -1
  const CountActivate: Dword := 4
  const CountOffUp: Dword := 8
  const CountOffDown: Dword := 9
  /** The hook code of a real keyboard event. */
  const HcAction: int := 0

  /** `ISDOWN`: an odd count means the switch key is held down. */
  predicate IsDown(count: Dword) {
    count % 2 == 1
  }

  /** The detector's mutable state, as a value. */
  datatype SwitchState = SwitchState(current: int, lastPress: Dword, count: Dword)

  /** What `HookConfigure` installs: the trigger keys (0 = empty slot), the
      identifier reported for each, and the double-tap timeout. */
  datatype HookConfig = HookConfig(vkeys: seq<Vkey>, ids: seq<nat>, tapTimeout: Dword)

  predicate ValidConfig(c: HookConfig) {
    |c.vkeys| == MaxSwitches && |c.ids| == MaxSwitches
  }

  /** One low-level keyboard event. `held` is the set of keys that
      `GetAsyncKeyState` reports as down while the event is processed (it is
      polled, not derived from the event stream). */
  datatype KeyEvent = KeyEvent(vk: Vkey, up: bool, time: Dword, injected: bool, held: set<Vkey>)

  /** What `AppHookNotify` receives. */
  datatype Activation = Activation(id: nat, anyModifier: bool)

  /** True iff some modifier key other than the trigger itself is held. */
  predicate AnyOtherModifierHeld(trigger: Vkey, held: set<Vkey>) {
    exists i :: 0 <= i < |ModifierVKeys| && ModifierVKeys[i] != trigger && ModifierVKeys[i] in held
  }

  /** A key-down of a key that either differs from the current switch or
      comes more than the timeout after the previous key-down. */
  predicate IsFreshDown(s: SwitchState, timeout: Dword, sw: nat, t: Dword) {
    sw != s.current || Sub32(t, s.lastPress) > timeout
  }

  /** `SwitchDown` on the state value. */
  function DownTransition(s: SwitchState, timeout: Dword, sw: nat, t: Dword): (r: SwitchState)
    // the timestamp is taken on every key-down, before any check
    ensures r.lastPress == t
    // after a key-down the pressed switch is the current one and the count says "down"
    ensures r.current == sw && IsDown(r.count)
    ensures IsFreshDown(s, timeout, sw, t) ==> r.count == 1
    // a same-switch key-down while already down, or too soon: spoiled, switch kept
    ensures !IsFreshDown(s, timeout, sw, t) && (IsDown(s.count) || Sub32(t, s.lastPress) <= MinDelayMs)
      ==> r.count == CountOffDown && r.current == s.current
    ensures !IsFreshDown(s, timeout, sw, t) && !IsDown(s.count) && Sub32(t, s.lastPress) > MinDelayMs
      ==> r.count == s.count + 1
  {
    var elapsed := Sub32(t, s.lastPress);
    if sw != s.current || elapsed > timeout then
      SwitchState(sw, t, 1)
    else if IsDown(s.count) || elapsed <= MinDelayMs then
      SwitchState(s.current, t, CountOffDown)
    else
      SwitchState(s.current, t, Inc32(s.count))
  }

  /** `SwitchUp` on the state value; the flag says whether it activates. */
  function UpTransition(s: SwitchState, timeout: Dword, sw: nat, t: Dword): (r: (SwitchState, bool))
    // key-ups never move the timestamp
    ensures r.0.lastPress == s.lastPress
    ensures sw != s.current ==> r.0 == s.(current := NoSwitch) && !r.1
    // for the current switch, a key-up always leaves the count saying "up"
    ensures sw == s.current ==> r.0.current == sw && !IsDown(r.0.count)
    ensures sw == s.current && (!IsDown(s.count) || Sub32(t, s.lastPress) <= MinDelayMs
                                || Sub32(t, s.lastPress) > timeout)
      ==> r.0.count == CountOffUp && !r.1
    // a timely key-up of the held current switch advances the count
    ensures sw == s.current && IsDown(s.count) && MinDelayMs < Sub32(t, s.lastPress) <= timeout
      ==> r.0.count == Inc32(s.count)
    // activation happens exactly when the count becomes 4
    ensures r.1 <==> r.0.current == sw && r.0.count == CountActivate
    ensures r.1 ==> s.current == sw && s.count == 3
                    && MinDelayMs < Sub32(t, s.lastPress) <= timeout
  {
    if sw != s.current then
      (s.(current := NoSwitch), false)
    else
      var elapsed := Sub32(t, s.lastPress);
      if !IsDown(s.count) || elapsed <= MinDelayMs || elapsed > timeout then
        (s.(count := CountOffUp), false)
      else
        var c := Inc32(s.count);
        (s.(count := c), c == CountActivate)
  }

  /** Index of `vk` among the configured keys, scanning from slot `i` and
      giving up at the first empty slot (a key equal to the empty-slot value
      is matched before the scan stops). */
  function FindSwitchFrom(vkeys: seq<Vkey>, vk: Vkey, i: nat): (r: Option<nat>)
    requires i <= |vkeys|
    decreases |vkeys| - i
    ensures r.Some? ==> i <= r.value < |vkeys| && vkeys[r.value] == vk
                        && forall j :: i <= j < r.value ==> vkeys[j] != vk && vkeys[j] != 0
    ensures r.None? ==> forall j :: i <= j < |vkeys| && vkeys[j] == vk ==>
                          exists k :: i <= k < j && vkeys[k] == 0
  {
    if i == |vkeys| then None
    else if vk == vkeys[i] then Some(i)
    else if vkeys[i] == 0 then None
    else FindSwitchFrom(vkeys, vk, i + 1)
  }

  function FindSwitch(vkeys: seq<Vkey>, vk: Vkey): Option<nat> {
    FindSwitchFrom(vkeys, vk, 0)
  }

  /** A key-down that starts a new double-tap sequence (count reset to 1). */
  predicate StartsFreshSequence(c: HookConfig, s: SwitchState, ev: KeyEvent) {
    && !ev.injected && !ev.up
    && FindSwitch(c.vkeys, ev.vk).Some?
    && IsFreshDown(s, c.tapTimeout, FindSwitch(c.vkeys, ev.vk).value, ev.time)
  }

  /** The classification step of `LowLevelKeyboardHook` for one event. */
  function HookStep(c: HookConfig, s: SwitchState, ev: KeyEvent): (r: (SwitchState, Option<Activation>))
    requires ValidConfig(c)
    // injected events and unconfigured keys only break the sequence
    ensures (ev.injected || FindSwitch(c.vkeys, ev.vk).None?) ==> r.0 == s.(current := NoSwitch) && r.1.None?
    // only a key-down of a configured key moves the timestamp
    ensures r.0.lastPress == (if !ev.injected && FindSwitch(c.vkeys, ev.vk).Some? && !ev.up
                              then ev.time else s.lastPress)
    // a fresh key-down makes its switch current with count 1
    ensures StartsFreshSequence(c, s, ev) ==> r == (SwitchState(FindSwitch(c.vkeys, ev.vk).value, ev.time, 1), None)
    ensures r.1.Some? ==> ev.up && !ev.injected && r.0.count == CountActivate
  {
    if ev.injected then
      (s.(current := NoSwitch), None)
    else
      match FindSwitch(c.vkeys, ev.vk)
      case None => (s.(current := NoSwitch), None)
      case Some(i) =>
        if ev.up then
          var (s', fired) := UpTransition(s, c.tapTimeout, i, ev.time);
          (s', if fired then Some(Activation(c.ids[i], AnyOtherModifierHeld(c.vkeys[i], ev.held))) else None)
        else
          (DownTransition(s, c.tapTimeout, i, ev.time), None)
  }

  /** Feeding a stream of events to the hook: final state and the
      activations emitted, in order. */
  function Run(c: HookConfig, s: SwitchState, evs: seq<KeyEvent>): (SwitchState, seq<Activation>)
    requires ValidConfig(c)
    decreases |evs|
  {
    if evs == [] then (s, [])
    else
      var step := HookStep(c, s, evs[0]);
      var tail := Run(c, step.0, evs[1..]);
      (tail.0, (if step.1.Some? then [step.1.value] else []) + tail.1)
  }

  /** Whether some event of the stream starts a fresh sequence. */
  predicate FreshStartIn(c: HookConfig, s: SwitchState, evs: seq<KeyEvent>)
    requires ValidConfig(c)
    decreases |evs|
  {
    evs != [] && (StartsFreshSequence(c, s, evs[0]) || FreshStartIn(c, HookStep(c, s, evs[0]).0, evs[1..]))
  }

  /** Once the count has reached 4 (activated) or a sentinel, no event can
      activate again until a key-down starts a fresh sequence: a third tap is
      absorbed. The bound keeps the 32-bit count from wrapping around. */
  lemma {:induction false} NoActivationWithoutFreshStart(c: HookConfig, s: SwitchState, evs: seq<KeyEvent>)
    requires ValidConfig(c)
    requires CountActivate <= s.count && s.count + |evs| < Pow32 && CountOffDown + |evs| < Pow32
    requires !FreshStartIn(c, s, evs)
    ensures Run(c, s, evs).1 == []
    decreases |evs|
  {
    if evs != [] {
      var (s1, a) := HookStep(c, s, evs[0]);
      assert a.None?;
      assert CountActivate <= s1.count <= if s.count + 1 > CountOffDown then s.count + 1 else CountOffDown;
      NoActivationWithoutFreshStart(c, s1, evs[1..]);
    }
  }

  /** At most one activation per sequence: after an event that activates,
      the rest of the stream activates nothing until a fresh sequence starts. */
  lemma AtMostOneActivationPerSequence(c: HookConfig, s: SwitchState, evs: seq<KeyEvent>)
    requires ValidConfig(c) && evs != []
    requires HookStep(c, s, evs[0]).1.Some?
    requires |evs| + CountOffDown < Pow32
    requires !FreshStartIn(c, HookStep(c, s, evs[0]).0, evs[1..])
    ensures |Run(c, s, evs).1| == 1
  {
    var s1 := HookStep(c, s, evs[0]).0;
    NoActivationWithoutFreshStart(c, s1, evs[1..]);
  }

  /** Injected events never activate a switch; they leave no sequence in
      progress and touch neither the count nor the timestamp. */
  lemma {:induction false} InjectedEventsNeverActivate(c: HookConfig, s: SwitchState, evs: seq<KeyEvent>)
    requires ValidConfig(c)
    requires forall i :: 0 <= i < |evs| ==> evs[i].injected
    ensures Run(c, s, evs).1 == []
    ensures Run(c, s, evs).0 == if evs == [] then s else s.(current := NoSwitch)
    decreases |evs|
  {
    if evs != [] {
      InjectedEventsNeverActivate(c, s.(current := NoSwitch), evs[1..]);
    }
  }

  /** A stream of key-downs alone (autorepeat) never activates anything. */
  lemma {:induction false} KeyDownsNeverActivate(c: HookConfig, s: SwitchState, evs: seq<KeyEvent>)
    requires ValidConfig(c)
    requires forall i :: 0 <= i < |evs| ==> !evs[i].up
    ensures Run(c, s, evs).1 == []
    decreases |evs|
  {
    if evs != [] {
      KeyDownsNeverActivate(c, HookStep(c, s, evs[0]).0, evs[1..]);
    }
  }

  function Down(vk: Vkey, t: Dword): KeyEvent { KeyEvent(vk, false, t, false, {}) }
  function Up(vk: Vkey, t: Dword): KeyEvent { KeyEvent(vk, true, t, false, {}) }

  /** From no sequence in progress, with a 300 ms timeout, the taps
      down@0 up@50 down@120 up@160 of the first configured key give exactly
      one activation, emitted by the last event, without modifier. A further
      key-down at 400 ms is only 280 ms after the last key-down (at 120), so
      it continues the spent sequence (count 5) rather than starting a new one. */
  lemma DoubleTapScenario(c: HookConfig, t0: Dword, n0: Dword)
    requires ValidConfig(c) && c.tapTimeout == 300 && c.vkeys[0] != 0
    ensures var k := c.vkeys[0];
            var s0 := SwitchState(NoSwitch, t0, n0);
            var evs := [Down(k, 0), Up(k, 50), Down(k, 120), Up(k, 160)];
            && Run(c, s0, evs[..3]).1 == []
            && Run(c, s0, evs) == (SwitchState(0, 120, CountActivate), [Activation(c.ids[0], false)])
            && HookStep(c, SwitchState(0, 120, CountActivate), Down(k, 400))
               == (SwitchState(0, 400, 5), None)
  {
    var k := c.vkeys[0];
    assert FindSwitch(c.vkeys, k) == Some(0);
    var s0 := SwitchState(NoSwitch, t0, n0);
    var s1 := SwitchState(0, 0, 1);
    var s2 := SwitchState(0, 0, 2);
    var s3 := SwitchState(0, 120, 3);
    assert HookStep(c, s0, Down(k, 0)) == (s1, None);
    assert HookStep(c, s1, Up(k, 50)) == (s2, None);
    assert HookStep(c, s2, Down(k, 120)) == (s3, None);
    assert !AnyOtherModifierHeld(k, {});
    assert HookStep(c, s3, Up(k, 160)) == (SwitchState(0, 120, CountActivate), Some(Activation(c.ids[0], false)));
    var s4 := SwitchState(0, 120, CountActivate);
    var act := [Activation(c.ids[0], false)];
    var evs := [Down(k, 0), Up(k, 50), Down(k, 120), Up(k, 160)];
    assert evs[1..][1..][1..][1..] == [];
    assert Run(c, s3, evs[3..]).0 == s4 && Run(c, s3, evs[3..]).1 == act;
    assert Run(c, s2, evs[2..]).0 == s4 && Run(c, s2, evs[2..]).1 == act;
    assert Run(c, s1, evs[1..]).0 == s4 && Run(c, s1, evs[1..]).1 == act;
    assert Run(c, s0, evs).0 == s4 && Run(c, s0, evs).1 == act;
    var pre := evs[..3];
    assert pre[1..][1..][1..] == [];
    assert Run(c, s2, pre[2..]).1 == [];
    assert Run(c, s1, pre[1..]).1 == [];
  }

  /** The hook's globals and configuration, updated in place. */
  class KeyboardHook {
    var confTapTimeout: Dword
    const confVKeys: array<Vkey>
    const confIds: array<nat>
    var currentSwitch: int
    var lastPressTime: Dword
    var transitionCount: Dword

    ghost predicate Valid()
      reads this
    {
      confVKeys.Length == MaxSwitches && confIds.Length == MaxSwitches && confVKeys != confIds
    }

    function State(): SwitchState
      reads this
    {
      SwitchState(currentSwitch, lastPressTime, transitionCount)
    }

    function Config(): (c: HookConfig)
      reads this, confVKeys, confIds
      requires Valid()
      ensures ValidConfig(c)
    {
      HookConfig(confVKeys[..], confIds[..], confTapTimeout)
    }

    /** The static initial values: no switch, zero time and count, empty slots. */
    constructor ()
      ensures Valid() && fresh(confVKeys) && fresh(confIds)
      ensures State() == SwitchState(NoSwitch, 0, 0)
      ensures Config() == HookConfig(seq(MaxSwitches, _ => 0), seq(MaxSwitches, _ => 0), 0)
    {
      confTapTimeout := 0;
      confVKeys := new Vkey[MaxSwitches](_ => 0);
      confIds := new nat[MaxSwitches](_ => 0);
      currentSwitch := NoSwitch;
      lastPressTime := 0;
      transitionCount := 0;
    }

    /** `HookConfigure`: copies every slot and the timeout; the detector
        state is left as it is. */
    method HookConfigure(vkeys: seq<Vkey>, ids: seq<nat>, tapTimeout: Dword)
      requires Valid() && |vkeys| == MaxSwitches && |ids| == MaxSwitches
      modifies this`confTapTimeout, confVKeys, confIds
      ensures Valid()
      ensures Config() == HookConfig(vkeys, ids, tapTimeout)
      ensures State() == old(State())
    {
      for i := 0 to MaxSwitches
        invariant confVKeys[..i] == vkeys[..i] && confIds[..i] == ids[..i]
      {
        confVKeys[i] := vkeys[i];
        confIds[i] := ids[i];
      }
      confTapTimeout := tapTimeout;
      assert confVKeys[..] == vkeys[..MaxSwitches] == vkeys;
      assert confIds[..] == ids[..MaxSwitches] == ids;
    }

    /** `SwitchActivate`: polls the modifier keys, skipping the trigger,
        and stops at the first one held. */
    method SwitchActivate(sw: nat, held: set<Vkey>) returns (a: Activation)
      requires Valid() && sw < MaxSwitches
      ensures a.id == confIds[sw]
      ensures a.anyModifier <==> exists i :: 0 <= i < |ModifierVKeys| && ModifierVKeys[i] != confVKeys[sw]
                                              && ModifierVKeys[i] in held
    {
      var anyModifierPressed := false;
      var i := 0;
      while i < |ModifierVKeys|
        invariant 0 <= i <= |ModifierVKeys|
        invariant anyModifierPressed <==> exists j :: 0 <= j < i && ModifierVKeys[j] != confVKeys[sw]
                                                     && ModifierVKeys[j] in held
      {
        if ModifierVKeys[i] != confVKeys[sw] && ModifierVKeys[i] in held {
          anyModifierPressed := true;
          break;
        }
        i := i + 1;
      }
      a := Activation(confIds[sw], anyModifierPressed);
    }

    /** `SwitchDown`. */
    method SwitchDown(sw: nat, timestamp: Dword)
      requires Valid()
      modifies this`currentSwitch, this`lastPressTime, this`transitionCount
      ensures State() == DownTransition(old(State()), confTapTimeout, sw, timestamp)
    {
      var elapsed := Sub32(timestamp, lastPressTime);
      lastPressTime := timestamp;
      if sw != currentSwitch || elapsed > confTapTimeout {
        currentSwitch := sw;
        transitionCount := 1;
        return;
      }
      if IsDown(transitionCount) || elapsed <= MinDelayMs {
        transitionCount := CountOffDown;
        return;
      }
      transitionCount := Inc32(transitionCount);
    }

    /** `SwitchUp`, with the activation it emits (if any). */
    method SwitchUp(sw: nat, timestamp: Dword, held: set<Vkey>) returns (act: Option<Activation>)
      requires Valid() && sw < MaxSwitches
      modifies this`currentSwitch, this`transitionCount
      ensures State() == UpTransition(old(State()), confTapTimeout, sw, timestamp).0
      ensures act == if UpTransition(old(State()), confTapTimeout, sw, timestamp).1
                     then Some(Activation(confIds[sw], AnyOtherModifierHeld(confVKeys[sw], held)))
                     else None
    {
      act := None;
      if sw != currentSwitch {
        currentSwitch := NoSwitch;
        return;
      }
      var elapsed := Sub32(timestamp, lastPressTime);
      if !IsDown(transitionCount) || elapsed <= MinDelayMs || elapsed > confTapTimeout {
        transitionCount := CountOffUp;
        return;
      }
      transitionCount := Inc32(transitionCount);
      if transitionCount == CountActivate {
        var a := SwitchActivate(sw, held);
        act := Some(a);
      }
    }

    /** The scan of `LowLevelKeyboardHook` over the configured keys. */
    method FindConfiguredSwitch(vk: Vkey) returns (r: Option<nat>)
      requires Valid()
      ensures r == FindSwitch(confVKeys[..], vk)
    {
      var i := 0;
      while i < MaxSwitches
        invariant 0 <= i <= MaxSwitches
        invariant FindSwitch(confVKeys[..], vk) == FindSwitchFrom(confVKeys[..], vk, i)
      {
        if vk == confVKeys[i] {
          return Some(i);
        } else if confVKeys[i] == 0 {
          return None;
        }
        i := i + 1;
      }
      return None;
    }

    /** `LowLevelKeyboardHook` for one keyboard event; hook codes other than
        `HC_ACTION` are passed on untouched. */
    method LowLevelKeyboardHook(code: int, ev: KeyEvent) returns (act: Option<Activation>)
      requires Valid()
      modifies this`currentSwitch, this`lastPressTime, this`transitionCount
      ensures code != HcAction ==> State() == old(State()) && act.None?
      ensures code == HcAction ==> (State(), act) == HookStep(Config(), old(State()), ev)
    {
      if code != HcAction {
        return None;
      }
      if !ev.injected {
        var found := FindConfiguredSwitch(ev.vk);
        if found.Some? {
          if ev.up {
            act := SwitchUp(found.value, ev.time, ev.held);
          } else {
            SwitchDown(found.value, ev.time);
            act := None;
          }
          return;
        }
      }
      currentSwitch := NoSwitch;
      act := None;
    }
  }
}
