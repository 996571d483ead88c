/**
 * The double-back-to-exit hook: the first press of the browser's back button shows a warning
 * and cancels the navigation; a second press within two seconds leaves. The clock reading of
 * each press is an input.
 */
module DoubleBackExit {
  /** Presses closer together than this many milliseconds exit. */
  const Window := 2000

  const Warning := "Presiona dos veces para salir"

  /** What the hook asks of the browser. */
  datatype Effect = PushState | Back | Alert(message: string)

  /** What a `popstate` does. */
  datatype Decision = Ignore | Exit | Warn

  /** `handlePopState`'s choice, for the modal flag it closed over and the last warning time. */
  function Decide(modalOpen: bool, lastPress: int, now: int): Decision {
    if modalOpen then Ignore else if now - lastPress < Window then Exit else Warn
  }

  /** The listener's state: the `lastPress` ref and whether the `popstate` handler is attached. */
  datatype Listener = Listener(lastPress: int, attached: bool)

  datatype Outcome = Outcome(listener: Listener, effects: seq<Effect>)

  /** One back press at time `now`. */
  function Press(l: Listener, modalOpen: bool, now: int): (o: Outcome)
    ensures !l.attached || modalOpen ==> o == Outcome(l, [])
    ensures l.attached && !modalOpen && now - l.lastPress < Window ==>
              o == Outcome(l.(attached := false), [Back])
    ensures l.attached && !modalOpen && now - l.lastPress >= Window ==>
              o == Outcome(Listener(now, true), [Alert(Warning), PushState])
  {
    if !l.attached then Outcome(l, [])
    else
      match Decide(modalOpen, l.lastPress, now)
      case Ignore => Outcome(l, [])
      case Exit => Outcome(l.(attached := false), [Back])
      case Warn => Outcome(Listener(now, true), [Alert(Warning), PushState])
  }

  /** A run of presses at the given times, with the modal flag fixed. */
  function Run(l: Listener, modalOpen: bool, times: seq<int>): Outcome
    decreases |times|
  {
    if |times| == 0 then Outcome(l, [])
    else
      var first := Press(l, modalOpen, times[0]);
      var rest := Run(first.listener, modalOpen, times[1..]);
      Outcome(rest.listener, first.effects + rest.effects)
  }

  /** The listener as the hook's effect leaves it on mount: `lastPress` is 0. */
  const Mounted := Listener(0, true)

  // ---------------------------------------------------------------- properties

  /** The window is strict: a press exactly two seconds after the warning warns again. */
  lemma ExactWindowWarns(last: int)
    ensures Decide(false, last, last + Window) == Warn
    ensures forall now | last <= now < last + Window :: Decide(false, last, now) == Exit
  {
  }

  /** From the initial `lastPress` of 0, a first press at a clock reading of 2000 or more warns. */
  lemma FirstPressWarns(now: int)
    requires now >= Window
    ensures Press(Mounted, false, now) == Outcome(Listener(now, true), [Alert(Warning), PushState])
  {
  }

  /** While a modal is open every press is ignored, so any run of presses changes nothing. */
  lemma {:induction false} ModalIgnoresPresses(l: Listener, times: seq<int>)
    ensures Run(l, true, times) == Outcome(l, [])
    decreases |times|
  {
    if |times| > 0 {
      ModalIgnoresPresses(l, times[1..]);
    }
  }

  /** Once the handler is detached, no later press has any effect. */
  lemma {:induction false} DetachedIsInert(l: Listener, modalOpen: bool, times: seq<int>)
    requires !l.attached
    ensures Run(l, modalOpen, times) == Outcome(l, [])
    decreases |times|
  {
    if |times| > 0 {
      DetachedIsInert(l, modalOpen, times[1..]);
    }
  }

  /**
   * Two presses less than two seconds apart, the first at least two seconds after mounting, warn
   * and then go back, after which the handler is gone.
   */
  lemma DoublePressExits(t1: int, t2: int)
    requires t1 >= Window && t2 - t1 < Window
    ensures Run(Mounted, false, [t1, t2]) == Outcome(Listener(t1, false), [Alert(Warning), PushState, Back])
  {
    var warned := Listener(t1, true);
    assert Press(Mounted, false, t1) == Outcome(warned, [Alert(Warning), PushState]);
    assert Press(warned, false, t2) == Outcome(Listener(t1, false), [Back]);
    assert [t1, t2][1..] == [t2];
    assert [t2][1..] == [];
    assert Run(Listener(t1, false), false, []) == Outcome(Listener(t1, false), []);
    assert Run(warned, false, [t2]) == Outcome(Listener(t1, false), [Back] + []);
    assert [Alert(Warning), PushState] + ([Back] + []) == [Alert(Warning), PushState, Back];
  }

  /** Presses spaced at least two seconds apart only ever warn: the app is never left. */
  lemma {:induction false} SpacedPressesNeverExit(l: Listener, times: seq<int>)
    requires l.attached
    requires |times| > 0 ==> times[0] - l.lastPress >= Window
    requires forall k | 0 < k < |times| :: times[k] - times[k - 1] >= Window
    ensures Run(l, false, times).listener.attached
    ensures |times| > 0 ==> Run(l, false, times).listener.lastPress == times[|times| - 1]
    decreases |times|
  {
    if |times| > 0 {
      var next := Listener(times[0], true);
      assert Press(l, false, times[0]).listener == next;
      var rest := times[1..];
      assert forall k | 0 < k < |rest| :: rest[k] - rest[k - 1] >= Window by {
        forall k | 0 < k < |rest| ensures rest[k] - rest[k - 1] >= Window {
          assert rest[k] == times[k + 1] && rest[k - 1] == times[k];
        }
      }
      SpacedPressesNeverExit(next, rest);
    }
  }

  /**
   * The hook as mounted in a component: the `lastPress` ref, the attached handler with the modal
   * flag its effect closed over, and the browser requests made so far.
   */
  class BackExitHook {
    var listener: Listener
    var modalOpen: bool
    var effects: seq<Effect>

    /** Mounting runs the effect: one state is pushed and the handler attached. */
    constructor(isModalOpen: bool)
      ensures listener == Mounted && modalOpen == isModalOpen && effects == [PushState]
    {
      listener := Mounted;
      modalOpen := isModalOpen;
      effects := [PushState];
    }

    /** A `popstate` event at clock reading `now`. */
    method PopState(now: int)
      modifies this
      ensures listener == Press(old(listener), modalOpen, now).listener
      ensures effects == old(effects) + Press(old(listener), modalOpen, now).effects
      ensures modalOpen == old(modalOpen)
    {
      var o := Press(listener, modalOpen, now);
      listener := o.listener;
      effects := effects + o.effects;
    }

    /**
     * A change of `isModalOpen` re-runs the effect: the old handler is removed, a state is pushed
     * and a handler closing over the new flag is attached; `lastPress` survives.
     */
    method SetModalOpen(isModalOpen: bool)
      modifies this
      ensures old(modalOpen) == isModalOpen ==> listener == old(listener) && effects == old(effects)
      ensures old(modalOpen) != isModalOpen ==>
                listener == Listener(old(listener).lastPress, true) && effects == old(effects) + [PushState]
      ensures modalOpen == isModalOpen
    {
      if modalOpen != isModalOpen {
        listener := listener.(attached := true);
        effects := effects + [PushState];
        modalOpen := isModalOpen;
      }
    }

    /** Unmounting runs the cleanup, which removes the handler. */
    method Unmount()
      modifies this
      ensures listener == old(listener).(attached := false)
      ensures modalOpen == old(modalOpen) && effects == old(effects)
    {
      listener := listener.(attached := false);
    }
  }
}
