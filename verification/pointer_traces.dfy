/**
 Sequences of inputs fed to the pointer-mode detector, and the properties the
 detector keeps over them: notifications alternate between the two channels,
 the lock and its pending clear stay in step, the standard interface never
 engages the lock, and the debounce window suppresses a synthetic hover.
 */
module PointerTraces {
  import opened Wrappers
  import opened PointerManager

  /** One input: an event delivered now, or the clock moving on. */
  datatype Input = Deliver(event: RawEvent) | Wait(ms: nat)

  /** The lock is released and nothing is pending. */
  predicate Unlocked(d: Detector) {
    !d.pointerEventLock && d.pointerTimeout.None?
  }

  function Step(env: Browser, d: Detector, i: Input): (r: Reaction)
    ensures Chain(d.lastTouchType, r.emitted, r.next.lastTouchType)
    ensures r.next.listeners == d.listeners
    ensures |r.emitted| <= 1
    ensures LockInvariant(d) ==> LockInvariant(r.next)
    ensures d.listeners.StandardListener? && Unlocked(d) ==> Unlocked(r.next)
  {
    match i
    case Deliver(e) => HandleEvent(env, d, e)
    case Wait(ms) => Reaction(Elapse(d, ms), [])
  }

  /** Feeds `inputs` to the detector in order, collecting every notification. */
  function Run(env: Browser, d: Detector, inputs: seq<Input>): (r: Reaction)
    decreases |inputs|
    ensures Chain(d.lastTouchType, r.emitted, r.next.lastTouchType)
    ensures r.next.listeners == d.listeners
    ensures LockInvariant(d) ==> LockInvariant(r.next)
    ensures d.listeners.StandardListener? && Unlocked(d) ==> Unlocked(r.next)
  {
    if inputs == [] then Reaction(d, [])
    else
      var first := Step(env, d, inputs[0]);
      var rest := Run(env, first.next, inputs[1..]);
      ChainAppend(d.lastTouchType, first.emitted, first.next.lastTouchType,
                  rest.emitted, rest.next.lastTouchType);
      Reaction(rest.next, first.emitted + rest.emitted)
  }

  /** Every event of `events`, delivered back to back. */
  function Delivers(events: seq<RawEvent>): (r: seq<Input>)
    ensures |r| == |events|
    ensures forall i :: 0 <= i < |events| ==> r[i] == Deliver(events[i])
  {
    if events == [] then [] else [Deliver(events[0])] + Delivers(events[1..])
  }

  lemma {:induction false} ChainAppend(
    a: Option<PointerType>, l1: seq<Notification>, b: Option<PointerType>,
    l2: seq<Notification>, c: Option<PointerType>)
    requires Chain(a, l1, b) && Chain(b, l2, c)
    ensures Chain(a, l1 + l2, c)
    decreases |l1|
  {
    if l1 == [] {
      assert l1 + l2 == l2;
    } else {
      var m := ModeOf(l1[0].channel);
      ChainAppend(Some(m), l1[1..], b, l2, c);
      assert (l1 + l2)[0] == l1[0];
      assert (l1 + l2)[1..] == l1[1..] + l2;
    }
  }

  /** A chain never repeats a channel twice in a row, its first
      notification announces a change, and its last one names the mode it
      ends in. */
  lemma {:induction false} ChainAlternates(a: Option<PointerType>, log: seq<Notification>, b: Option<PointerType>)
    requires Chain(a, log, b)
    ensures log == [] ==> a == b
    ensures log != [] ==> a != Some(ModeOf(log[0].channel))
    ensures log != [] ==> b == Some(ModeOf(log[|log| - 1].channel))
    ensures forall i :: 0 < i < |log| ==> log[i].channel != log[i - 1].channel
    decreases |log|
  {
    if log != [] {
      var m := ModeOf(log[0].channel);
      ChainAlternates(Some(m), log[1..], b);
      forall i | 0 < i < |log|
        ensures log[i].channel != log[i - 1].channel
      {
        if i == 1 {
          if log[1..] != [] {
            assert Some(m) != Some(ModeOf(log[1].channel));
          }
        } else {
          assert log[1..][i - 1] == log[i] && log[1..][i - 2] == log[i - 1];
        }
      }
    }
  }

  /** Whatever happens, the notifications of a run alternate between the
      two channels, and the last one names the mode the detector ends in. */
  lemma {:induction false} NotificationsAlternate(env: Browser, d: Detector, inputs: seq<Input>)
    ensures var r := Run(env, d, inputs);
      && (r.emitted == [] ==> r.next.lastTouchType == d.lastTouchType)
      && (r.emitted != [] ==> r.next.lastTouchType == Some(ModeOf(r.emitted[|r.emitted| - 1].channel)))
      && (r.emitted != [] ==> d.lastTouchType != Some(ModeOf(r.emitted[0].channel)))
      && (forall i :: 0 < i < |r.emitted| ==> r.emitted[i].channel != r.emitted[i - 1].channel)
  {
    var r := Run(env, d, inputs);
    ChainAlternates(d.lastTouchType, r.emitted, r.next.lastTouchType);
  }

  /** No event of `inputs` can make the bound listeners act on a mode other than `m`. */
  predicate OnlyIntends(env: Browser, l: Listeners, inputs: seq<Input>, m: PointerType) {
    forall i :: 0 <= i < |inputs| && inputs[i].Deliver? ==>
      Intent(env, l, inputs[i].event) in {None, Some(m)}
  }

  /** Every notification of `log` is on channel `c`. */
  ghost predicate OnChannel(log: seq<Notification>, c: Channel) {
    forall i :: 0 <= i < |log| ==> log[i].channel == c
  }

  lemma {:induction false} OnlyIntendedChannel(env: Browser, d: Detector, inputs: seq<Input>, m: PointerType)
    requires OnlyIntends(env, d.listeners, inputs, m)
    ensures OnChannel(Run(env, d, inputs).emitted, ChannelOf(m))
    decreases |inputs|
  {
    if inputs != [] {
      var first := Step(env, d, inputs[0]);
      assert OnlyIntends(env, first.next.listeners, inputs[1..], m) by {
        forall i | 0 <= i < |inputs[1..]| && inputs[1..][i].Deliver?
          ensures Intent(env, first.next.listeners, inputs[1..][i].event) in {None, Some(m)}
        {
          assert inputs[1..][i] == inputs[i + 1];
        }
      }
      OnlyIntendedChannel(env, first.next, inputs[1..], m);
      var rest := Run(env, first.next, inputs[1..]);
      var log := Run(env, d, inputs).emitted;
      assert log == first.emitted + rest.emitted;
      assert first.emitted != [] ==> first.emitted[0].channel == ChannelOf(m) by {
        if first.emitted != [] {
          var e := inputs[0].event;
          assert first == HandleEvent(env, d, e);
          ChainAlternates(d.lastTouchType, first.emitted, first.next.lastTouchType);
          assert Intent(env, d.listeners, e) in {None, Some(m)};
        }
      }
      forall i | 0 <= i < |log|
        ensures log[i].channel == ChannelOf(m)
      {
        if i >= |first.emitted| {
          assert log[i] == rest.emitted[i - |first.emitted|];
        } else {
          assert i == 0 && log[i] == first.emitted[0];
        }
      }
    }
  }

  /** Input of one mode only, however it is timed and whatever lock it
      meets, fires at most one notification, on that mode's channel. */
  lemma {:induction false} OneModeNotifiesAtMostOnce(env: Browser, d: Detector, inputs: seq<Input>, m: PointerType)
    requires OnlyIntends(env, d.listeners, inputs, m)
    ensures OnChannel(Run(env, d, inputs).emitted, ChannelOf(m))
    ensures |Run(env, d, inputs).emitted| <= 1
  {
    var r := Run(env, d, inputs);
    OnlyIntendedChannel(env, d, inputs, m);
    if |r.emitted| > 1 {
      assert r.emitted[0].channel == ChannelOf(m) && r.emitted[1].channel == ChannelOf(m);
      ChainAlternates(d.lastTouchType, r.emitted, r.next.lastTouchType);
      assert false;
    }
  }

  /** With the self-describing listener, a run of events that all classify
      as `m` fires exactly one notification, for the first of them, unless
      `m` was already the recorded mode. */
  lemma {:induction false} RepeatedEventsNotifyOnce(env: Browser, d: Detector, events: seq<RawEvent>, m: PointerType)
    requires d.listeners.StandardListener?
    requires forall i :: 0 <= i < |events| ==>
      d.listeners.on == Some(events[i].kind) && Classify(env, events[i].pointerType) == Some(m)
    ensures var r := Run(env, d, Delivers(events));
      && r.emitted == (if events == [] || d.lastTouchType == Some(m) then []
                       else [Notification(ChannelOf(m), events[0])])
      && r.next.lastTouchType == (if events == [] then d.lastTouchType else Some(m))
    decreases |events|
  {
    if events != [] {
      var inputs := Delivers(events);
      assert inputs[0] == Deliver(events[0]);
      assert inputs[1..] == Delivers(events[1..]);
      var first := Step(env, d, inputs[0]);
      assert first == Trigger(d, m, events[0]);
      RepeatedEventsNotifyOnce(env, first.next, events[1..], m);
    }
  }

  /** A run of three inputs is its three steps, one after another. */
  lemma {:induction false} RunThree(env: Browser, d: Detector, inputs: seq<Input>)
    requires |inputs| == 3
    ensures var s1 := Step(env, d, inputs[0]);
      var s2 := Step(env, s1.next, inputs[1]);
      var s3 := Step(env, s2.next, inputs[2]);
      Run(env, d, inputs) == Reaction(s3.next, s1.emitted + s2.emitted + s3.emitted)
  {
    var s1 := Step(env, d, inputs[0]);
    var s2 := Step(env, s1.next, inputs[1]);
    var s3 := Step(env, s2.next, inputs[2]);
    assert inputs[1..][1..][1..] == [];
    assert Run(env, s2.next, inputs[1..][1..]) == Reaction(s3.next, s3.emitted + []);
    assert Run(env, s1.next, inputs[1..]) == Reaction(s3.next, s2.emitted + (s3.emitted + []));
    assert s1.emitted + (s2.emitted + (s3.emitted + [])) == s1.emitted + s2.emitted + s3.emitted;
  }

  /** With the competing listeners, a touch followed within the window by
      the synthetic hover records touch alone. */
  lemma {:induction false} TouchThenSyntheticHover(env: Browser, d: Detector, touch: RawEvent, hover: RawEvent, ms: nat)
    requires d.listeners == CompetingListeners(Some(TouchStart))
    requires !d.pointerEventLock
    requires touch.kind == TouchStart && hover.kind == MouseOver
    requires ms < PointerEventTimeoutMs
    ensures var r := Run(env, d, [Deliver(touch), Wait(ms), Deliver(hover)]);
      && r.emitted == (if d.lastTouchType == Some(Touch) then []
                       else [Notification(TouchDetected, touch)])
      && r.next.lastTouchType == Some(Touch)
      && r.next.pointerEventLock
  {
    var inputs := [Deliver(touch), Wait(ms), Deliver(hover)];
    var s1 := Step(env, d, inputs[0]);
    assert s1 == Trigger(SetPointerEventLockTimeout(d), Touch, touch);
    var s2 := Step(env, s1.next, inputs[1]);
    assert s2.next.pointerEventLock;
    var s3 := Step(env, s2.next, inputs[2]);
    assert s3 == Reaction(s2.next, []);
    RunThree(env, d, inputs);
  }

  /** A hover arriving once the window has passed counts: both
      transitions happen, touch first. */
  lemma {:induction false} TouchThenLateHover(env: Browser, d: Detector, touch: RawEvent, hover: RawEvent, ms: nat)
    requires d.listeners == CompetingListeners(Some(TouchStart))
    requires !d.pointerEventLock
    requires touch.kind == TouchStart && hover.kind == MouseOver
    requires ms >= PointerEventTimeoutMs
    ensures var r := Run(env, d, [Deliver(touch), Wait(ms), Deliver(hover)]);
      && r.emitted == (if d.lastTouchType == Some(Touch) then [] else [Notification(TouchDetected, touch)])
                      + [Notification(MouseDetected, hover)]
      && r.next.lastTouchType == Some(Mouse)
  {
    var inputs := [Deliver(touch), Wait(ms), Deliver(hover)];
    var s1 := Step(env, d, inputs[0]);
    assert s1 == Trigger(SetPointerEventLockTimeout(d), Touch, touch);
    var s2 := Step(env, s1.next, inputs[1]);
    assert !s2.next.pointerEventLock;
    var s3 := Step(env, s2.next, inputs[2]);
    assert s3 == Trigger(SetPointerEventLockTimeout(s2.next), Mouse, hover);
    RunThree(env, d, inputs);
  }

  /** When the query is asked after any run: touch on iOS, otherwise the
      mode of the last notification, otherwise the static guess. */
  lemma {:induction false} QueryAfterRun(env: Browser, d: Detector, inputs: seq<Input>)
    ensures var r := Run(env, d, inputs);
      GetPointer(env, r.next) ==
        if env.ios then Touch
        else if r.emitted != [] then ModeOf(r.emitted[|r.emitted| - 1].channel)
        else if d.lastTouchType.Some? then d.lastTouchType.value
        else if env.touch then Touch
        else Mouse
  {
    NotificationsAlternate(env, d, inputs);
  }
}
