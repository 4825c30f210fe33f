/**
 The pointer-mode detector of the configurable-swatches script.

 The detector decides whether the user is currently interacting by mouse or by
 touch. Its mutable singleton is modelled as an immutable `Detector` record and
 every handler as a pure function from the old record to a `Reaction`: the new
 record plus the notifications ("mouse-detected" / "touch-detected") the
 handler fired, in order. Time is an abstract millisecond clock `now` with at
 most one pending lock-clearing deadline.
 */
module PointerManager {
  import opened Wrappers

  /** The two pointer modes, 'mouse' and 'touch'. */
  datatype PointerType = Mouse | Touch

  /** Length of the debounce window, in milliseconds. */
  const PointerEventTimeoutMs: nat := 500

  /** Static facts about the browser: the navigator's pointer-event flags
      and the capability probe's `ios` and `touch` answers. They do not
      change while a page lives. */
  datatype Browser = Browser(
    pointerEnabled: bool,
    msPointerEnabled: bool,
    ios: bool,
    touch: bool)

  /** Which native pointer-event interface the browser exposes. */
  datatype Capability = PointerEvents | MSPointerEvents | NoPointerEvents

  /** The names of the DOM events the detector may listen to. */
  datatype EventType = PointerMove | MSPointerMove | TouchStart | MouseOver | OtherEvent

  /** The script-side values a `pointerType` field may hold. */
  datatype JsValue = Undefined | Str(s: string) | Num(n: int)

  /** A raw input event; `id` stands for the event object's identity. */
  datatype RawEvent = RawEvent(kind: EventType, pointerType: JsValue, id: nat)

  /** The two notification channels fired on the window. */
  datatype Channel = MouseDetected | TouchDetected

  /** One fired notification, carrying the event that caused it. */
  datatype Notification = Notification(channel: Channel, payload: RawEvent)

  /** The handlers bound by the wiring step. The competing pair is a touch
      handler on `touchOn` and a mouse handler on `mouseover`. */
  datatype Listeners =
    | NoListeners
    | StandardListener(on: Option<EventType>)
    | CompetingListeners(touchOn: Option<EventType>)

  /** The detector's state. `pointerTimeout` is the deadline of the pending
      lock clear, if one is scheduled and has not fired yet. */
  datatype Detector = Detector(
    standardTouch: bool,
    touchDetectionEvent: Option<EventType>,
    listeners: Listeners,
    lastTouchType: Option<PointerType>,
    pointerEventLock: bool,
    pointerTimeout: Option<nat>,
    now: nat)

  /** What a handler leaves behind: the next state and the notifications it fired. */
  datatype Reaction = Reaction(next: Detector, emitted: seq<Notification>)

  /** The detector as declared, before any initialisation, at time 0. */
  const Initial: Detector :=
    Detector(false, None, NoListeners, None, false, None, 0)

  function ChannelOf(m: PointerType): Channel {
    match m
    case Mouse => MouseDetected
    case Touch => TouchDetected
  }

  function ModeOf(c: Channel): (m: PointerType)
    ensures ChannelOf(m) == c
  {
    match c
    case MouseDetected => Mouse
    case TouchDetected => Touch
  }

  /** `log` is exactly the notifications of a walk of `lastTouchType` from
      `from` to `to`: every notification announces a mode different from
      the current one and makes it current, and nothing else changes it. */
  ghost predicate Chain(from: Option<PointerType>, log: seq<Notification>, to: Option<PointerType>)
    decreases |log|
  {
    if log == [] then from == to
    else
      var m := ModeOf(log[0].channel);
      from != Some(m) && Chain(Some(m), log[1..], to)
  }

  /** The lock is held exactly while a clear is pending, and that clear is
      due strictly later than now and at most one window away. */
  ghost predicate LockInvariant(d: Detector) {
    && (d.pointerEventLock <==> d.pointerTimeout.Some?)
    && (d.pointerTimeout.Some? ==>
          d.now < d.pointerTimeout.value <= d.now + PointerEventTimeoutMs)
  }

  /** The query: the mode consumers should assume right now. */
  function GetPointer(env: Browser, d: Detector): (r: PointerType)
    ensures env.ios ==> r == Touch
    ensures !env.ios && d.lastTouchType.Some? ==> r == d.lastTouchType.value
    ensures !env.ios && d.lastTouchType.None? ==> (r == Touch <==> env.touch)
  {
    if env.ios then Touch
    else if d.lastTouchType.Some? then d.lastTouchType.value
    else if env.touch then Touch
    else Mouse
  }

  /** Engages the lock and replaces any pending clear by one due a full
      window from now. */
  function SetPointerEventLockTimeout(d: Detector): (r: Detector)
    ensures r.pointerEventLock
    ensures r.pointerTimeout == Some(d.now + PointerEventTimeoutMs)
    ensures r == d.(pointerEventLock := true, pointerTimeout := r.pointerTimeout)
    ensures LockInvariant(r)
    ensures forall ms: nat :: Elapse(r, ms).pointerEventLock <==> ms < PointerEventTimeoutMs
  {
    d.(pointerEventLock := true, pointerTimeout := Some(d.now + PointerEventTimeoutMs))
  }

  /** Whether letting `ms` milliseconds pass reaches the pending deadline. */
  predicate TimerDue(d: Detector, ms: nat) {
    d.pointerTimeout.Some? && d.pointerTimeout.value <= d.now + ms
  }

  /** Lets `ms` milliseconds pass; a pending clear that falls due runs
      before anything delivered at the new time. The clear's callback
      releases the lock, and the fired timer is no longer pending. */
  function Elapse(d: Detector, ms: nat): (r: Detector)
    ensures r.now == d.now + ms
    ensures TimerDue(d, ms) ==> !r.pointerEventLock && r.pointerTimeout.None?
    ensures !TimerDue(d, ms) ==> r == d.(now := d.now + ms)
    ensures r.lastTouchType == d.lastTouchType && r.listeners == d.listeners
    ensures LockInvariant(d) ==> LockInvariant(r)
    ensures LockInvariant(d) ==>
              (r.pointerEventLock <==> d.pointerEventLock && d.pointerTimeout.value > d.now + ms)
  {
    if TimerDue(d, ms) then
      d.(pointerEventLock := false, pointerTimeout := None, now := d.now + ms)
    else
      d.(now := d.now + ms)
  }

  /** Switches to `target`, firing its notification, unless `target` is
      already the last recorded mode, in which case nothing happens. */
  function Trigger(d: Detector, target: PointerType, e: RawEvent): (r: Reaction)
    ensures r.next == d.(lastTouchType := Some(target))
    ensures d.lastTouchType == Some(target) ==> r.next == d && r.emitted == []
    ensures d.lastTouchType != Some(target) ==>
              r.emitted == [Notification(ChannelOf(target), e)]
    ensures Chain(d.lastTouchType, r.emitted, r.next.lastTouchType)
  {
    if d.lastTouchType == Some(target) then
      Reaction(d, [])
    else
      Reaction(d.(lastTouchType := Some(target)), [Notification(ChannelOf(target), e)])
  }

  /** The browser's capability, chosen in priority order. */
  function CapabilityOf(env: Browser): Capability {
    if env.pointerEnabled then PointerEvents
    else if env.msPointerEnabled then MSPointerEvents
    else NoPointerEvents
  }

  /** The event each capability uses to detect the pointer. */
  function DetectionEventOf(c: Capability): EventType {
    match c
    case PointerEvents => PointerMove
    case MSPointerEvents => MSPointerMove
    case NoPointerEvents => TouchStart
  }

  /** Records the capability: the detection event, and whether events
      describe their own pointer type. The last branch leaves
      `standardTouch` as it was. */
  function InitEnv(env: Browser, d: Detector): (r: Detector)
    ensures r.touchDetectionEvent == Some(DetectionEventOf(CapabilityOf(env)))
    ensures CapabilityOf(env) != NoPointerEvents ==> r.standardTouch
    ensures CapabilityOf(env) == NoPointerEvents ==> r.standardTouch == d.standardTouch
    ensures r == d.(standardTouch := r.standardTouch, touchDetectionEvent := r.touchDetectionEvent)
  {
    if env.pointerEnabled then
      d.(standardTouch := true, touchDetectionEvent := Some(PointerMove))
    else if env.msPointerEnabled then
      d.(standardTouch := true, touchDetectionEvent := Some(MSPointerMove))
    else
      d.(touchDetectionEvent := Some(TouchStart))
  }

  /** Binds one self-describing listener when events carry their pointer
      type, the competing touch and mouse listeners otherwise. */
  function WirePointerDetection(d: Detector): (r: Detector)
    ensures d.standardTouch ==> r.listeners == StandardListener(d.touchDetectionEvent)
    ensures !d.standardTouch ==> r.listeners == CompetingListeners(d.touchDetectionEvent)
    ensures r == d.(listeners := r.listeners)
  {
    if d.standardTouch then d.(listeners := StandardListener(d.touchDetectionEvent))
    else d.(listeners := CompetingListeners(d.touchDetectionEvent))
  }

  /** Initialisation of the declared detector: capability, then wiring. */
  function Init(env: Browser): (r: Detector)
    ensures CapabilityOf(env) != NoPointerEvents <==> r.standardTouch
    ensures CapabilityOf(env) != NoPointerEvents ==>
              r.listeners == StandardListener(Some(DetectionEventOf(CapabilityOf(env))))
    ensures CapabilityOf(env) == NoPointerEvents ==>
              r.listeners == CompetingListeners(Some(TouchStart))
    ensures r.lastTouchType.None? && !r.pointerEventLock && r.pointerTimeout.None?
    ensures LockInvariant(r)
    ensures GetPointer(env, r) == (if env.ios || env.touch then Touch else Mouse)
  {
    WirePointerDetection(InitEnv(env, Initial))
  }

  /** The values `pointerType` takes for mouse, touch and pen. */
  datatype InputTypes = InputTypes(mouse: JsValue, touch: JsValue, pen: JsValue)

  /** The input-type table for the browser: strings for the standard
      interface, the numeric codes 4, 2, 3 for the vendor-prefixed one, and
      an empty table, whose every entry reads as undefined, otherwise. */
  function PointerEventsInputTypes(env: Browser): (r: InputTypes)
    ensures CapabilityOf(env) == PointerEvents ==>
              r == InputTypes(Str("mouse"), Str("touch"), Str("pen"))
    ensures CapabilityOf(env) == MSPointerEvents ==>
              r == InputTypes(Num(4), Num(2), Num(3))
    ensures CapabilityOf(env) == NoPointerEvents ==>
              r == InputTypes(Undefined, Undefined, Undefined)
  {
    if env.pointerEnabled then InputTypes(Str("mouse"), Str("touch"), Str("pen"))
    else if env.msPointerEnabled then InputTypes(Num(0x00000004), Num(0x00000002), Num(0x00000003))
    else InputTypes(Undefined, Undefined, Undefined)
  }

  /** The switch over an event's `pointerType`, compared strictly and in
      case order: mouse first, then touch and pen together. */
  function Classify(env: Browser, pointerType: JsValue): (r: Option<PointerType>)
    ensures CapabilityOf(env) == PointerEvents ==>
      && (pointerType == Str("mouse") ==> r == Some(Mouse))
      && (pointerType == Str("touch") || pointerType == Str("pen") ==> r == Some(Touch))
      && (r.Some? ==> pointerType in {Str("mouse"), Str("touch"), Str("pen")})
    ensures CapabilityOf(env) == MSPointerEvents ==>
      && (pointerType == Num(4) ==> r == Some(Mouse))
      && (pointerType == Num(2) || pointerType == Num(3) ==> r == Some(Touch))
      && (r.Some? ==> pointerType in {Num(4), Num(2), Num(3)})
    ensures CapabilityOf(env) != NoPointerEvents && pointerType == Undefined ==> r.None?
  {
    var types := PointerEventsInputTypes(env);
    if pointerType == types.mouse then Some(Mouse)
    else if pointerType == types.touch || pointerType == types.pen then Some(Touch)
    else None
  }

  /** The mode the bound listeners would act on for `e`, before any lock
      is consulted; `None` when no bound listener reacts to `e`. */
  function Intent(env: Browser, l: Listeners, e: RawEvent): Option<PointerType> {
    match l
    case NoListeners => None
    case StandardListener(on) =>
      if on == Some(e.kind) then Classify(env, e.pointerType) else None
    case CompetingListeners(touchOn) =>
      if touchOn == Some(e.kind) then Some(Touch)
      else if e.kind == MouseOver then Some(Mouse)
      else None
  }

  /** Delivers one event to the bound listeners. */
  function HandleEvent(env: Browser, d: Detector, e: RawEvent): (r: Reaction)
    ensures r.next.now == d.now && r.next.listeners == d.listeners
    ensures Chain(d.lastTouchType, r.emitted, r.next.lastTouchType)
    ensures |r.emitted| <= 1
    ensures r.next.lastTouchType != d.lastTouchType || r.emitted != [] ==>
              Intent(env, d.listeners, e).Some? &&
              r.next.lastTouchType == Intent(env, d.listeners, e)
    ensures r.emitted != [] ==> r.emitted[0].payload == e
    ensures !d.listeners.CompetingListeners? ==>
              r.next.pointerEventLock == d.pointerEventLock &&
              r.next.pointerTimeout == d.pointerTimeout
    ensures d.listeners.StandardListener? ==>
              if Intent(env, d.listeners, e).Some? then r == Trigger(d, Intent(env, d.listeners, e).value, e)
              else r == Reaction(d, [])
    ensures d.listeners.CompetingListeners? ==>
              if d.pointerEventLock || Intent(env, d.listeners, e).None? then r == Reaction(d, [])
              else r == Trigger(SetPointerEventLockTimeout(d), Intent(env, d.listeners, e).value, e)
    ensures LockInvariant(d) ==> LockInvariant(r.next)
  {
    match d.listeners
    case NoListeners => Reaction(d, [])
    case StandardListener(on) =>
      if on == Some(e.kind) then
        match Classify(env, e.pointerType)
        case Some(m) => Trigger(d, m, e)
        case None => Reaction(d, [])
      else Reaction(d, [])
    case CompetingListeners(touchOn) =>
      if touchOn == Some(e.kind) then
        if d.pointerEventLock then Reaction(d, [])
        else Trigger(SetPointerEventLockTimeout(d), Touch, e)
      else if e.kind == MouseOver then
        if d.pointerEventLock then Reaction(d, [])
        else Trigger(SetPointerEventLockTimeout(d), Mouse, e)
      else Reaction(d, [])
  }
}
