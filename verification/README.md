# Pointer-mode detector and image-fallback registry

A Dafny model of the client-side core of the configurable-swatches catalog
extension:

- `PointerManager` (`pointer_manager.dfy`): the detector that decides whether
  the shopper is using a mouse or touch. Its global singleton is an
  immutable `Detector` record. Each handler is a pure function that returns a
  `Reaction`: the next record plus the notifications fired on the
  `mouse-detected` / `touch-detected` channels, each carrying its originating
  event. Time is an abstract millisecond clock `now`. The single replaceable
  `setTimeout` becomes `pointerTimeout`, the deadline of the one pending
  lock clear.
- `PointerTraces` (`pointer_traces.dfy`): input sequences. An input is an
  event delivered now, or the clock moving on. `Run` feeds a sequence to the
  detector. The lemmas state what holds over any sequence and over the
  debounce scenarios.
- `ConfigurableMediaImages` (`image_fallback.dfy`): the "do not overwrite
  already-loaded data" registration of a product's image fallback. It is a
  declarative merge over `map<ProductId, map<ImageKey, Data>>`, plus a
  method that follows the script's key-by-key loop and is proved equal to
  the merge.
- `Wrappers` (`wrappers.dfy`): the `Option` type.

Modelling choices:

- Browser facts are a `Browser` value passed to every operation that reads
  a browser fact. These are the navigator's `pointerEnabled` /
  `msPointerEnabled` flags and the capability probe's `ios` / `touch`
  answers. They do not change while a page lives.
- The input-type table is re-read on every event, as in the source. If it
  is empty, every entry reads as undefined, so an undefined pointerType
  would match the mouse case. This cannot arise under one `Browser`:
  `Init` binds the self-describing listener only when the browser has a
  pointer-event interface, `Run` never changes the listeners, and with
  either interface `Classify` never recognises an undefined pointerType.
- A lock clear that falls due at time `t` runs before an event delivered at
  `t`. So "within 500 ms" means strictly less than 500 ms.
- A timer that has fired is recorded as no pending clear. The source keeps
  the stale timer id, but cancelling a fired timer does nothing, so the two
  behave the same.
- The bound handlers are a tagged `Listeners` value chosen by the wiring
  step: none, one self-describing listener, or the competing touch/hover
  pair. As with the source's closures, handlers do not re-read
  `standardTouch`.
- The vendor-prefixed interface also sets `standardTouch` (app.js:118-120),
  so it never takes the lock.

## Model

| member | source | states |
|---|---|---|
| PointerManager.GetPointer | skin/frontend/base/default/tm/configurableswatches/js/app.js:66-78 | iOS always answers touch. Otherwise the recorded mode wins. Before any interaction the answer is touch exactly when the device advertises touch, so a mode is always returned. |
| PointerManager.SetPointerEventLockTimeout | skin/frontend/base/default/tm/configurableswatches/js/app.js:86-95 | The lock is held and the only pending clear is due one 500 ms window from now. Any earlier clear is superseded and never fires: from now on the lock is held for exactly 500 ms, whatever was pending before. Nothing else changes, and the lock invariant holds afterwards. |
| PointerManager.Elapse | skin/frontend/base/default/tm/configurableswatches/js/app.js:83-94 | Passing time runs the pending clear exactly when its deadline is reached. The lock is then held only if the deadline lies beyond the new time. Time never changes the recorded mode or the listeners, and the lock invariant is preserved. |
| PointerManager.Trigger | skin/frontend/base/default/tm/configurableswatches/js/app.js:97-112 | A transition to the mode already recorded changes nothing and fires nothing. A transition to a new mode records it and fires exactly one notification on that mode's channel, carrying the original event. |
| PointerManager.InitEnv | skin/frontend/base/default/tm/configurableswatches/js/app.js:114-124 | Picks one capability in priority order: pointer events, then vendor-prefixed events, then neither. The detection event is pointermove, MSPointerMove or touchstart. The first two set standardTouch; the third leaves it alone. |
| PointerManager.WirePointerDetection | skin/frontend/base/default/tm/configurableswatches/js/app.js:126-164 | With standardTouch, binds one self-describing listener on the detection event. Otherwise binds the competing touch and hover pair. Nothing else changes. |
| PointerManager.Init | skin/frontend/base/default/tm/configurableswatches/js/app.js:166-169 | From the declared state, standardTouch holds exactly when the browser has some pointer-event interface, and the matching listeners are bound. No mode is recorded and no lock is held. |
| PointerManager.PointerEventsInputTypes | skin/frontend/base/default/tm/configurableswatches/js/app.js:41-59 | The input-type table is 'mouse'/'touch'/'pen' for standard pointer events and 4/2/3 for the vendor-prefixed ones. Otherwise every entry reads as undefined. |
| PointerManager.Classify | skin/frontend/base/default/tm/configurableswatches/js/app.js:132-141 | Standard events: 'mouse' is mouse, 'touch' and 'pen' are touch, nothing else is recognised. Vendor-prefixed events: 4 is mouse, 2 and 3 are touch, nothing else is recognised. With either interface an undefined pointerType is never recognised. |
| PointerManager.HandleEvent | skin/frontend/base/default/tm/configurableswatches/js/app.js:129-163 | One delivered event fires at most one notification, and only for the mode the bound listeners intend for it. The self-describing listener triggers the classified mode and never consults or touches the lock. With the competing pair, a held lock makes every event a no-op; a released lock is engaged first, then the touchstart or hover transition fires. The lock invariant is preserved. |
| PointerTraces.Step | skin/frontend/base/default/tm/configurableswatches/js/app.js:80-164 | One input (an event or elapsed time) fires at most one notification. It keeps the mode chain, the listeners and the lock invariant. A released lock stays released under the self-describing listener. |
| PointerTraces.Run | skin/frontend/base/default/tm/configurableswatches/js/app.js:80-164 | Over any input sequence, the notifications are exactly the changes of the recorded mode. The lock is held exactly while one clear is pending within the next window. The self-describing listener never engages the lock. |
| PointerTraces.NotificationsAlternate | skin/frontend/base/default/tm/configurableswatches/js/app.js:97-112 | Over any run, two consecutive notifications are never on the same channel. The first announces a real change, and the last names the mode the detector ends in. With no notification, the mode is unchanged. |
| PointerTraces.OneModeNotifiesAtMostOnce | skin/frontend/base/default/tm/configurableswatches/js/app.js:97-112 | Input that can only mean one mode fires at most one notification, on that mode's channel. This holds however the input is timed and whatever lock it meets. |
| PointerTraces.RepeatedEventsNotifyOnce | skin/frontend/base/default/tm/configurableswatches/js/app.js:131-141 | N events that classify the same way under the self-describing listener fire exactly one notification, for the first event. If that mode was already recorded, they fire none. |
| PointerTraces.TouchThenSyntheticHover | skin/frontend/base/default/tm/configurableswatches/js/app.js:143-163 | With the competing listeners and a released lock, a touch followed by a hover less than 500 ms later records touch only. Only the touch notification fires. |
| PointerTraces.TouchThenLateHover | skin/frontend/base/default/tm/configurableswatches/js/app.js:143-163 | A hover 500 ms or more after the touch counts. Both transitions fire, touch first, and mouse ends up recorded. |
| PointerTraces.QueryAfterRun | skin/frontend/base/default/tm/configurableswatches/js/app.js:66-78 | After any run, the query answers touch on iOS. Otherwise it gives the mode of the last notification, then the mode recorded before the run, then the static touch guess. |
| ConfigurableMediaImages.AlreadyLoaded | skin/frontend/base/default/tm/configurableswatches/js/app.js:267-271 | An array counts as loaded exactly when it is non-empty. Any other value counts as loaded exactly when it is truthy. |
| ConfigurableMediaImages.MergeEntry | skin/frontend/base/default/tm/configurableswatches/js/app.js:263-277 | An existing entry keeps its loaded keys and the keys the fallback does not mention. Every other key of the fallback takes the fallback's value. |
| ConfigurableMediaImages.FallbackMerge | skin/frontend/base/default/tm/configurableswatches/js/app.js:262-279 | Other products are untouched. A product with no entry receives the whole fallback, unless the fallback is empty. For an existing product, loaded data survives, keys outside the fallback are unchanged, and the remaining fallback keys are stored. |
| ConfigurableMediaImages.SetImageFallback | skin/frontend/base/default/tm/configurableswatches/js/app.js:262-279 | The key-by-key loop gives the merge's result in any key enumeration order. This includes the first key storing the fallback object itself for a new product. |
| ConfigurableMediaImages.FallbackMergeIdempotent | skin/frontend/base/default/tm/configurableswatches/js/app.js:262-279 | Registering the same fallback a second time leaves the registry unchanged. |

## Left out

- DOM wiring: jQuery/Prototype event binding and the window-level trigger are modelled only as delivered events and the returned notification list.
- Real timers: `setTimeout`/`clearTimeout` are replaced by the abstract clock and one optional deadline. Timer jitter is not modelled: a clear runs exactly when its deadline is reached.
- The `ios` and `touch` probe answers and the navigator flags are given booleans, not derived from a user agent.
- `getPointerEventsSupported` (app.js:37-39) only reads back `standardTouch`, which the record exposes directly. `setPointerEventLock` (app.js:80-82) is folded into `SetPointerEventLockTimeout`, and `clearPointerEventLock` (app.js:83-85) into `Elapse`, which runs it when the deadline is reached.
- Calling `init` more than once: the source would bind a second set of handlers. The model's wiring replaces the listener set instead, and `Init` starts from the declared state.
- `pointerType` values are undefined, strings or integers, and numeric image-data values are integers. Other script values, such as fractional numbers or NaN, are not modelled. NaN image data is falsy, so the script would overwrite it; the model has no such value.
- Image-data objects have no `length` property of their own in the model. Entries are values, so the source's aliasing is not modelled: the stored entry of a new product is the caller's own fallback object.
- `ProductMediaManager` (app.js:176-226): DOM image swapping, srcset rewriting and zoom stubs, with no stateable contract.
- The wrappers around `Product.ConfigurableSwatches.prototype.initialize`, `ConfigurableMediaImages.init` and `arrayIntersect` (app.js:232-252, 281-289) patch code that is not part of this model.
- `Model/Observer.php` and `Helper/Data.php`: server-side framework glue (route checks, edition lookup, configuration flags) with no logic of its own.
