# Floating views of the launcher

The launcher draws overlays above its home screen: folders, popups, widget
sheets, snackbars and the like. Each one is an `AbstractFloatingView` added as
a child of the activity's drag layer. This project models that base class in
Dafny and proves what it promises:

- the overlay-type flags (`TYPE_*`) and the masks built from them;
- a view's open/closed state, `close` and `onBackPressed`;
- the static registry operations that find the top-most open overlay of a type
  and close overlays by type.

Two modules:

- `FloatingViewTypes` (`FloatingViewTypes.dfy`) is pure. The twelve flags and
  five derived masks are `bv32` constants written as in the source. Java's
  `|`, `&` and `~` on `int` act bit for bit, exactly like `|`, `&` and `!` on
  `bv32`. One `Kind` per flag gives the set view of a mask (`KindsOf`).
- `FloatingViews` (`FloatingViews.dfy`) is imperative. It has a class for the
  activity, one for the drag layer (its `children` are a `seq`), and one for
  the floating view (a mutable `open` field). The registry operations are
  methods with the source's loops, proved against the specification functions
  `TopOpenBelow` and `CloseTrace`.

Calls to code outside the class are not performed. A subclass's `handleClose`
and `logActionCommand`, the user-event dispatcher's
`resetElapsedContainerMillis` and the activity's `finishAutoCancelActionMode`
each append one `Event` to the activity's `trace` instead. Contracts can then
state which calls happen, how often, in what order and with which arguments.

A subclass's `isOfType` is a per-view function `ofType: bv32 -> bool`. Most
overlays implement it as `(mask & type) != 0` for their own mask, and the
predicate `TypedByMask` states that case. The global animation setting
(`Utilities.areAnimationsEnabled`) is a constant of the activity.

Two behaviours of the code that the contracts make explicit:

- `close` runs `handleClose` and clears `mIsOpen` even on a view that is
  already closed. Only the dispatcher reset depends on `mIsOpen`
  (AbstractFloatingView.java:125-133). The hook runs before `mIsOpen` is
  cleared, and a subclass can read that protected field. So the recorded
  `HandledClose` event carries the value of `open` at the time of the call.
- `closeAllOpenViewsExcept(t)` closes the views of type `TYPE_ALL & ~t`, open
  or not (AbstractFloatingView.java:247-251). A view that answers to several
  flags is closed when any of them lies outside `t`. A view of a single kind is
  spared exactly when `t` has its flag (`ExceptSparesOwnKind`).

## Model

| member | source | states |
|---|---|---|
| FloatingViewTypes.KindOrderIsComplete | app/src/main/java/com/android/launcher3/AbstractFloatingView.java:69-82 | the twelve kinds are listed once each, in the order of their bits |
| FloatingViewTypes.FlagsAreDistinctSingleBits | app/src/main/java/com/android/launcher3/AbstractFloatingView.java:69-82 | each kind's flag is the single bit at its position, and the flags of different kinds share no bit |
| FloatingViewTypes.AllIsExactlyTheFlags | app/src/main/java/com/android/launcher3/AbstractFloatingView.java:84-87 | `TYPE_ALL` has bit i exactly when i < 12, so its kinds are all twelve |
| FloatingViewTypes.DerivedMasks | app/src/main/java/com/android/launcher3/AbstractFloatingView.java:89-104 | the rebind-safe, hide-back-button, accessible and status-bar masks have no bit outside `TYPE_ALL`, and each of the first, second and last has exactly its listed kinds |
| FloatingViewTypes.AccessibleKinds | app/src/main/java/com/android/launcher3/AbstractFloatingView.java:98-99 | `TYPE_ACCESSIBLE` is `TYPE_ALL` minus exactly the discovery-bounce, listener and all-apps-education kinds |
| FloatingViewTypes.ExceptKind | app/src/main/java/com/android/launcher3/AbstractFloatingView.java:249 | a kind passes the filter `TYPE_ALL & ~t` iff `t` lacks its flag |
| FloatingViewTypes.ExceptFilter | app/src/main/java/com/android/launcher3/AbstractFloatingView.java:249 | for every `t`, the filter `TYPE_ALL & ~t` has exactly the kinds `t` lacks and no bit outside `TYPE_ALL` |
| FloatingViews.FloatingView.constructor | app/src/main/java/com/android/launcher3/AbstractFloatingView.java:106-114 | a new view belongs to its activity, has its type test, and starts closed |
| FloatingViews.FloatingView.IsOpen | app/src/main/java/com/android/launcher3/AbstractFloatingView.java:150-152 | the view's open flag |
| FloatingViews.FloatingView.IsOfType | app/src/main/java/com/android/launcher3/AbstractFloatingView.java:154 | the view's own type test applied to the filter |
| FloatingViews.FloatingView.HandleClose | app/src/main/java/com/android/launcher3/AbstractFloatingView.java:135 | the subclass's close hook is recorded with its `animate` argument and the open flag it sees |
| FloatingViews.FloatingView.LogActionCommand | app/src/main/java/com/android/launcher3/AbstractFloatingView.java:144 | the subclass's logging hook is recorded with its command |
| FloatingViews.FloatingView.Close | app/src/main/java/com/android/launcher3/AbstractFloatingView.java:125-133 | the view ends closed; the dispatcher reset with "container closed" happens iff it was open; then `handleClose` runs once with `animate && animationsEnabled`, while the open flag still has its value from entry |
| FloatingViews.CloseEventsEffect | app/src/main/java/com/android/launcher3/AbstractFloatingView.java:125-133 | one close runs the hook of its own view exactly once, last, with the given `animate` and seeing the open flag from before the call, and resets the timer once iff the view was open |
| FloatingViews.FloatingView.OnBackPressed | app/src/main/java/com/android/launcher3/AbstractFloatingView.java:156-161 | logs command 1, then closes with animation, and reports the back press as consumed |
| FloatingViews.TopOpenBelow | app/src/main/java/com/android/launcher3/AbstractFloatingView.java:202-211 | the highest index below n of an open child of the type; no child between it and n is one; None means no child below n is one |
| FloatingViews.GetOpenView | app/src/main/java/com/android/launcher3/AbstractFloatingView.java:196-212 | null without a drag layer or without an open child of the type, else the top-most such child |
| FloatingViews.GetTopOpenViewWithType | app/src/main/java/com/android/launcher3/AbstractFloatingView.java:262-265 | the same answer as `GetOpenView` |
| FloatingViews.GetTopOpenView | app/src/main/java/com/android/launcher3/AbstractFloatingView.java:258-260 | the top-most open child of any type in `TYPE_ALL`, or null |
| FloatingViews.CloseOpenContainer | app/src/main/java/com/android/launcher3/AbstractFloatingView.java:214-220 | closes with animation exactly the view `getOpenView` would find and no other; changes nothing when there is none |
| FloatingViews.CloseOpenViews | app/src/main/java/com/android/launcher3/AbstractFloatingView.java:222-236 | every child of the type ends closed and the others keep their state; the calls are those of closing each matching child from the last down; afterwards no open child of the type is left; the child list is unchanged |
| FloatingViews.CloseStepHandles | app/src/main/java/com/android/launcher3/AbstractFloatingView.java:229-233 | visiting one child runs `handleClose` on its view iff it is a floating view of the type |
| FloatingViews.CloseTraceHandlesEachMatchOnce | app/src/main/java/com/android/launcher3/AbstractFloatingView.java:227-235 | the close loop runs `handleClose` exactly once on each child of the type, on no other view, in descending index order |
| FloatingViews.CloseTraceResetsOncePerOpenMatch | app/src/main/java/com/android/launcher3/AbstractFloatingView.java:227-235 | the close loop resets the dispatcher timer once per child that was open and of the type |
| FloatingViews.CloseTraceAnimates | app/src/main/java/com/android/launcher3/AbstractFloatingView.java:227-235 | every `handleClose` the close loop runs gets the same masked `animate` |
| FloatingViews.CloseAllOpenViews | app/src/main/java/com/android/launcher3/AbstractFloatingView.java:238-245 | `closeOpenViews` with `TYPE_ALL`, then one `finishAutoCancelActionMode`; `animate` defaults to true |
| FloatingViews.CloseAllOpenViewsExcept | app/src/main/java/com/android/launcher3/AbstractFloatingView.java:247-256 | `closeOpenViews` with `TYPE_ALL & ~t`, then one `finishAutoCancelActionMode`; `animate` defaults to true |
| FloatingViews.ExceptSparesOwnKind | app/src/main/java/com/android/launcher3/AbstractFloatingView.java:247-251 | a view of one kind is closed by `closeAllOpenViewsExcept(t)` iff `t` lacks its kind |
| FloatingViews.AllReachesEveryFlag | app/src/main/java/com/android/launcher3/AbstractFloatingView.java:238-241 | `closeAllOpenViews` reaches a view of any one of the twelve kinds |
| FloatingViews.FoldersAroundSnackbar | app/src/main/java/com/android/launcher3/AbstractFloatingView.java:196-236 | with folder, snackbar and folder open in that order, the folder search finds the last folder, and closing folders leaves only the snackbar open |

## Left out

- Touch routing is left out. `onTouchEvent` always returns true,
  `onControllerTouchEvent` false and `canInterceptEventsInSystemGestureRegion`
  false. They are constant answers to the input system.
- Accessibility is left out: `announceAccessibilityChanges`,
  `getAccessibilityTarget` and `getAccessibilityInitialFocusView`. They send
  events into the Android accessibility framework.
- `addHintCloseAnim` is an empty hook for animations, which are not modelled.
- `getLogContainerType` is left out. It is a constant 0 for logging.
- The `@IntDef` annotation and the Java view constructors' `Context` and
  attribute arguments are left out. They are compile-time checks and Android
  plumbing.
- What a subclass does inside `handleClose`, `logActionCommand` and `isOfType`
  is left out. The model records the first two as events and takes the third
  as a given function per view.
- Children added to or removed from the drag layer by a `handleClose` while a
  loop runs are not modelled. The loops index a snapshot of the child list,
  and the hooks cannot reach the drag layer.
- FloatingViews.CloseOpenViews requires a drag layer, and so do
  `CloseAllOpenViews` and `CloseAllOpenViewsExcept`. The source reads it
  without a null check, so a missing drag layer there is a NullPointerException,
  which the model does not represent.
- `WellFormed` makes two assumptions about the drag layer.
  - Each floating view appears in it at most once, because an Android view has
    exactly one parent.
  - Each floating view's activity is the activity whose drag layer is scanned.
    `close` reaches its activity through the view's own context
    (AbstractFloatingView.java:128). The registry operations scan the drag
    layer of the activity they are given (:198, :224). The two are the same
    activity because a view in a drag layer is built with that activity's
    context. The model does not derive this from Android's context lookup.
- The activity's `getDragLayer` and the user-event dispatcher lookup are left
  out. The drag layer is a constant of the activity, and the dispatcher is
  folded into the activity's trace.
- The two Java overloads of `closeAllOpenViews` and of
  `closeAllOpenViewsExcept` are one method each, with `animate` defaulting to
  `true`. In `CloseAllOpenViewsExcept`, `animate` comes after the type so that
  it can have that default.
