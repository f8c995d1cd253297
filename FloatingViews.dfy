/**
 * A floating view: an overlay (folder, popup, sheet, snackbar, ...) that the
 * launcher shows above its content as a child of the drag layer, with an
 * open/closed flag and a type test against the flags of FloatingViewTypes;
 * and the static operations that find and close the overlays among the drag
 * layer's children.
 *
 * The hooks that concrete overlays supply (`handleClose`, `logActionCommand`)
 * and the calls into the activity (the user-event dispatcher's timer reset,
 * `finishAutoCancelActionMode`) are not performed: each appends an `Event` to
 * the activity's `trace`, so that contracts can say which of them happen, in
 * which order and with which arguments.
 */
module FloatingViews {
  import opened FloatingViewTypes

  datatype Option<T> = None | Some(value: T)

  /** The reason the view passes to the user-event dispatcher when it closes. */
  const CONTAINER_CLOSED: string := "container closed"

  /** The action command a back press logs. */
  const BACK_COMMAND: int := 1

  /** A call the model records instead of performing. */
  datatype Event =
    | ResetElapsedMillis(reason: string)              // the dispatcher restarts its container timer
    | HandledClose(view: FloatingView, animate: bool, wasOpen: bool)  // the overlay's own close hook ran, seeing `open` as `wasOpen`
    | LoggedAction(view: FloatingView, command: int)   // the overlay logged an action command
    | FinishedActionMode                               // the activity ended its auto-cancel action mode

  /** The activity a view belongs to: its drag layer, the global animation setting, and the calls made into it. */
  class Activity {
    const dragLayer: DragLayer?
    const animationsEnabled: bool
    var trace: seq<Event>

    constructor (dragLayer: DragLayer?, animationsEnabled: bool)
      ensures this.dragLayer == dragLayer && this.animationsEnabled == animationsEnabled
      ensures trace == []
    {
      this.dragLayer := dragLayer;
      this.animationsEnabled := animationsEnabled;
      trace := [];
    }

    /** The user-event dispatcher's `resetElapsedContainerMillis`. */
    method ResetElapsedContainerMillis(reason: string)
      modifies this
      ensures trace == old(trace) + [ResetElapsedMillis(reason)]
    {
      trace := trace + [ResetElapsedMillis(reason)];
    }

    method FinishAutoCancelActionMode()
      modifies this
      ensures trace == old(trace) + [FinishedActionMode]
    {
      trace := trace + [FinishedActionMode];
    }
  }

  /** The root view whose children include the floating views, in the order they were added. */
  class DragLayer {
    var children: seq<Child>

    constructor ()
      ensures children == []
    {
      children := [];
    }
  }

  /** A child of the drag layer: a floating view, or any other view. */
  datatype Child = Other | Floating(view: FloatingView)

  class FloatingView {
    const activity: Activity
    /** The overlay's `isOfType`: whether it belongs to a given filter of `TYPE_*` flags. */
    const ofType: bv32 -> bool
    var open: bool

    constructor (activity: Activity, ofType: bv32 -> bool)
      ensures this.activity == activity && this.ofType == ofType && !open
    {
      this.activity := activity;
      this.ofType := ofType;
      open := false;
    }

    predicate IsOpen(): (r: bool)
      reads this
      ensures r == open
    {
      open
    }

    predicate IsOfType(t: bv32): (r: bool)
      ensures r == ofType(t)
    {
      ofType(t)
    }

    /** The overlay's own dismissal hook; it can read the view's open flag. */
    method HandleClose(animate: bool)
      modifies activity
      ensures activity.trace == old(activity.trace) + [HandledClose(this, animate, open)]
    {
      activity.trace := activity.trace + [HandledClose(this, animate, open)];
    }

    /** The overlay's own logging hook. */
    method LogActionCommand(command: int)
      modifies activity
      ensures activity.trace == old(activity.trace) + [LoggedAction(this, command)]
    {
      activity.trace := activity.trace + [LoggedAction(this, command)];
    }

    /**
     * Closes the view, whatever its state: the dispatcher's timer is reset only
     * when the view was open, the close hook runs in every case, before the
     * open flag is cleared and with `animate` cleared when animations are
     * disabled, and the view ends closed.
     */
    method Close(animate: bool)
      modifies this, activity
      ensures !open
      ensures activity.trace == old(activity.trace)
        + CloseEvents(this, old(open), animate && activity.animationsEnabled)
    {
      var animate := animate && activity.animationsEnabled;
      if open {
        activity.ResetElapsedContainerMillis(CONTAINER_CLOSED);
      }
      HandleClose(animate);
      open := false;
    }

    /** Logs the back command, then closes the view with animation; the back press is always consumed. */
    method OnBackPressed() returns (consumed: bool)
      modifies this, activity
      ensures consumed && !open
      ensures activity.trace == old(activity.trace) + [LoggedAction(this, BACK_COMMAND)]
        + CloseEvents(this, old(open), activity.animationsEnabled)
    {
      LogActionCommand(BACK_COMMAND);
      Close(true);
      consumed := true;
    }
  }

  /** The calls `Close` makes on view `v` that was open (or not) and closes with `animate`. */
  function CloseEvents(v: FloatingView, wasOpen: bool, animate: bool): seq<Event>
  {
    (if wasOpen then [ResetElapsedMillis(CONTAINER_CLOSED)] else []) + [HandledClose(v, animate, wasOpen)]
  }

  /** The views whose close hook ran, in the order they ran. */
  function HandledViews(es: seq<Event>): seq<FloatingView>
  {
    if es == [] then []
    else (if es[0].HandledClose? then [es[0].view] else []) + HandledViews(es[1..])
  }

  /** The number of dispatcher timer resets. */
  function Resets(es: seq<Event>): nat
  {
    if es == [] then 0
    else (if es[0].ResetElapsedMillis? then 1 else 0) + Resets(es[1..])
  }

  lemma {:induction false} HandledViewsAppend(a: seq<Event>, b: seq<Event>)
    ensures HandledViews(a + b) == HandledViews(a) + HandledViews(b)
  {
    if a != [] {
      assert (a + b)[0] == a[0] && (a + b)[1..] == a[1..] + b;
      HandledViewsAppend(a[1..], b);
    } else {
      assert a + b == b;
    }
  }

  lemma {:induction false} ResetsAppend(a: seq<Event>, b: seq<Event>)
    ensures Resets(a + b) == Resets(a) + Resets(b)
  {
    if a != [] {
      assert (a + b)[0] == a[0] && (a + b)[1..] == a[1..] + b;
      ResetsAppend(a[1..], b);
    } else {
      assert a + b == b;
    }
  }

  /**
   * One `close` runs the close hook of its view exactly once, last, with the
   * given `animate` and while the view still has its open flag from before the
   * call, and resets the dispatcher's timer once if the view was open
   * and not at all otherwise.
   */
  lemma CloseEventsEffect(v: FloatingView, wasOpen: bool, animate: bool)
    ensures HandledViews(CloseEvents(v, wasOpen, animate)) == [v]
    ensures Resets(CloseEvents(v, wasOpen, animate)) == if wasOpen then 1 else 0
    ensures var es := CloseEvents(v, wasOpen, animate); es[|es| - 1] == HandledClose(v, animate, wasOpen)
  {
    var es := CloseEvents(v, wasOpen, animate);
    var last := [HandledClose(v, animate, wasOpen)];
    assert last[1..] == [];
    assert HandledViews(last) == [v] && Resets(last) == 0;
    if wasOpen {
      assert es[1..] == last;
    }
  }

  // ---------------------------------------------------------------------------
  // The drag layer's children

  ghost function Views(cs: seq<Child>): set<FloatingView>
  {
    set c | c in cs && c.Floating? :: c.view
  }

  /** The children of the activity's drag layer; none when there is no drag layer. */
  ghost function Children(activity: Activity): seq<Child>
    reads if activity.dragLayer == null then {} else {activity.dragLayer}
  {
    if activity.dragLayer == null then [] else activity.dragLayer.children
  }

  /**
   * The drag layer holds each floating view at most once (an Android view has
   * one parent) and every floating view in it belongs to this activity.
   */
  ghost predicate WellFormed(activity: Activity)
    reads if activity.dragLayer == null then {} else {activity.dragLayer}
  {
    var cs := Children(activity);
    && (forall i | 0 <= i < |cs| && cs[i].Floating? :: cs[i].view.activity == activity)
    && (forall i, j | 0 <= i < j < |cs| && cs[i].Floating? && cs[j].Floating? :: cs[i].view != cs[j].view)
  }

  /** A floating child that is open and of type `t`. */
  predicate OpenOfType(c: Child, t: bv32)
    reads if c.Floating? then {c.view} else {}
  {
    c.Floating? && c.view.ofType(t) && c.view.open
  }

  /**
   * The highest index below `n` of a child that is open and of type `t`, or
   * None when no child below `n` is.
   */
  function TopOpenBelow(cs: seq<Child>, t: bv32, n: nat): (r: Option<nat>)
    requires n <= |cs|
    reads Views(cs)
    ensures r.Some? ==> r.value < n && OpenOfType(cs[r.value], t)
    ensures r.Some? ==> forall j | r.value < j < n :: !OpenOfType(cs[j], t)
    ensures r.None? ==> forall j | 0 <= j < n :: !OpenOfType(cs[j], t)
  {
    if n == 0 then None
    else if OpenOfType(cs[n - 1], t) then Some(n - 1)
    else TopOpenBelow(cs, t, n - 1)
  }

  /** The top-most open child of type `t` in the whole list. */
  function TopOpen(cs: seq<Child>, t: bv32): Option<nat>
    reads Views(cs)
  {
    TopOpenBelow(cs, t, |cs|)
  }

  /**
   * `getOpenView`: scans the drag layer's children from the last added down and
   * returns the first floating view that is of type `t` and open; null when
   * there is no drag layer or no such child.
   */
  method GetOpenView(activity: Activity, t: bv32) returns (v: FloatingView?)
    ensures activity.dragLayer == null ==> v == null
    ensures activity.dragLayer != null ==>
      var cs := activity.dragLayer.children;
      match TopOpen(cs, t)
      case None => v == null
      case Some(k) => v != null && cs[k] == Floating(v)
  {
    var dragLayer := activity.dragLayer;
    if dragLayer == null {
      return null;
    }
    var cs := dragLayer.children;
    for i := |cs| downto 0
      invariant TopOpen(cs, t) == TopOpenBelow(cs, t, i)
    {
      var child := cs[i];
      if child.Floating? {
        var view := child.view;
        if view.IsOfType(t) && view.IsOpen() {
          return view;
        }
      }
    }
    return null;
  }

  /** `getTopOpenViewWithType`: another name for `getOpenView`. */
  method GetTopOpenViewWithType(activity: Activity, t: bv32) returns (v: FloatingView?)
    ensures activity.dragLayer == null ==> v == null
    ensures activity.dragLayer != null ==>
      var cs := activity.dragLayer.children;
      match TopOpen(cs, t)
      case None => v == null
      case Some(k) => v != null && cs[k] == Floating(v)
  {
    v := GetOpenView(activity, t);
  }

  /** `getTopOpenView`: the top-most open floating view of any type. */
  method GetTopOpenView(activity: Activity) returns (v: FloatingView?)
    ensures activity.dragLayer == null ==> v == null
    ensures activity.dragLayer != null ==>
      var cs := activity.dragLayer.children;
      match TopOpen(cs, TYPE_ALL)
      case None => v == null
      case Some(k) => v != null && cs[k] == Floating(v)
  {
    v := GetTopOpenViewWithType(activity, TYPE_ALL);
  }

  /**
   * `closeOpenContainer`: closes, with animation, the view `getOpenView` finds,
   * and nothing else; does nothing when it finds none.
   */
  method CloseOpenContainer(activity: Activity, t: bv32)
    requires WellFormed(activity)
    modifies Views(Children(activity)), activity
    ensures Children(activity) == old(Children(activity))
    ensures var cs := Children(activity);
      match old(TopOpen(cs, t))
      case None =>
        && (forall v | v in Views(cs) :: v.open == old(v.open))
        && activity.trace == old(activity.trace)
      case Some(k) =>
        && !cs[k].view.open
        && (forall v | v in Views(cs) && v != cs[k].view :: v.open == old(v.open))
        && activity.trace == old(activity.trace) + CloseEvents(cs[k].view, true, activity.animationsEnabled)
  {
    var view := GetOpenView(activity, t);
    if view != null {
      ghost var cs := Children(activity);
      ghost var k := TopOpen(cs, t).value;
      assert cs[k] in cs;
      view.Close(true);
    }
  }

  /** The calls that closing child `c` makes when it is of type `t`; none otherwise. */
  function CloseStep(c: Child, t: bv32, animate: bool): seq<Event>
    reads if c.Floating? then {c.view} else {}
  {
    if c.Floating? && c.view.ofType(t) then CloseEvents(c.view, c.view.open, animate) else []
  }

  /**
   * The calls that closing every child of type `t` among `cs[lo..hi]` makes,
   * visiting the children from index `hi - 1` down to `lo`.
   */
  function CloseTrace(cs: seq<Child>, t: bv32, animate: bool, lo: nat, hi: nat): seq<Event>
    requires lo <= hi <= |cs|
    reads Views(cs)
    decreases hi - lo
  {
    if lo == hi then []
    else
      assert cs[lo] in cs;
      CloseTrace(cs, t, animate, lo + 1, hi) + CloseStep(cs[lo], t, animate)
  }

  /**
   * `closeOpenViews`: every child of type `t` is closed, open or not, from the
   * last added down; the others keep their state and the child list is left as
   * it is. The source reads the drag layer without a null check, so it has to exist.
   */
  method CloseOpenViews(activity: Activity, animate: bool, t: bv32)
    requires activity.dragLayer != null
    requires WellFormed(activity)
    modifies Views(Children(activity)), activity
    ensures Children(activity) == old(Children(activity))
    ensures var cs := Children(activity);
      forall i | 0 <= i < |cs| && cs[i].Floating? ::
        cs[i].view.open == (old(cs[i].view.open) && !cs[i].view.ofType(t))
    ensures var cs := Children(activity);
      activity.trace == old(activity.trace)
        + old(CloseTrace(cs, t, animate && activity.animationsEnabled, 0, |cs|))
    ensures var cs := Children(activity); TopOpen(cs, t) == None
  {
    var cs := activity.dragLayer.children;
    ghost var a := animate && activity.animationsEnabled;
    for i := |cs| downto 0
      invariant forall j | i <= j < |cs| && cs[j].Floating? ::
        cs[j].view.open == (old(cs[j].view.open) && !cs[j].view.ofType(t))
      invariant forall j | 0 <= j < i && cs[j].Floating? :: cs[j].view.open == old(cs[j].view.open)
      invariant activity.trace == old(activity.trace) + old(CloseTrace(cs, t, a, i, |cs|))
    {
      var child := cs[i];
      if child.Floating? {
        var view := child.view;
        if view.IsOfType(t) {
          assert child in cs;
          view.Close(animate);
        }
      }
    }
  }

  /**
   * `closeAllOpenViews`: closes every floating view, then ends the activity's
   * auto-cancel action mode once. Leaving out `animate` means `true`.
   */
  method CloseAllOpenViews(activity: Activity, animate: bool := true)
    requires activity.dragLayer != null
    requires WellFormed(activity)
    modifies Views(Children(activity)), activity
    ensures Children(activity) == old(Children(activity))
    ensures var cs := Children(activity);
      forall i | 0 <= i < |cs| && cs[i].Floating? ::
        cs[i].view.open == (old(cs[i].view.open) && !cs[i].view.ofType(TYPE_ALL))
    ensures var cs := Children(activity);
      activity.trace == old(activity.trace)
        + old(CloseTrace(cs, TYPE_ALL, animate && activity.animationsEnabled, 0, |cs|))
        + [FinishedActionMode]
  {
    CloseOpenViews(activity, animate, TYPE_ALL);
    activity.FinishAutoCancelActionMode();
  }

  /**
   * `closeAllOpenViewsExcept`: closes every floating view of type
   * `TYPE_ALL & ~t`, then ends the auto-cancel action mode once. Leaving out
   * `animate` means `true`.
   */
  method CloseAllOpenViewsExcept(activity: Activity, t: bv32, animate: bool := true)
    requires activity.dragLayer != null
    requires WellFormed(activity)
    modifies Views(Children(activity)), activity
    ensures Children(activity) == old(Children(activity))
    ensures var cs := Children(activity);
      forall i | 0 <= i < |cs| && cs[i].Floating? ::
        cs[i].view.open == (old(cs[i].view.open) && !cs[i].view.ofType(TYPE_ALL & !t))
    ensures var cs := Children(activity);
      activity.trace == old(activity.trace)
        + old(CloseTrace(cs, TYPE_ALL & !t, animate && activity.animationsEnabled, 0, |cs|))
        + [FinishedActionMode]
  {
    CloseOpenViews(activity, animate, TYPE_ALL & !t);
    activity.FinishAutoCancelActionMode();
  }

  // ---------------------------------------------------------------------------
  // What a closing loop does, stated against independent definitions

  /** The floating views of type `t` among `cs[lo..hi]`, from the lowest index up. */
  ghost function Matching(cs: seq<Child>, t: bv32, lo: nat, hi: nat): seq<FloatingView>
    requires lo <= hi <= |cs|
    decreases hi - lo
  {
    if lo == hi then []
    else (if cs[lo].Floating? && cs[lo].view.ofType(t) then [cs[lo].view] else []) + Matching(cs, t, lo + 1, hi)
  }

  /** The number of children among `cs[lo..hi]` that are open and of type `t`. */
  ghost function OpenCount(cs: seq<Child>, t: bv32, lo: nat, hi: nat): nat
    requires lo <= hi <= |cs|
    reads Views(cs)
    decreases hi - lo
  {
    if lo == hi then 0
    else
      assert cs[lo] in cs;
      (if OpenOfType(cs[lo], t) then 1 else 0) + OpenCount(cs, t, lo + 1, hi)
  }

  function Reversed<T>(s: seq<T>): seq<T>
  {
    if s == [] then [] else Reversed(s[1..]) + [s[0]]
  }

  lemma {:induction false} ReversedAppend<T>(a: seq<T>, b: seq<T>)
    ensures Reversed(a + b) == Reversed(b) + Reversed(a)
  {
    if a == [] {
      assert a + b == b;
    } else {
      assert (a + b)[0] == a[0] && (a + b)[1..] == a[1..] + b;
      ReversedAppend(a[1..], b);
    }
  }

  /** Closing one child runs the close hook of that child's view if it is of type `t`, and of no view otherwise. */
  lemma CloseStepHandles(c: Child, t: bv32, animate: bool)
    ensures HandledViews(CloseStep(c, t, animate))
      == Reversed(if c.Floating? && c.view.ofType(t) then [c.view] else [])
  {
    if c.Floating? && c.view.ofType(t) {
      CloseEventsEffect(c.view, c.view.open, animate);
      assert [c.view][1..] == [];
    }
  }

  /**
   * A closing loop runs the close hook of each child of type `t` exactly once,
   * and of no other view, from the last added down: the hooks ran on the
   * matching views in the reverse of their order in the drag layer.
   */
  lemma {:induction false} CloseTraceHandlesEachMatchOnce(cs: seq<Child>, t: bv32, animate: bool, lo: nat, hi: nat)
    requires lo <= hi <= |cs|
    ensures HandledViews(CloseTrace(cs, t, animate, lo, hi)) == Reversed(Matching(cs, t, lo, hi))
    decreases hi - lo
  {
    if lo < hi {
      var c := cs[lo];
      var rest := CloseTrace(cs, t, animate, lo + 1, hi);
      var step := CloseStep(c, t, animate);
      var first: seq<FloatingView> := if c.Floating? && c.view.ofType(t) then [c.view] else [];
      assert CloseTrace(cs, t, animate, lo, hi) == rest + step;
      assert Matching(cs, t, lo, hi) == first + Matching(cs, t, lo + 1, hi);
      CloseTraceHandlesEachMatchOnce(cs, t, animate, lo + 1, hi);
      HandledViewsAppend(rest, step);
      CloseStepHandles(c, t, animate);
      ReversedAppend(first, Matching(cs, t, lo + 1, hi));
    }
  }

  /** A closing loop resets the dispatcher's timer once per child that was open and of type `t`. */
  lemma {:induction false} CloseTraceResetsOncePerOpenMatch(cs: seq<Child>, t: bv32, animate: bool, lo: nat, hi: nat)
    requires lo <= hi <= |cs|
    ensures Resets(CloseTrace(cs, t, animate, lo, hi)) == OpenCount(cs, t, lo, hi)
    decreases hi - lo
  {
    if lo < hi {
      var c := cs[lo];
      CloseTraceResetsOncePerOpenMatch(cs, t, animate, lo + 1, hi);
      ResetsAppend(CloseTrace(cs, t, animate, lo + 1, hi), CloseStep(c, t, animate));
      if c.Floating? && c.view.ofType(t) {
        CloseEventsEffect(c.view, c.view.open, animate);
      }
    }
  }

  /** Every close hook a closing loop runs gets the same `animate`. */
  lemma {:induction false} CloseTraceAnimates(cs: seq<Child>, t: bv32, animate: bool, lo: nat, hi: nat)
    requires lo <= hi <= |cs|
    ensures forall e | e in CloseTrace(cs, t, animate, lo, hi) && e.HandledClose? :: e.animate == animate
    decreases hi - lo
  {
    if lo < hi {
      CloseTraceAnimates(cs, t, animate, lo + 1, hi);
    }
  }

  // ---------------------------------------------------------------------------
  // Views whose type test is the usual flag test

  /** The view answers `isOfType(t)` as `(m & t) != 0` for its own mask `m`. */
  ghost predicate TypedByMask(v: FloatingView, m: bv32)
  {
    forall t: bv32 :: v.ofType(t) == (m & t != 0)
  }

  /**
   * `closeAllOpenViewsExcept(t)` spares a view that is of exactly one kind if
   * and only if `t` has that kind's flag.
   */
  lemma ExceptSparesOwnKind(v: FloatingView, k: Kind, t: bv32)
    requires TypedByMask(v, Flag(k))
    ensures v.ofType(TYPE_ALL & !t) <==> !HasKind(t, k)
  {
    assert v.ofType(TYPE_ALL & !t) == (Flag(k) & (TYPE_ALL & !t) != 0);
    ExceptKind(k, t);
  }

  /** `closeAllOpenViews` reaches every view that has at least one of the twelve flags. */
  lemma AllReachesEveryFlag(v: FloatingView, k: Kind)
    requires TypedByMask(v, Flag(k))
    ensures v.ofType(TYPE_ALL)
  {
    assert v.ofType(TYPE_ALL) == (Flag(k) & TYPE_ALL != 0);
    assert HasKind(TYPE_ALL, k) by {
      AllIsExactlyTheFlags();
      assert k in AllKinds;
    }
  }

  /** A drag layer holding an open folder, an open snackbar and another open folder, added in that order. */
  method NewFoldersAroundSnackbar() returns (activity: Activity, a: FloatingView, b: FloatingView, c: FloatingView)
    ensures fresh(activity) && fresh(activity.dragLayer) && fresh(a) && fresh(b) && fresh(c)
    ensures activity.dragLayer != null && activity.dragLayer.children == [Floating(a), Floating(b), Floating(c)]
    ensures a.activity == activity && b.activity == activity && c.activity == activity
    ensures a != b && b != c && a != c
    ensures a.open && b.open && c.open
    ensures a.ofType(TYPE_FOLDER) && !b.ofType(TYPE_FOLDER) && c.ofType(TYPE_FOLDER)
    ensures activity.animationsEnabled
  {
    var dragLayer := new DragLayer();
    activity := new Activity(dragLayer, true);
    var folderTest := (t: bv32) => TYPE_FOLDER & t != 0;
    var snackbarTest := (t: bv32) => TYPE_SNACKBAR & t != 0;
    assert folderTest(TYPE_FOLDER) && !snackbarTest(TYPE_FOLDER);
    a := new FloatingView(activity, folderTest);
    b := new FloatingView(activity, snackbarTest);
    c := new FloatingView(activity, folderTest);
    a.open, b.open, c.open := true, true, true;
    dragLayer.children := [Floating(a), Floating(b), Floating(c)];
  }

  /**
   * Two folders with a snackbar between them, each open: the folder search
   * finds the last folder, and closing the folders leaves only the snackbar open.
   */
  method FoldersAroundSnackbar() returns (foundLastFolder: bool, stillOpen: seq<bool>)
    ensures foundLastFolder
    ensures stillOpen == [false, true, false]
  {
    var activity, a, b, c := NewFoldersAroundSnackbar();
    assert WellFormed(activity);
    assert TopOpen(activity.dragLayer.children, TYPE_FOLDER) == Some(2);
    assert Views(Children(activity)) == {a, b, c};
    var top := GetOpenView(activity, TYPE_FOLDER);
    foundLastFolder := top == c;
    CloseOpenViews(activity, true, TYPE_FOLDER);
    stillOpen := [a.open, b.open, c.open];
  }
}
