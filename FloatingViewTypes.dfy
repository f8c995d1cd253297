/**
 * The overlay-type flags of a floating view and the masks built from them.
 *
 * The source keeps each flag in a Java `int`. Java's `|`, `&` and `~` on a
 * 32-bit two's-complement `int` act bit for bit, exactly as `|`, `&` and `!`
 * act on a `bv32`, so every flag and mask here is a `bv32`.
 *
 * Beside the bit view the module gives the set view: one `Kind` per flag,
 * and `KindsOf` reads the set of kinds a mask has.
 */
module FloatingViewTypes {

  const TYPE_FOLDER: bv32 := 1 << 0
  const TYPE_ACTION_POPUP: bv32 := 1 << 1
  const TYPE_WIDGETS_BOTTOM_SHEET: bv32 := 1 << 2
  const TYPE_WIDGET_RESIZE_FRAME: bv32 := 1 << 3
  const TYPE_WIDGETS_FULL_SHEET: bv32 := 1 << 4
  const TYPE_ON_BOARD_POPUP: bv32 := 1 << 5
  const TYPE_DISCOVERY_BOUNCE: bv32 := 1 << 6
  const TYPE_SNACKBAR: bv32 := 1 << 7
  const TYPE_LISTENER: bv32 := 1 << 8
  const TYPE_ALL_APPS_EDU: bv32 := 1 << 9

  // Popups of the recents (quickstep) UI
  const TYPE_TASK_MENU: bv32 := 1 << 10
  const TYPE_OPTIONS_POPUP: bv32 := 1 << 11

  const TYPE_ALL: bv32 := TYPE_FOLDER | TYPE_ACTION_POPUP
    | TYPE_WIDGETS_BOTTOM_SHEET | TYPE_WIDGET_RESIZE_FRAME | TYPE_WIDGETS_FULL_SHEET
    | TYPE_ON_BOARD_POPUP | TYPE_DISCOVERY_BOUNCE | TYPE_TASK_MENU
    | TYPE_OPTIONS_POPUP | TYPE_SNACKBAR | TYPE_LISTENER | TYPE_ALL_APPS_EDU

  /** Overlays that stay open while the launcher rebinds its content. */
  const TYPE_REBIND_SAFE: bv32 := TYPE_WIDGETS_FULL_SHEET
    | TYPE_WIDGETS_BOTTOM_SHEET | TYPE_ON_BOARD_POPUP | TYPE_DISCOVERY_BOUNCE
    | TYPE_ALL_APPS_EDU

  /** Overlays for which the back button is hidden rather than shown. */
  const TYPE_HIDE_BACK_BUTTON: bv32 := TYPE_ON_BOARD_POPUP | TYPE_DISCOVERY_BOUNCE
    | TYPE_SNACKBAR | TYPE_WIDGET_RESIZE_FRAME | TYPE_LISTENER

  const TYPE_ACCESSIBLE: bv32 := TYPE_ALL & !TYPE_DISCOVERY_BOUNCE & !TYPE_LISTENER
    & !TYPE_ALL_APPS_EDU

  /** Overlays that give the status-bar swipe-down gesture a meaning of their own. */
  const TYPE_STATUS_BAR_SWIPE_DOWN_DISALLOW: bv32 := TYPE_WIDGETS_BOTTOM_SHEET
    | TYPE_WIDGETS_FULL_SHEET | TYPE_WIDGET_RESIZE_FRAME | TYPE_ON_BOARD_POPUP
    | TYPE_DISCOVERY_BOUNCE | TYPE_TASK_MENU

  /** One kind of overlay per flag. */
  datatype Kind =
    | Folder | ActionPopup | WidgetsBottomSheet | WidgetResizeFrame | WidgetsFullSheet
    | OnBoardPopup | DiscoveryBounce | Snackbar | Listener | AllAppsEdu
    | TaskMenu | OptionsPopup

  /** The kinds in the order of their bits: the kind at index i owns bit i. */
  const KindOrder: seq<Kind> := [Folder, ActionPopup, WidgetsBottomSheet, WidgetResizeFrame,
    WidgetsFullSheet, OnBoardPopup, DiscoveryBounce, Snackbar, Listener, AllAppsEdu,
    TaskMenu, OptionsPopup]

  /** Every kind. */
  const AllKinds: set<Kind> := set k: Kind | true

  /** The bit position of a kind. */
  function Position(k: Kind): (p: nat)
    ensures p < |KindOrder| && KindOrder[p] == k
  {
    match k
    case Folder => 0
    case ActionPopup => 1
    case WidgetsBottomSheet => 2
    case WidgetResizeFrame => 3
    case WidgetsFullSheet => 4
    case OnBoardPopup => 5
    case DiscoveryBounce => 6
    case Snackbar => 7
    case Listener => 8
    case AllAppsEdu => 9
    case TaskMenu => 10
    case OptionsPopup => 11
  }

  /** The `TYPE_*` flag of a kind. */
  function Flag(k: Kind): bv32
  {
    match k
    case Folder => TYPE_FOLDER
    case ActionPopup => TYPE_ACTION_POPUP
    case WidgetsBottomSheet => TYPE_WIDGETS_BOTTOM_SHEET
    case WidgetResizeFrame => TYPE_WIDGET_RESIZE_FRAME
    case WidgetsFullSheet => TYPE_WIDGETS_FULL_SHEET
    case OnBoardPopup => TYPE_ON_BOARD_POPUP
    case DiscoveryBounce => TYPE_DISCOVERY_BOUNCE
    case Snackbar => TYPE_SNACKBAR
    case Listener => TYPE_LISTENER
    case AllAppsEdu => TYPE_ALL_APPS_EDU
    case TaskMenu => TYPE_TASK_MENU
    case OptionsPopup => TYPE_OPTIONS_POPUP
  }

  /** The single bit at position `i` of a 32-bit mask. */
  function Bit(i: nat): bv32
    requires i < 32
  {
    (1 as bv32) << i
  }

  /** Whether mask `m` has the flag of kind `k`. */
  predicate HasKind(m: bv32, k: Kind)
  {
    Flag(k) & m != 0
  }

  /** The kinds whose flag mask `m` has. */
  function KindsOf(m: bv32): set<Kind>
  {
    set k: Kind | HasKind(m, k)
  }

  /** KindOrder lists every kind exactly once, each at its position. */
  lemma KindOrderIsComplete()
    ensures |KindOrder| == 12
    ensures forall k: Kind :: k in KindOrder
    ensures forall i :: 0 <= i < |KindOrder| ==> Position(KindOrder[i]) == i
  {
    forall k: Kind
      ensures k in KindOrder
    {
      assert KindOrder[Position(k)] == k;
    }
  }

  /**
   * The twelve flags are the distinct single bits `1 << 0` to `1 << 11`:
   * each kind's flag is the bit at its position, and the flags of two
   * different kinds share no bit.
   */
  lemma FlagsAreDistinctSingleBits()
    ensures forall k: Kind :: Flag(k) == Bit(Position(k))
    ensures forall k: Kind, j: Kind :: k != j ==> Flag(k) & Flag(j) == 0
  {
    forall k: Kind, j: Kind | k != j
      ensures Flag(k) & Flag(j) == 0
    {
      SingleBitsDisjoint(Position(k), Position(j));
    }
  }

  lemma SingleBitsDisjoint(p: nat, q: nat)
    requires p < 32 && q < 32 && p != q
    ensures Bit(p) & Bit(q) == 0
  {
  }

  /** TYPE_ALL is exactly the union of the twelve flags: it has bit i exactly when i < 12. */
  lemma AllIsExactlyTheFlags()
    ensures forall i: nat :: i < 32 ==> (TYPE_ALL & Bit(i) != 0 <==> i < 12)
    ensures KindsOf(TYPE_ALL) == AllKinds
  {
  }

  /** Each derived mask lies within TYPE_ALL and has exactly the kinds listed for it. */
  lemma DerivedMasks()
    ensures TYPE_REBIND_SAFE & !TYPE_ALL == 0
    ensures TYPE_HIDE_BACK_BUTTON & !TYPE_ALL == 0
    ensures TYPE_ACCESSIBLE & !TYPE_ALL == 0
    ensures TYPE_STATUS_BAR_SWIPE_DOWN_DISALLOW & !TYPE_ALL == 0
    ensures KindsOf(TYPE_REBIND_SAFE)
      == {WidgetsFullSheet, WidgetsBottomSheet, OnBoardPopup, DiscoveryBounce, AllAppsEdu}
    ensures KindsOf(TYPE_HIDE_BACK_BUTTON)
      == {OnBoardPopup, DiscoveryBounce, Snackbar, WidgetResizeFrame, Listener}
    ensures KindsOf(TYPE_STATUS_BAR_SWIPE_DOWN_DISALLOW)
      == {WidgetsBottomSheet, WidgetsFullSheet, WidgetResizeFrame, OnBoardPopup, DiscoveryBounce, TaskMenu}
  {
  }

  /**
   * TYPE_ACCESSIBLE is TYPE_ALL with exactly DiscoveryBounce, Listener and AllAppsEdu
   * taken out: it has none of those three and each of the nine others.
   */
  lemma AccessibleKinds()
    ensures KindsOf(TYPE_ACCESSIBLE) == AllKinds - {DiscoveryBounce, Listener, AllAppsEdu}
    ensures forall k: Kind :: HasKind(TYPE_ACCESSIBLE, k) <==> k !in {DiscoveryBounce, Listener, AllAppsEdu}
  {
  }

  /** A single kind is in the filter `TYPE_ALL & ~t` exactly when `t` lacks its flag. */
  lemma ExceptKind(k: Kind, t: bv32)
    ensures (Flag(k) & (TYPE_ALL & !t) != 0) <==> (Flag(k) & t == 0)
  {
    match k
    case Folder =>
    case ActionPopup =>
    case WidgetsBottomSheet =>
    case WidgetResizeFrame =>
    case WidgetsFullSheet =>
    case OnBoardPopup =>
    case DiscoveryBounce =>
    case Snackbar =>
    case Listener =>
    case AllAppsEdu =>
    case TaskMenu =>
    case OptionsPopup =>
  }

  /**
   * The filter `TYPE_ALL & ~t` has exactly the kinds that `t` lacks, and no bit
   * outside TYPE_ALL, whatever bits `t` carries.
   */
  lemma ExceptFilter(t: bv32)
    ensures forall k: Kind :: HasKind(TYPE_ALL & !t, k) <==> !HasKind(t, k)
    ensures (TYPE_ALL & !t) & !TYPE_ALL == 0
  {
    forall k: Kind
      ensures HasKind(TYPE_ALL & !t, k) <==> !HasKind(t, k)
    {
      ExceptKind(k, t);
    }
  }
}
