/**
  KeyboardManager: the table from layout codes to keyboard types and the per-type cache of
  keyboard containers. A container is a value that records which container class was built,
  with which layout mask, and a serial number standing for the object's identity.
*/
module Keyboards {
  import opened Base

  datatype KeyboardType =
    T9 | Qwerty | Lx17 | QwertyAbc | Number | Symbol | Settings | Handwriting | Candidates | ClipBoard | TextEdit

  /** switchKeyboard(layout): the keyboard type for a layout code. */
  function LayoutToKeyboardType(layout: int): (t: KeyboardType)
    ensures t == Qwerty <==> layout == 0x1000
    ensures t == QwertyAbc <==> layout == 0x4000
    ensures t == Handwriting <==> layout == 0x3000
    ensures t == Number <==> layout == 0x5000
    ensures t == Lx17 <==> layout == 0x6000
    ensures t == TextEdit <==> layout == 0x8000
    ensures t == T9 <==> layout !in {0x1000, 0x4000, 0x3000, 0x5000, 0x6000, 0x8000}
  {
    if layout == 0x1000 then Qwerty
    else if layout == 0x4000 then QwertyAbc
    else if layout == 0x3000 then Handwriting
    else if layout == 0x5000 then Number
    else if layout == 0x6000 then Lx17
    else if layout == 0x8000 then TextEdit
    else T9
  }

  /** The keyboard types a layout code can select. */
  predicate HasLayoutCode(t: KeyboardType) {
    t in {T9, Qwerty, QwertyAbc, Handwriting, Number, Lx17, TextEdit}
  }

  /** A layout code for each type that has one (0 stands for every unlisted code of T9). */
  function LayoutCode(t: KeyboardType): int
    requires HasLayoutCode(t)
  {
    match t
    case Qwerty => 0x1000
    case QwertyAbc => 0x4000
    case Handwriting => 0x3000
    case Number => 0x5000
    case Lx17 => 0x6000
    case TextEdit => 0x8000
    case T9 => 0
  }

  /** Exactly the types with a layout code are reachable from a layout code, and the table
      sends each such code back to its type. */
  lemma LayoutCodeRoundTrip(t: KeyboardType)
    ensures HasLayoutCode(t) ==> LayoutToKeyboardType(LayoutCode(t)) == t
    ensures !HasLayoutCode(t) ==> forall layout: int :: LayoutToKeyboardType(layout) != t
  {
  }

  /** The container classes. */
  datatype ContainerKind =
    CandidatesContainer | HandwritingContainer | NumberContainer | QwertyContainer
    | SettingsContainer | SymbolContainer | T9TextContainer | ClipBoardContainer

  /** The layout masks of InputModeSwitcherManager passed to the Qwerty and T9 containers;
      MaskedDefault holds inputDefaultMode and MASK_SKB_LAYOUT. */
  datatype LayoutMask = QwertyPinyinMask | QwertyAbcMask | TextEditMask | Lx17Mask | MaskedDefault(bits: int)

  /** A container object: its class, its layout mask, and its identity. */
  datatype Container = Container(kind: ContainerKind, mask: Option<LayoutMask>, serial: nat)

  /** Whether a container class extends InputBaseContainer. */
  predicate IsInputBase(k: ContainerKind) {
    k in {QwertyContainer, T9TextContainer, HandwritingContainer, NumberContainer}
  }

  /** The keyboard types whose container is an InputBaseContainer: the ones that
      switchKeyboard refreshes with updateSkbLayout and that isInputKeyboard accepts. */
  lemma InputContainerTypes(t: KeyboardType, defaultBits: int)
    ensures IsInputBase(Blueprint(t, defaultBits).0) <==>
              t in {Handwriting, Number, Qwerty, QwertyAbc, Lx17, TextEdit, T9}
  {
  }

  /** The class and mask of the container built for a keyboard type; `defaultBits` is the
      masked default input mode used for T9. */
  function Blueprint(t: KeyboardType, defaultBits: int): (c: (ContainerKind, Option<LayoutMask>))
    ensures c.0 == QwertyContainer <==> t in {Qwerty, QwertyAbc, TextEdit}
    ensures c.0 == T9TextContainer <==> t in {T9, Lx17}
    ensures c.1.Some? <==> t in {Qwerty, QwertyAbc, TextEdit, T9, Lx17}
  {
    match t
    case Candidates => (CandidatesContainer, None)
    case Handwriting => (HandwritingContainer, None)
    case Number => (NumberContainer, None)
    case Qwerty => (QwertyContainer, Some(QwertyPinyinMask))
    case Settings => (SettingsContainer, None)
    case Symbol => (SymbolContainer, None)
    case QwertyAbc => (QwertyContainer, Some(QwertyAbcMask))
    case Lx17 => (T9TextContainer, Some(Lx17Mask))
    case ClipBoard => (ClipBoardContainer, None)
    case TextEdit => (QwertyContainer, Some(TextEditMask))
    case T9 => (T9TextContainer, Some(MaskedDefault(defaultBits)))
  }

  /** The default input mode only chooses the mask, never the container class. */
  lemma BlueprintKindIgnoresBits(t: KeyboardType, bits: int)
    ensures Blueprint(t, bits).0 == Blueprint(t, 0).0
  {
  }

  /** Every cached container was built for its type, and no serial is used twice. */
  ghost predicate CacheValid(keyboards: map<KeyboardType, Container>, built: nat) {
    && (forall t | t in keyboards :: Blueprint(t, 0).0 == keyboards[t].kind && keyboards[t].serial < built)
    && (forall t, u | t in keyboards && u in keyboards && t != u :: keyboards[t].serial != keyboards[u].serial)
  }

  /** Caching a freshly built container keeps the cache valid. */
  lemma CacheAdd(keyboards: map<KeyboardType, Container>, built: nat, t: KeyboardType, defaultBits: int)
    requires CacheValid(keyboards, built) && t !in keyboards
    ensures CacheValid(keyboards[t := Container(Blueprint(t, defaultBits).0, Blueprint(t, defaultBits).1, built)], built + 1)
  {
    BlueprintKindIgnoresBits(t, defaultBits);
    var c := Container(Blueprint(t, defaultBits).0, Blueprint(t, defaultBits).1, built);
    var k := keyboards[t := c];
    forall u | u in k
      ensures Blueprint(u, 0).0 == k[u].kind && k[u].serial < built + 1
    {
      if u != t { assert k[u] == keyboards[u]; }
    }
    forall u, v | u in k && v in k && u != v
      ensures k[u].serial != k[v].serial
    {
      if u != t && v != t { assert k[u] == keyboards[u] && k[v] == keyboards[v]; }
    }
  }

  class KeyboardManager {
    /** mKeyboardRootView has been set. */
    var rootViewBound: bool
    /** keyboards: the container cache. */
    var keyboards: map<KeyboardType, Container>
    /** How many containers have been built; the next one gets this serial. */
    var built: nat
    /** mCurrentKeyboardName (lateinit: absent before the first switch). */
    var currentName: Option<KeyboardType>
    var currentContainer: Option<Container>
    /** The container the root view shows. */
    var shown: Option<Container>

    ghost predicate Valid()
      reads this
    {
      CacheValid(keyboards, built)
    }

    constructor ()
      ensures Valid() && !rootViewBound && keyboards == map[] && built == 0
      ensures currentName.None? && currentContainer.None? && shown.None?
    {
      rootViewBound := false;
      keyboards := map[];
      built := 0;
      currentName, currentContainer, shown := None, None, None;
    }

    /** init(inputView, keyboardRootView) and setData. */
    method Init()
      modifies this
      ensures rootViewBound
      ensures keyboards == old(keyboards) && built == old(built) && currentName == old(currentName)
      ensures currentContainer == old(currentContainer) && shown == old(shown)
    {
      rootViewBound := true;
    }

    /** clearKeyboard(). */
    method ClearKeyboard()
      requires Valid()
      modifies this
      ensures Valid() && keyboards == map[]
      ensures rootViewBound == old(rootViewBound) && built == old(built) && currentName == old(currentName)
      ensures currentContainer == old(currentContainer) && shown == old(shown)
    {
      keyboards := map[];
    }

    /** switchKeyboard(keyboardName). */
    method SwitchKeyboard(t: KeyboardType, defaultBits: int)
      requires Valid()
      modifies this
      ensures Valid()
      ensures !old(rootViewBound) ==> unchanged(this)
      ensures old(rootViewBound) ==>
                && rootViewBound
                && t in keyboards
                && keyboards == old(keyboards)[t := keyboards[t]]
                && (t in old(keyboards) ==> keyboards[t] == old(keyboards)[t] && built == old(built))
                && (t !in old(keyboards) ==>
                      && keyboards[t] == Container(Blueprint(t, defaultBits).0, Blueprint(t, defaultBits).1, old(built))
                      && built == old(built) + 1)
                && currentName == Some(t) && currentContainer == Some(keyboards[t]) && shown == Some(keyboards[t])
    {
      if !rootViewBound {
        return;
      }
      if t !in keyboards {
        CacheAdd(keyboards, built, t, defaultBits);
        var blueprint := Blueprint(t, defaultBits);
        var container := Container(blueprint.0, blueprint.1, built);
        built := built + 1;
        keyboards := keyboards[t := container];
      }
      var container := keyboards[t];
      shown := Some(container);
      currentName := Some(t);
      currentContainer := Some(container);
    }

    /** switchKeyboard(layout). */
    method SwitchKeyboardLayout(layout: int, defaultBits: int)
      requires Valid()
      modifies this
      ensures Valid()
      ensures !old(rootViewBound) ==> unchanged(this)
      ensures old(rootViewBound) ==>
                var t := LayoutToKeyboardType(layout);
                && t in keyboards
                && keyboards == old(keyboards)[t := keyboards[t]]
                && (t in old(keyboards) ==> keyboards[t] == old(keyboards)[t] && built == old(built))
                && (t !in old(keyboards) ==>
                      && keyboards[t] == Container(Blueprint(t, defaultBits).0, Blueprint(t, defaultBits).1, old(built))
                      && built == old(built) + 1)
                && rootViewBound
                && currentName == Some(t) && currentContainer == Some(keyboards[t]) && shown == Some(keyboards[t])
    {
      SwitchKeyboard(LayoutToKeyboardType(layout), defaultBits);
    }

    /** forceRelayoutByToggle(): drop every cached container and rebuild the current layout. */
    method ForceRelayoutByToggle(skbLayout: int, defaultBits: int)
      requires Valid()
      modifies this
      ensures Valid()
      ensures !old(rootViewBound) ==> unchanged(this)
      ensures old(rootViewBound) ==>
                var t := LayoutToKeyboardType(skbLayout);
                && keyboards == map[t := Container(Blueprint(t, defaultBits).0, Blueprint(t, defaultBits).1, old(built))]
                && built == old(built) + 1
                && rootViewBound
                && currentName == Some(t) && currentContainer == Some(keyboards[t]) && shown == Some(keyboards[t])
    {
      if !rootViewBound {
        return;
      }
      ClearKeyboard();
      SwitchKeyboardLayout(skbLayout, defaultBits);
    }

    /** isInputKeyboard. */
    function IsInputKeyboard(): (b: bool)
      reads this
      ensures b <==> currentContainer.Some? && IsInputBase(currentContainer.value.kind)
    {
      match currentContainer
      case None => false
      case Some(c) => IsInputBase(c.kind)
    }
  }
}
