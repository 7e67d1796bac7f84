// `apply_mapping`: the UI replaces each action class's `get_action` by a
// lookup through the user's mapping (gesture label -> action key) and a
// fixed table (action key -> action), falling back to the original
// `get_action` when either lookup misses.

module Interface {
  import opened Base
  import SingleHand
  import TwoHands
  import UiConstants

  /** What an action key selects in a patched table: an action to run, or
      the `"none"` entry, which returns nothing. */
  datatype Entry<A> = Run(action: A) | DoNothing

  /** The table of the patched single-hand `get_action`. */
  function SingleTable(key: string): (r: Option<Entry<SingleHand.Action>>)
    ensures r == Some(Run(SingleHand.LikeAction)) <==> key == "open_photos"
    ensures r == Some(Run(SingleHand.DislikeAction)) <==> key == "open_notes"
    ensures r == Some(Run(SingleHand.StopAction)) <==> key == "open_calendar"
    ensures r == Some(Run(SingleHand.OkayAction)) <==> key == "take_screenshot"
    ensures r == Some(DoNothing) <==> key == "none"
  {
    if key == "open_photos" then Some(Run(SingleHand.LikeAction))
    else if key == "open_notes" then Some(Run(SingleHand.DislikeAction))
    else if key == "open_calendar" then Some(Run(SingleHand.StopAction))
    else if key == "take_screenshot" then Some(Run(SingleHand.OkayAction))
    else if key == "none" then Some(DoNothing)
    else None
  }

  /** The table of the patched two-hand `get_action`; the music action is
      the only one there is. */
  function TwoTable(key: string): (r: Option<Entry<()>>)
    ensures r == Some(Run(())) <==> key == "turn_music"
    ensures r == Some(DoNothing) <==> key == "none"
  {
    if key == "turn_music" then Some(Run(()))
    else if key == "none" then Some(DoNothing)
    else None
  }

  /** Every key the single-hand table accepts is an action key of the UI
      tables, and the other way round. */
  lemma TablesCoverUiKeys(key: string)
    ensures SingleTable(key).Some? <==> key in UiConstants.SingleActionReverse
    ensures TwoTable(key).Some? <==> key in UiConstants.TwoActionReverse
  {
  }

  /** `mapping.get(gesture)`. */
  function MappedKey(mapping: map<string, string>, gesture: Option<string>): (r: Option<string>)
    ensures r.Some? <==> gesture.Some? && gesture.value in mapping
    ensures r.Some? ==> r.value == mapping[gesture.value]
  {
    if gesture.Some? && gesture.value in mapping then Some(mapping[gesture.value]) else None
  }

  /** `_patched_single_get_action`, with the original `get_action` as the
      fallback. */
  function PatchedSingle(mapping: map<string, string>, gesture: Option<string>, timestamp: string): (o: Outcome)
    ensures MappedKey(mapping, gesture).Some? && SingleTable(MappedKey(mapping, gesture).value).Some? ==>
              o == match SingleTable(MappedKey(mapping, gesture).value).value
                   case Run(a) => SingleHand.Perform(a, timestamp)
                   case DoNothing => NoAction
    ensures MappedKey(mapping, gesture).None? || SingleTable(MappedKey(mapping, gesture).value).None? ==>
              o == SingleHand.GetAction(gesture, timestamp)
    ensures |o.launched| <= 1 && (|o.launched| == 1 <==> o.result.Some?)
  {
    var key := MappedKey(mapping, gesture);
    var entry := if key.Some? then SingleTable(key.value) else None;
    match entry
    case Some(Run(a)) => SingleHand.Perform(a, timestamp)
    case Some(DoNothing) => NoAction
    case None => SingleHand.GetAction(gesture, timestamp)
  }

  /** `_patched_two_get_action`, with the original `get_action` as the
      fallback. */
  function PatchedTwo(mapping: map<string, string>, gesture: Option<string>, outcome: TwoHands.RunOutcome): (o: Outcome)
    ensures MappedKey(mapping, gesture) == Some("turn_music") ==> o == TwoHands.TwoGestureAction(outcome)
    ensures MappedKey(mapping, gesture) == Some("none") ==> o == NoAction
    ensures MappedKey(mapping, gesture).None? || TwoTable(MappedKey(mapping, gesture).value).None? ==>
              o == TwoHands.GetAction(gesture, outcome)
    ensures |o.launched| <= 1 && (|o.launched| == 1 <==> o.result.Some?)
  {
    var key := MappedKey(mapping, gesture);
    var entry := if key.Some? then TwoTable(key.value) else None;
    match entry
    case Some(Run(_)) => TwoHands.TwoGestureAction(outcome)
    case Some(DoNothing) => NoAction
    case None => TwoHands.GetAction(gesture, outcome)
  }

  /** With an empty mapping the patched methods behave as the originals. */
  lemma EmptyMappingIsOriginal(gesture: Option<string>, timestamp: string, outcome: TwoHands.RunOutcome)
    ensures PatchedSingle(map[], gesture, timestamp) == SingleHand.GetAction(gesture, timestamp)
    ensures PatchedTwo(map[], gesture, outcome) == TwoHands.GetAction(gesture, outcome)
  {
  }

  /** The default single-hand mapping sends each label to the action the
      original router already chose, so applying it changes nothing. */
  lemma DefaultSingleIsOriginal(gesture: Option<string>, timestamp: string)
    ensures PatchedSingle(UiConstants.DefaultSingleMapping, gesture, timestamp) ==
            SingleHand.GetAction(gesture, timestamp)
  {
  }

  /** The default two-hand mapping adds one route: the label of two palms
      seen as two single hands now starts the music too. Every other label
      behaves as before. */
  lemma DefaultTwoAddsPairOfStops(gesture: Option<string>, outcome: TwoHands.RunOutcome)
    ensures gesture == Some("is_stop is_stop") ==>
              PatchedTwo(UiConstants.DefaultTwoMapping, gesture, outcome) == TwoHands.TwoGestureAction(outcome)
    ensures gesture != Some("is_stop is_stop") ==>
              PatchedTwo(UiConstants.DefaultTwoMapping, gesture, outcome) == TwoHands.GetAction(gesture, outcome)
  {
  }

  /** Which `get_action` a class attribute currently holds. */
  datatype Getter = Original | Patched

  /** The class attributes `apply_mapping` writes on both action classes:
      `get_action`, `_orig_get_action` (absent until first captured) and
      `_ui_mapping`. */
  class ActionRouting {
    var singleGetter: Getter
    var singleOriginal: Option<Getter>
    var singleMapping: map<string, string>
    var twoGetter: Getter
    var twoOriginal: Option<Getter>
    var twoMapping: map<string, string>

    /** The saved original is never a patched method, and a patched method
        always has the original to fall back on. */
    ghost predicate Valid()
      reads this
    {
      && singleOriginal != Some(Patched)
      && (singleGetter == Patched ==> singleOriginal == Some(Original))
      && twoOriginal != Some(Patched)
      && (twoGetter == Patched ==> twoOriginal == Some(Original))
    }

    /** The classes as defined, before any mapping is applied. */
    constructor ()
      ensures Valid()
      ensures singleGetter == Original && singleOriginal == None && singleMapping == map[]
      ensures twoGetter == Original && twoOriginal == None && twoMapping == map[]
    {
      singleGetter := Original;
      singleOriginal := None;
      singleMapping := map[];
      twoGetter := Original;
      twoOriginal := None;
      twoMapping := map[];
    }

    /** `SingleHandActions().get_action(gesture)` as currently routed. */
    function SingleGetAction(gesture: Option<string>, timestamp: string): (o: Outcome)
      requires Valid()
      reads this
      ensures singleGetter == Original ==> o == SingleHand.GetAction(gesture, timestamp)
      ensures |o.launched| <= 1
    {
      match singleGetter
      case Original => SingleHand.GetAction(gesture, timestamp)
      case Patched => PatchedSingle(singleMapping, gesture, timestamp)
    }

    /** `TwoHandsActions().get_action(gesture)` as currently routed. */
    function TwoGetAction(gesture: Option<string>, outcome: TwoHands.RunOutcome): (o: Outcome)
      requires Valid()
      reads this
      ensures twoGetter == Original ==> o == TwoHands.GetAction(gesture, outcome)
      ensures |o.launched| <= 1
    {
      match twoGetter
      case Original => TwoHands.GetAction(gesture, outcome)
      case Patched => PatchedTwo(twoMapping, gesture, outcome)
    }

    /** `apply_mapping`: capture each original once, store copies of the
        mappings and install the patched methods. Applying it again keeps
        the first captured originals, so the fallback never reaches a
        patched method. */
    method ApplyMapping(singleMap: map<string, string>, twoMap: map<string, string>)
      requires Valid()
      modifies this
      ensures Valid()
      ensures singleOriginal == (if old(singleOriginal).None? then Some(old(singleGetter)) else old(singleOriginal))
      ensures twoOriginal == (if old(twoOriginal).None? then Some(old(twoGetter)) else old(twoOriginal))
      ensures singleOriginal == Some(Original) && twoOriginal == Some(Original)
      ensures singleMapping == singleMap && twoMapping == twoMap
      ensures singleGetter == Patched && twoGetter == Patched
      ensures forall g, t :: SingleGetAction(g, t) == PatchedSingle(singleMap, g, t)
      ensures forall g, r :: TwoGetAction(g, r) == PatchedTwo(twoMap, g, r)
    {
      assert singleOriginal.Some? ==> singleOriginal.value == Original;
      assert twoOriginal.Some? ==> twoOriginal.value == Original;
      if singleOriginal.None? {
        singleOriginal := Some(singleGetter);
      }
      if twoOriginal.None? {
        twoOriginal := Some(twoGetter);
      }
      singleMapping := singleMap;
      twoMapping := twoMap;
      singleGetter := Patched;
      twoGetter := Patched;
    }
  }
}
