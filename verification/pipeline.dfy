// How the layers fit together: the labels the two recognisers produce,
// and what the action classes (as defined, or overlaid by the UI
// mapping) do with them.

module Pipeline {
  import opened Base
  import opened Models
  import HandsHandler
  import Legacy
  import Detector
  import SingleHand
  import TwoHands
  import UiConstants
  import Interface

  // ---------------------------------------------------------------------
  // The hands processor feeding the action classes

  /** No string the combiner can start with spells the two-open-palms
      label: "None" and the four single-hand labels all differ from the
      prefix of "is_two_stops" of their length. */
  lemma NoLabelStartsTwoStops(p: string, r: string)
    requires p in {"None", "is_like", "is_dislike", "is_stop", "is_okay"}
    requires |r| >= |p| && r[..|p|] == p
    ensures r != Value(TwoStops)
  {
    var t := Value(TwoStops);
    assert t[..4] == "is_t" && t[..7] == "is_two_" && t[..10] == "is_two_sto";
    assert t[..|p|] != p;
  }

  /** With two hands in view the hands processor never produces the label
      of the two-open-palms member: a pair of equal labels contains a
      blank, and any other label starts with a single-hand label. */
  lemma HandlerPairIsNeverTwoStops(layout: HandsHandler.FingerLayout, hands: seq<Hand>)
    requires HandsHandler.ValidLayout(layout) && |hands| == 2
    ensures HandsHandler.FrameLabel(layout, hands) != Value(TwoStops)
  {
    var detected := seq(|hands|, i requires 0 <= i < |hands| => HandsHandler.ClassifySingleHand(layout, hands[i]));
    var r := HandsHandler.FrameLabel(layout, hands);
    assert r == HandsHandler.Combine(detected, 2);
    if detected[0] == detected[1] {
      var p := HandsHandler.Show(detected[0]);
      assert r == p + " " + p;
      assert r[..|p|] == p;
      NoLabelStartsTwoStops(p, r);
    } else {
      var present := HandsHandler.Present(detected);
      if present != [] {
        assert Some(present[0]) in detected;
        assert r == Join(", ", present);
        NoLabelStartsTwoStops(present[0], r);
      }
    }
  }

  /** So a two-hand dispatch of the hands processor reaches a
      `TwoHandsActions` that does nothing with it, unless the UI mapping
      is applied. */
  lemma HandlerTwoHandDispatchInert(layout: HandsHandler.FingerLayout, hands: seq<Hand>,
                                    outcome: TwoHands.RunOutcome)
    requires HandsHandler.ValidLayout(layout) && |hands| == 2
    ensures HandsHandler.TargetFor(|hands|) == HandsHandler.TwoHandsTarget
    ensures TwoHands.GetAction(Some(HandsHandler.FrameLabel(layout, hands)), outcome) == NoAction
  {
    HandlerPairIsNeverTwoStops(layout, hands);
    ValueRoundTrip(TwoStops);
  }

  /** Two open palms seen by the hands processor give "is_stop is_stop",
      and the default two-hand mapping sends that label to the music
      action. This relates two separate entry points: nothing in the
      modelled code hands the processor's labels to the patched classes. */
  lemma DefaultMappingStartsMusicForTwoPalms(layout: HandsHandler.FingerLayout, hands: seq<Hand>,
                                             outcome: TwoHands.RunOutcome)
    requires HandsHandler.ValidLayout(layout) && |hands| == 2
    requires HandsHandler.Classify(layout, hands[0]) == Some(Stop)
    requires HandsHandler.Classify(layout, hands[1]) == Some(Stop)
    ensures HandsHandler.FrameLabel(layout, hands) == "is_stop is_stop"
    ensures Interface.PatchedTwo(UiConstants.DefaultTwoMapping, Some(HandsHandler.FrameLabel(layout, hands)), outcome)
            == TwoHands.TwoGestureAction(outcome)
  {
    var detected := seq(|hands|, i requires 0 <= i < |hands| => HandsHandler.ClassifySingleHand(layout, hands[i]));
    assert detected[0] == Some("is_stop") && detected[1] == Some("is_stop");
    Interface.DefaultTwoAddsPairOfStops(Some("is_stop is_stop"), outcome);
  }

  /** With one hand the label dispatched is that hand's label, and the
      single-hand actions run exactly when the hand was recognised. */
  lemma HandlerSingleHandActs(layout: HandsHandler.FingerLayout, hand: Hand, timestamp: string)
    requires HandsHandler.ValidLayout(layout)
    ensures HandsHandler.Classify(layout, hand).Some? ==>
              HandsHandler.FrameLabel(layout, [hand]) == Value(HandsHandler.Classify(layout, hand).value)
    ensures HandsHandler.Classify(layout, hand).None? ==> HandsHandler.FrameLabel(layout, [hand]) == ""
    ensures |SingleHand.GetAction(Some(HandsHandler.FrameLabel(layout, [hand])), timestamp).launched| == 1
            <==> HandsHandler.Classify(layout, hand).Some?
  {
    var detected := seq(1, i requires 0 <= i < 1 => HandsHandler.ClassifySingleHand(layout, [hand][i]));
    assert detected == [HandsHandler.ClassifySingleHand(layout, hand)];
    var present := HandsHandler.Present(detected);
    if HandsHandler.Classify(layout, hand).Some? {
      assert present == [Value(HandsHandler.Classify(layout, hand).value)];
    } else {
      assert present == [];
    }
  }

  /** Two hands that are both unrecognised still give a non-empty label,
      "None None", which the counter treats like any other. */
  lemma UnrecognisedPairIsCounted(layout: HandsHandler.FingerLayout, hands: seq<Hand>,
                                  c: HandsHandler.Counter, threshold: int)
    requires HandsHandler.ValidLayout(layout) && |hands| == 2
    requires HandsHandler.Classify(layout, hands[0]).None? && HandsHandler.Classify(layout, hands[1]).None?
    ensures HandsHandler.FrameLabel(layout, hands) == "None None"
    ensures HandsHandler.HandlerFrame(c, HandsHandler.FrameLabel(layout, hands), threshold).0.previous
            == Some("None None")
  {
    var detected := seq(|hands|, i requires 0 <= i < |hands| => HandsHandler.ClassifySingleHand(layout, hands[i]));
    assert detected[0] == None && detected[1] == None;
  }

  /** The two debouncers on one label held for n frames, with a threshold
      of 50: the hands processor dispatches on every frame from the 50th,
      the older loop once per 50 frames, so they agree exactly while n is
      at most 50. */
  lemma DebouncersCompared(c: HandsHandler.Counter, g: string, n: nat)
    requires g != "" && c.previous != Some(g) && n >= 1
    ensures HandsHandler.HandlerRun(c, HandsHandler.Repeat(g, n), 50).1 == if n < 50 then 0 else n - 49
    ensures Legacy.LegacyRun(c, HandsHandler.Repeat(g, n)).1 == n / 50
    ensures HandsHandler.HandlerRun(c, HandsHandler.Repeat(g, n), 50).1 == Legacy.LegacyRun(c, HandsHandler.Repeat(g, n)).1
            <==> n <= 50
  {
    HandsHandler.HandlerHeld(c, g, n, 50);
    Legacy.LegacyHeld(c, g, n);
    if n > 50 {
      assert n / 50 * 50 <= n;
      assert n / 50 < n - 49;
    }
  }

  // ---------------------------------------------------------------------
  // The detector feeding the action classes (the mapper window's frame
  // handler)

  /** A detected label goes to the two-hand actions when it is
      "is_two_stops" and to the single-hand actions otherwise; no label,
      or an empty one, does nothing. */
  function RouteDetection(routing: Interface.ActionRouting, gesture: Option<string>,
                          timestamp: string, outcome: TwoHands.RunOutcome): (o: Outcome)
    requires routing.Valid()
    reads routing
    ensures gesture.None? || gesture == Some("") ==> o == NoAction
    ensures gesture == Some("is_two_stops") ==> o == routing.TwoGetAction(gesture, outcome)
    ensures gesture.Some? && gesture.value != "" && gesture.value != "is_two_stops" ==>
              o == routing.SingleGetAction(gesture, timestamp)
    ensures |o.launched| <= 1
  {
    if gesture.None? || gesture.value == "" then NoAction
    else if gesture.value == "is_two_stops" then routing.TwoGetAction(gesture, outcome)
    else routing.SingleGetAction(gesture, timestamp)
  }

  /** Every label the detector reports has an action: it launches exactly
      one process, whether the action classes are as defined or overlaid
      with the default mapping. */
  lemma EveryDetectionActs(routing: Interface.ActionRouting, s: Detector.DetectorState, hands: seq<Hand>,
                           t: real, timestamp: string, outcome: TwoHands.RunOutcome)
    requires routing.Valid()
    requires routing.singleGetter == Interface.Original || routing.singleMapping == UiConstants.DefaultSingleMapping
    requires routing.twoGetter == Interface.Original || routing.twoMapping == UiConstants.DefaultTwoMapping
    requires Detector.DetectStep(s, hands, t).1.Some?
    ensures |RouteDetection(routing, Detector.DetectStep(s, hands, t).1, timestamp, outcome).launched| == 1
  {
    var g := Detector.DetectStep(s, hands, t).1;
    if routing.singleGetter == Interface.Patched {
      Interface.DefaultSingleIsOriginal(g, timestamp);
    }
    if routing.twoGetter == Interface.Patched {
      Interface.DefaultTwoAddsPairOfStops(g, outcome);
    }
  }
}
