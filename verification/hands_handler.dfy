// `HandsProcessor`: per-hand classification by finger extension, the
// combination of the per-hand labels of one frame, and the repeat-count
// debounce that dispatches a stable label to an action class.

module HandsHandler {
  import opened Base
  import opened Models

  // ---------------------------------------------------------------------
  // Per-hand classification

  /** FINGER_TIPS and FINGER_BASES of the settings module: landmark indices
      of each finger's tip and base, thumb first, then index, middle, ring
      and pinky. */
  datatype FingerLayout = FingerLayout(tips: seq<nat>, bases: seq<nat>)

  predicate ValidLayout(layout: FingerLayout) {
    && |layout.tips| == 5 && |layout.bases| == 5
    && (forall i | 0 <= i < 5 :: layout.tips[i] < 21 && layout.bases[i] < 21)
  }

  /** The layout the tracker's landmark numbering calls for. */
  const ReferenceLayout: FingerLayout := FingerLayout([4, 8, 12, 16, 20], [2, 5, 9, 13, 17])

  /** A non-thumb finger is extended when its tip is higher than its base
      by more than 0.02 and closer to the camera. */
  predicate IsFingerExtended(hand: Hand, tip: nat, base: nat)
    requires tip < 21 && base < 21
  {
    hand[tip].y < hand[base].y - 0.02 && hand[tip].z < hand[base].z
  }

  /** The thumb (tip 4, base 2) needs a margin of 0.05 instead. */
  predicate IsThumbExtended(hand: Hand) {
    hand[4].y < hand[2].y - 0.05 && hand[4].z < hand[2].z
  }

  /** The five extension flags, thumb first. */
  function FingerFlags(layout: FingerLayout, hand: Hand): (flags: seq<bool>)
    requires ValidLayout(layout)
    ensures |flags| == 5
    ensures flags[0] == IsThumbExtended(hand)
    ensures forall i | 1 <= i < 5 ::
              flags[i] == IsFingerExtended(hand, layout.tips[i], layout.bases[i])
  {
    [IsThumbExtended(hand)]
      + seq(4, j requires 0 <= j < 4 =>
              IsFingerExtended(hand, layout.tips[j + 1], layout.bases[j + 1]))
  }

  /** Every tip is within 0.05 of its base horizontally. */
  predicate IsFist(layout: FingerLayout, hand: Hand)
    requires ValidLayout(layout)
  {
    forall i | 0 <= i < 5 :: Abs(hand[layout.tips[i]].x - hand[layout.bases[i]].x) < 0.05
  }

  predicate NoFingerExtended(flags: seq<bool>)
    requires |flags| == 5
  {
    true !in flags[1..]
  }

  predicate AllExtended(flags: seq<bool>) {
    false !in flags
  }

  /** Index tip (8) and thumb tip (4) closer than 0.05 on both axes. */
  predicate TipsTouch(hand: Hand) {
    Abs(hand[8].x - hand[4].x) < 0.05 && Abs(hand[8].y - hand[4].y) < 0.05
  }

  /** `_identify_gesture`: the rules in their priority order, stated as what
      each outcome requires. */
  function Identify(layout: FingerLayout, hand: Hand, flags: seq<bool>): (r: Option<Gesture>)
    requires ValidLayout(layout) && |flags| == 5
    ensures r.Some? ==> r.value.IsSingleHand()
    ensures IsFist(layout, hand) ==> r != Some(Like) && r != Some(Dislike)
    ensures !IsFist(layout, hand) && NoFingerExtended(flags) ==>
              r == Some(if flags[0] then Like else Dislike)
    ensures AllExtended(flags) ==> r == Some(Stop)
    ensures r == Some(Stop) ==> AllExtended(flags)
    ensures r == Some(Okay) <==>
              && (IsFist(layout, hand) || !NoFingerExtended(flags))
              && !AllExtended(flags) && TipsTouch(hand)
    ensures r == None <==>
              && (IsFist(layout, hand) || !NoFingerExtended(flags))
              && !AllExtended(flags) && !TipsTouch(hand)
  {
    var fist := IsFist(layout, hand);
    assert AllExtended(flags) ==> !NoFingerExtended(flags) by {
      if AllExtended(flags) {
        assert flags[1] in flags && flags[1..][0] == flags[1];
      }
    }
    if !fist && flags[0] && NoFingerExtended(flags) then Some(Like)
    else if !fist && !flags[0] && NoFingerExtended(flags) then Some(Dislike)
    else if AllExtended(flags) then Some(Stop)
    else if TipsTouch(hand) then Some(Okay)
    else None
  }

  /** `classify_single_hand`, as the gesture member. */
  function Classify(layout: FingerLayout, hand: Hand): Option<Gesture>
    requires ValidLayout(layout)
  {
    Identify(layout, hand, FingerFlags(layout, hand))
  }

  /** `classify_single_hand`, as the member's value string it returns. */
  function ClassifySingleHand(layout: FingerLayout, hand: Hand): (r: Option<string>)
    requires ValidLayout(layout)
    ensures r.Some? ==> r.value in {"is_like", "is_dislike", "is_stop", "is_okay"}
    ensures IsFist(layout, hand) ==> r != Some("is_like") && r != Some("is_dislike")
    ensures IsThumbExtended(hand)
            && (forall i | 1 <= i < 5 :: IsFingerExtended(hand, layout.tips[i], layout.bases[i]))
            ==> r == Some("is_stop")
  {
    var flags := FingerFlags(layout, hand);
    assert IsThumbExtended(hand)
           && (forall i | 1 <= i < 5 :: IsFingerExtended(hand, layout.tips[i], layout.bases[i]))
           ==> AllExtended(flags) by {
      if IsThumbExtended(hand)
         && (forall i | 1 <= i < 5 :: IsFingerExtended(hand, layout.tips[i], layout.bases[i])) {
        assert forall i | 0 <= i < 5 :: flags[i];
      }
    }
    match Classify(layout, hand)
    case None => None
    case Some(g) => Some(Value(g))
  }

  // ---------------------------------------------------------------------
  // Combining the labels of one frame

  /** Python's `f"{g}"` of an optional label: `None` prints as "None". */
  function Show(g: Option<string>): string {
    match g
    case None => "None"
    case Some(s) => s
  }

  /** A label that Python treats as true: present and non-empty. */
  predicate Labelled(g: Option<string>) {
    g.Some? && g.value != ""
  }

  /** The labels that are truthy, in hand order. */
  function Present(detected: seq<Option<string>>): (r: seq<string>)
    ensures forall i | 0 <= i < |r| :: r[i] != "" && Some(r[i]) in detected
    ensures forall i | 0 <= i < |detected| :: Labelled(detected[i]) ==> detected[i].value in r
    ensures |r| <= |detected|
  {
    if detected == [] then []
    else
      var rest := Present(detected[1..]);
      if Labelled(detected[0]) then [detected[0].value] + rest else rest
  }

  /** The labels one hand contributes: its label if truthy, else none. */
  function Kept(g: Option<string>): seq<string> {
    if Labelled(g) then [g.value] else []
  }

  /** One hand keeps its label exactly when it is truthy. */
  lemma PresentSingle(g: Option<string>)
    ensures Present([g]) == Kept(g)
  {
    assert [g][1..] == [];
  }

  /** Filtering commutes with concatenation, so the kept labels keep their
      hand order and each is kept once. */
  lemma {:induction false} PresentAppend(xs: seq<Option<string>>, ys: seq<Option<string>>)
    ensures Present(xs + ys) == Present(xs) + Present(ys)
    decreases |xs|
  {
    if xs == [] {
      assert xs + ys == ys;
    } else {
      assert (xs + ys)[0] == xs[0];
      assert (xs + ys)[1..] == xs[1..] + ys;
      PresentAppend(xs[1..], ys);
    }
  }

  /** `_get_combined_gesture`: two hands with equal labels (both `None`
      included) give the pair "<a> <a>"; otherwise the truthy labels are
      joined with ", " in hand order. */
  function Combine(detected: seq<Option<string>>, numHands: nat): (r: string)
    requires numHands == 2 ==> |detected| >= 2
    ensures numHands == 2 && detected[0] == detected[1] ==>
              r == Show(detected[0]) + " " + Show(detected[0])
    ensures !(numHands == 2 && detected[0] == detected[1]) ==>
              (r == "" <==> Present(detected) == [])
    ensures !(numHands == 2 && detected[0] == detected[1]) && |Present(detected)| == 1 ==>
              r == Present(detected)[0]
    ensures |detected| == 1 ==>
              r == if Labelled(detected[0]) then detected[0].value else ""
    ensures |detected| == 2 && !(numHands == 2 && detected[0] == detected[1]) ==>
              r == if Labelled(detected[0]) && Labelled(detected[1])
                   then detected[0].value + ", " + detected[1].value
                   else if Labelled(detected[0]) then detected[0].value
                   else if Labelled(detected[1]) then detected[1].value
                   else ""
  {
    if numHands == 2 && detected[0] == detected[1] then
      Show(detected[0]) + " " + Show(detected[1])
    else
      JoinEmptyIff(", ", Present(detected));
      assert |detected| == 1 ==> Present(detected) == Kept(detected[0]) by {
        if |detected| == 1 {
          assert detected == [detected[0]];
          PresentSingle(detected[0]);
        }
      }
      assert |detected| == 2 ==> Present(detected) == Kept(detected[0]) + Kept(detected[1]) by {
        if |detected| == 2 {
          assert detected == [detected[0]] + [detected[1]];
          PresentAppend([detected[0]], [detected[1]]);
          PresentSingle(detected[0]);
          PresentSingle(detected[1]);
        }
      }
      Join(", ", Present(detected))
  }

  /** The combined label of a frame: each hand classified, then combined. */
  function FrameLabel(layout: FingerLayout, hands: seq<Hand>): string
    requires ValidLayout(layout)
  {
    Combine(seq(|hands|, i requires 0 <= i < |hands| => ClassifySingleHand(layout, hands[i])), |hands|)
  }

  /** Two hands showing the same gesture are a different label from one
      hand showing it, so they cannot be routed alike. */
  lemma PairDiffersFromSingle(g: string)
    requires g != ""
    ensures Combine([Some(g), Some(g)], 2) != Combine([Some(g)], 1)
  {
    assert Present([Some(g)]) == [g];
    assert |Combine([Some(g), Some(g)], 2)| == 2 * |g| + 1;
  }

  // ---------------------------------------------------------------------
  // Debounce

  /** `previous_gesture` and `gesture_count`. */
  datatype Counter = Counter(previous: Option<string>, count: int)

  const InitialCounter: Counter := Counter(None, 0)

  /** `_process_detected_gesture`: the new counter, and whether this call
      dispatches. The count is never reset after dispatching. */
  function HandlerStep(c: Counter, gesture: string, threshold: int): (Counter, bool) {
    var next := if c.previous == Some(gesture) then Counter(c.previous, c.count + 1)
                else Counter(Some(gesture), 1);
    (next, next.count >= threshold)
  }

  /** One frame of `classify_hands`: an empty combined label is skipped. */
  function HandlerFrame(c: Counter, gesture: string, threshold: int): (Counter, bool) {
    if gesture == "" then (c, false) else HandlerStep(c, gesture, threshold)
  }

  /** A stream of combined labels: the final counter and how many frames
      dispatched. */
  function HandlerRun(c: Counter, labels: seq<string>, threshold: int): (Counter, nat)
    decreases |labels|
  {
    if labels == [] then (c, 0)
    else
      var first := HandlerFrame(c, labels[0], threshold);
      var rest := HandlerRun(first.0, labels[1..], threshold);
      (rest.0, rest.1 + if first.1 then 1 else 0)
  }

  function Repeat(g: string, n: nat): (r: seq<string>)
    ensures |r| == n && forall i | 0 <= i < n :: r[i] == g
  {
    seq(n, _ => g)
  }

  /** Frames numbered 1..m after a held count of k that reach the threshold. */
  function HeldFires(k: int, m: nat, threshold: int): nat {
    if k + m < threshold then 0
    else if k + 1 >= threshold then m
    else k + m - threshold + 1
  }

  lemma {:induction false} HandlerRunAppend(c: Counter, a: seq<string>, b: seq<string>, threshold: int)
    ensures HandlerRun(c, a + b, threshold) ==
            (HandlerRun(HandlerRun(c, a, threshold).0, b, threshold).0,
             HandlerRun(c, a, threshold).1 + HandlerRun(HandlerRun(c, a, threshold).0, b, threshold).1)
    decreases |a|
  {
    if a != [] {
      assert (a + b)[0] == a[0];
      assert (a + b)[1..] == a[1..] + b;
      HandlerRunAppend(HandlerFrame(c, a[0], threshold).0, a[1..], b, threshold);
    } else {
      assert a + b == b;
    }
  }

  /** Holding a label: the count keeps growing and every frame at or past
      the threshold dispatches. */
  lemma {:induction false} HandlerHeldFrom(g: string, k: int, m: nat, threshold: int)
    requires g != ""
    ensures HandlerRun(Counter(Some(g), k), Repeat(g, m), threshold) ==
            (Counter(Some(g), k + m), HeldFires(k, m, threshold))
    decreases m
  {
    if m > 0 {
      assert Repeat(g, m)[1..] == Repeat(g, m - 1);
      HandlerHeldFrom(g, k + 1, m - 1, threshold);
    }
  }

  /** A new label held for n frames: no dispatch before the threshold,
      one at the threshold, and one more on every frame after it. */
  lemma HandlerHeld(c: Counter, g: string, n: nat, threshold: int)
    requires g != "" && c.previous != Some(g) && n >= 1 && threshold >= 1
    ensures HandlerRun(c, Repeat(g, n), threshold) ==
            (Counter(Some(g), n), if n < threshold then 0 else n - threshold + 1)
  {
    assert Repeat(g, n)[1..] == Repeat(g, n - 1);
    HandlerHeldFrom(g, 1, n - 1, threshold);
  }

  /** A different label before the threshold restarts the count: 49 frames
      of one label, one of another, then 50 of the first dispatch once, on
      the last frame. */
  lemma HandlerInterruptedRun(c: Counter, s: string, t: string)
    requires s != "" && t != "" && s != t && c.previous != Some(s)
    ensures HandlerRun(c, Repeat(s, 49) + [t] + Repeat(s, 50), 50) == (Counter(Some(s), 50), 1)
  {
    HandlerRunAppend(c, Repeat(s, 49) + [t], Repeat(s, 50), 50);
    HandlerRunAppend(c, Repeat(s, 49), [t], 50);
    HandlerHeld(c, s, 49, 50);
    HandlerHeld(Counter(Some(t), 1), s, 50, 50);
  }

  // ---------------------------------------------------------------------
  // The processor object

  datatype Target = SingleHandTarget | TwoHandsTarget

  /** `action_class().get_action(gesture)`: which class receives which label. */
  datatype Dispatch = Dispatch(target: Target, gesture: string)

  function TargetFor(numHands: nat): Target {
    if numHands == 2 then TwoHandsTarget else SingleHandTarget
  }

  class HandsProcessor {
    const layout: FingerLayout
    const threshold: int
    var previousGesture: Option<string>
    var gestureCount: int

    function State(): Counter
      reads this
    {
      Counter(previousGesture, gestureCount)
    }

    constructor (layout: FingerLayout, threshold: int)
      requires ValidLayout(layout)
      ensures this.layout == layout && this.threshold == threshold
      ensures State() == InitialCounter
    {
      this.layout := layout;
      this.threshold := threshold;
      previousGesture := None;
      gestureCount := 0;
    }

    /** `_process_detected_gesture`. The blocking pause after dispatching
        is not modelled; the dispatch is returned instead of performed. */
    method ProcessDetectedGesture(gesture: string, numHands: nat) returns (fired: Option<Dispatch>)
      modifies this
      ensures State() == HandlerStep(old(State()), gesture, threshold).0
      ensures old(previousGesture) == Some(gesture) ==> gestureCount == old(gestureCount) + 1
      ensures old(previousGesture) != Some(gesture) ==> gestureCount == 1
      ensures previousGesture == Some(gesture)
      ensures fired == if gestureCount >= threshold
                       then Some(Dispatch(TargetFor(numHands), gesture)) else None
    {
      if Some(gesture) == previousGesture {
        gestureCount := gestureCount + 1;
      } else {
        previousGesture := Some(gesture);
        gestureCount := 1;
      }
      if gestureCount >= threshold {
        fired := Some(Dispatch(TargetFor(numHands), gesture));
      } else {
        fired := None;
      }
    }

    /** `classify_hands`: classify, combine, and count a non-empty label. */
    method ClassifyHands(hands: seq<Hand>) returns (fired: Option<Dispatch>)
      requires ValidLayout(layout)
      modifies this
      ensures State() == HandlerFrame(old(State()), FrameLabel(layout, hands), threshold).0
      ensures fired.Some? == HandlerFrame(old(State()), FrameLabel(layout, hands), threshold).1
      ensures fired.Some? ==> fired.value == Dispatch(TargetFor(|hands|), FrameLabel(layout, hands))
      ensures FrameLabel(layout, hands) == "" ==> State() == old(State())
    {
      var detected := seq(|hands|, i requires 0 <= i < |hands| => ClassifySingleHand(layout, hands[i]));
      var gesture := Combine(detected, |hands|);
      if gesture != "" {
        fired := ProcessDetectedGesture(gesture, |hands|);
      } else {
        fired := None;
      }
    }
  }
}
