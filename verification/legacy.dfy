// The earlier single-file pipeline: the same finger rules with emoji
// labels, and a debounce kept in module globals that resets its count
// after every confirmation.

module Legacy {
  import opened Base
  import opened Models
  import HandsHandler

  const GestureThreshold: int := 50

  /** The emoji each single-hand gesture is printed as. */
  function Emoji(g: Gesture): string
    requires g.IsSingleHand()
  {
    match g
    case Like => "\U{1F44D}"
    case Dislike => "\U{1F44E}"
    case Stop => "\U{270B}"
    case Okay => "\U{1F44C}"
  }

  /** The label the rules of the current processor give with the reference
      layout, spelt as an emoji. */
  function LegacyLabel(hand: Hand): Option<string> {
    match HandsHandler.Classify(HandsHandler.ReferenceLayout, hand)
    case None => None
    case Some(g) => Some(Emoji(g))
  }

  /** The fist test written over the two index lists is the fist test of
      the reference layout. */
  lemma ReferenceFist(hand: Hand, tips: seq<nat>, bases: seq<nat>)
    requires tips == HandsHandler.ReferenceLayout.tips && bases == HandsHandler.ReferenceLayout.bases
    ensures HandsHandler.ValidLayout(HandsHandler.ReferenceLayout)
    ensures (forall k | 0 <= k < 5 :: Abs(hand[tips[k]].x - hand[bases[k]].x) < 0.05)
            == HandsHandler.IsFist(HandsHandler.ReferenceLayout, hand)
  {
  }

  /** With the reference flags and fist test, the emoji rules give the
      legacy label. */
  lemma ReferenceRules(hand: Hand, flags: seq<bool>, isFist: bool)
    requires HandsHandler.ValidLayout(HandsHandler.ReferenceLayout)
    requires flags == HandsHandler.FingerFlags(HandsHandler.ReferenceLayout, hand)
    requires isFist == HandsHandler.IsFist(HandsHandler.ReferenceLayout, hand)
    ensures LegacyLabel(hand) ==
              if !isFist && flags[0] && true !in flags[1..] then Some("\U{1F44D}")
              else if !isFist && !flags[0] && true !in flags[1..] then Some("\U{1F44E}")
              else if false !in flags then Some("\U{270B}")
              else if Abs(hand[8].x - hand[4].x) < 0.05 && Abs(hand[8].y - hand[4].y) < 0.05
              then Some("\U{1F44C}")
              else None
  {
  }

  /** `classify_single_hand`: builds the extension flags finger by finger,
      puts the thumb in front and applies the rules in order. It agrees with
      the current processor's classification under the reference layout. */
  method ClassifySingleHand(hand: Hand) returns (r: Option<string>)
    ensures r == LegacyLabel(hand)
    ensures r.Some? ==> r.value in {"\U{1F44D}", "\U{1F44E}", "\U{270B}", "\U{1F44C}"}
  {
    var fingerTips: seq<nat> := [4, 8, 12, 16, 20];
    var fingerBase: seq<nat> := [2, 5, 9, 13, 17];
    ghost var layout := HandsHandler.ReferenceLayout;

    var flags: seq<bool> := [];
    var i := 1;
    while i < 5
      invariant 1 <= i <= 5
      invariant |flags| == i - 1
      invariant forall j | 0 <= j < i - 1 ::
                  flags[j] == HandsHandler.IsFingerExtended(hand, fingerTips[j + 1], fingerBase[j + 1])
    {
      if hand[fingerTips[i]].y < hand[fingerBase[i]].y - 0.02
         && hand[fingerTips[i]].z < hand[fingerBase[i]].z {
        flags := flags + [true];
      } else {
        flags := flags + [false];
      }
      i := i + 1;
    }

    var thumbTip := hand[4];
    var thumbBase := hand[2];
    if thumbTip.y < thumbBase.y - 0.05 && thumbTip.z < thumbBase.z {
      flags := [true] + flags;
    } else {
      flags := [false] + flags;
    }
    assert flags == HandsHandler.FingerFlags(layout, hand);

    var isFist := forall k | 0 <= k < 5 :: Abs(hand[fingerTips[k]].x - hand[fingerBase[k]].x) < 0.05;
    ReferenceFist(hand, fingerTips, fingerBase);
    ReferenceRules(hand, flags, isFist);

    if !isFist && flags[0] && true !in flags[1..] {
      r := Some("\U{1F44D}");
    } else if !isFist && !flags[0] && true !in flags[1..] {
      r := Some("\U{1F44E}");
    } else if false !in flags {
      r := Some("\U{270B}");
    } else {
      var indexTip := hand[8];
      if Abs(indexTip.x - thumbTip.x) < 0.05 && Abs(indexTip.y - thumbTip.y) < 0.05 {
        r := Some("\U{1F44C}");
      } else {
        r := None;
      }
    }
  }

  /** The comprehension `[classify_single_hand(hand) for hand in hands]`. */
  method ClassifyEach(hands: seq<Hand>) returns (detected: seq<Option<string>>)
    ensures detected == seq(|hands|, j requires 0 <= j < |hands| => LegacyLabel(hands[j]))
  {
    detected := [];
    var i := 0;
    while i < |hands|
      invariant 0 <= i <= |hands|
      invariant |detected| == i
      invariant forall j | 0 <= j < i :: detected[j] == LegacyLabel(hands[j])
    {
      var handLabel := ClassifySingleHand(hands[i]);
      detected := detected + [handLabel];
      i := i + 1;
    }
  }

  /** The combined label of a frame; `old.py` repeats the combiner of the
      current processor, without filtering hands. */
  function LegacyFrameLabel(hands: seq<Hand>): string {
    HandsHandler.Combine(seq(|hands|, i requires 0 <= i < |hands| => LegacyLabel(hands[i])), |hands|)
  }

  // ---------------------------------------------------------------------
  // Debounce

  type Counter = HandsHandler.Counter

  /** One non-empty label: count it, and on reaching the threshold confirm
      it and reset the count to 0, keeping the label. */
  function LegacyStep(c: Counter, gesture: string): (Counter, bool) {
    var next := if c.previous == Some(gesture) then HandsHandler.Counter(c.previous, c.count + 1)
                else HandsHandler.Counter(Some(gesture), 1);
    if next.count >= GestureThreshold then (HandsHandler.Counter(next.previous, 0), true)
    else (next, false)
  }

  /** One frame: an empty combined label leaves the counter untouched. */
  function LegacyFrame(c: Counter, gesture: string): (Counter, bool) {
    if gesture == "" then (c, false) else LegacyStep(c, gesture)
  }

  function LegacyRun(c: Counter, labels: seq<string>): (Counter, nat)
    decreases |labels|
  {
    if labels == [] then (c, 0)
    else
      var first := LegacyFrame(c, labels[0]);
      var rest := LegacyRun(first.0, labels[1..]);
      (rest.0, rest.1 + if first.1 then 1 else 0)
  }

  /** The count stays below the threshold after every frame. */
  lemma LegacyStepBounded(c: Counter, gesture: string)
    requires 0 <= c.count < GestureThreshold
    ensures 0 <= LegacyFrame(c, gesture).0.count < GestureThreshold
  {
  }

  lemma {:induction false} LegacyRunAppend(c: Counter, a: seq<string>, b: seq<string>)
    ensures LegacyRun(c, a + b) ==
            (LegacyRun(LegacyRun(c, a).0, b).0,
             LegacyRun(c, a).1 + LegacyRun(LegacyRun(c, a).0, b).1)
    decreases |a|
  {
    if a != [] {
      assert (a + b)[0] == a[0];
      assert (a + b)[1..] == a[1..] + b;
      LegacyRunAppend(LegacyFrame(c, a[0]).0, a[1..], b);
    } else {
      assert a + b == b;
    }
  }

  /** Holding a label from a count of k: one confirmation per full 50
      frames, and the remainder is what is left counted. */
  lemma {:induction false} LegacyHeldFrom(g: string, k: int, m: nat)
    requires g != "" && 0 <= k < GestureThreshold
    ensures LegacyRun(HandsHandler.Counter(Some(g), k), HandsHandler.Repeat(g, m)) ==
            (HandsHandler.Counter(Some(g), (k + m) % GestureThreshold), (k + m) / GestureThreshold)
    decreases m
  {
    if m > 0 {
      assert HandsHandler.Repeat(g, m)[1..] == HandsHandler.Repeat(g, m - 1);
      if k + 1 == GestureThreshold {
        LegacyHeldFrom(g, 0, m - 1);
      } else {
        LegacyHeldFrom(g, k + 1, m - 1);
      }
    }
  }

  /** A new label held for n frames confirms once per 50 frames: never
      before the 50th, exactly once from the 50th to the 99th. */
  lemma LegacyHeld(c: Counter, g: string, n: nat)
    requires g != "" && c.previous != Some(g) && n >= 1
    ensures LegacyRun(c, HandsHandler.Repeat(g, n)) ==
            (HandsHandler.Counter(Some(g), n % GestureThreshold), n / GestureThreshold)
  {
    assert HandsHandler.Repeat(g, n)[1..] == HandsHandler.Repeat(g, n - 1);
    LegacyHeldFrom(g, 1, n - 1);
  }

  /** 49 frames of one label, one of another, then 50 of the first: one
      confirmation, on the last frame, and the count is back to 0. */
  lemma LegacyInterruptedRun(c: Counter, s: string, t: string)
    requires s != "" && t != "" && s != t && c.previous != Some(s)
    ensures LegacyRun(c, HandsHandler.Repeat(s, 49) + [t] + HandsHandler.Repeat(s, 50)) ==
            (HandsHandler.Counter(Some(s), 0), 1)
  {
    LegacyRunAppend(c, HandsHandler.Repeat(s, 49) + [t], HandsHandler.Repeat(s, 50));
    LegacyRunAppend(c, HandsHandler.Repeat(s, 49), [t]);
    LegacyHeld(c, s, 49);
    LegacyHeld(HandsHandler.Counter(Some(t), 1), s, 50);
  }

  // ---------------------------------------------------------------------
  // The module globals

  /** `both_hands_detected`, `previous_gesture` and `gesture_count`. */
  class ModuleState {
    var bothHandsDetected: bool
    var previousGesture: Option<string>
    var gestureCount: int

    ghost predicate Valid()
      reads this
    {
      0 <= gestureCount < GestureThreshold
    }

    function State(): Counter
      reads this
    {
      HandsHandler.Counter(previousGesture, gestureCount)
    }

    constructor ()
      ensures Valid()
      ensures !bothHandsDetected && State() == HandsHandler.InitialCounter
    {
      bothHandsDetected := false;
      previousGesture := None;
      gestureCount := 0;
    }

    /** `classify_hands`. Returns whether the label was confirmed; the
        message and the pause that follow are not modelled. */
    method ClassifyHands(hands: seq<Hand>) returns (confirmed: bool)
      requires Valid()
      modifies this
      ensures Valid()
      ensures bothHandsDetected == (|hands| == 2)
      ensures (State(), confirmed) == LegacyFrame(old(State()), LegacyFrameLabel(hands))
      ensures LegacyFrameLabel(hands) == "" ==> State() == old(State())
    {
      var numHands := |hands|;
      if numHands == 2 {
        if !bothHandsDetected {
          bothHandsDetected := true;
        }
      } else {
        bothHandsDetected := false;
      }

      var detected := ClassifyEach(hands);
      var gesture := HandsHandler.Combine(detected, numHands);
      assert gesture == LegacyFrameLabel(hands);
      confirmed := CountGesture(gesture);
    }

    /** The counting part of `classify_hands`: a non-empty label is counted,
        and the 50th frame in a row confirms it and resets the count. */
    method CountGesture(gesture: string) returns (confirmed: bool)
      requires Valid()
      modifies this
      ensures Valid()
      ensures bothHandsDetected == old(bothHandsDetected)
      ensures (State(), confirmed) == LegacyFrame(old(State()), gesture)
    {
      confirmed := false;
      if gesture != "" {
        if Some(gesture) == previousGesture {
          gestureCount := gestureCount + 1;
        } else {
          previousGesture := Some(gesture);
          gestureCount := 1;
        }
        if gestureCount >= GestureThreshold {
          confirmed := true;
          gestureCount := 0;
        }
      }
    }
  }
}
