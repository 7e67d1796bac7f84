// `GestureDetector`: joint-based rules for one hand, the two-open-palms
// rule for two hands, and a per-gesture cooldown kept as a timestamp.

module Detector {
  import opened Base

  // Landmark indices of the tracker's numbering.
  const Wrist: nat := 0
  const ThumbIp: nat := 3
  const ThumbTip: nat := 4
  const IndexPip: nat := 6
  const IndexTip: nat := 8
  const MiddlePip: nat := 10
  const MiddleTip: nat := 12
  const RingPip: nat := 14
  const RingTip: nat := 16
  const PinkyPip: nat := 18
  const PinkyTip: nat := 20

  /** Seconds between two reports of the same gesture. */
  const DefaultCooldown: real := 2.0

  /** Index, middle, ring and pinky tips all below their middle joints. */
  predicate FingersFolded(lm: Hand) {
    && lm[IndexTip].y > lm[IndexPip].y
    && lm[MiddleTip].y > lm[MiddlePip].y
    && lm[RingTip].y > lm[RingPip].y
    && lm[PinkyTip].y > lm[PinkyPip].y
  }

  /** Thumb tip above its joint, which is above the wrist; fingers folded. */
  predicate IsLike(lm: Hand) {
    lm[ThumbTip].y < lm[ThumbIp].y < lm[Wrist].y && FingersFolded(lm)
  }

  /** Thumb tip below its joint, which is below the wrist; fingers folded. */
  predicate IsDislike(lm: Hand) {
    lm[ThumbTip].y > lm[ThumbIp].y > lm[Wrist].y && FingersFolded(lm)
  }

  /** Thumb tip right of its joint and the four finger tips above their
      middle joints. */
  predicate IsStop(lm: Hand) {
    && lm[ThumbTip].x > lm[ThumbIp].x
    && lm[IndexTip].y < lm[IndexPip].y
    && lm[MiddleTip].y < lm[MiddlePip].y
    && lm[RingTip].y < lm[RingPip].y
    && lm[PinkyTip].y < lm[PinkyPip].y
  }

  function SquaredDistance(a: Landmark, b: Landmark): real {
    (a.x - b.x) * (a.x - b.x) + (a.y - b.y) * (a.y - b.y)
  }

  /** Thumb and index tips less than 0.05 apart (compared squared, against
      0.0025) and the middle, ring and pinky tips raised. */
  predicate IsOkay(lm: Hand) {
    && SquaredDistance(lm[ThumbTip], lm[IndexTip]) < 0.0025
    && lm[MiddleTip].y < lm[MiddlePip].y
    && lm[RingTip].y < lm[RingPip].y
    && lm[PinkyTip].y < lm[PinkyPip].y
  }

  /** The thumb points up in one and down in the other. */
  lemma LikeExcludesDislike(lm: Hand)
    ensures !(IsLike(lm) && IsDislike(lm))
  {
  }

  /** The index tip is below its joint in one and above it in the other. */
  lemma LikeExcludesStop(lm: Hand)
    ensures !(IsLike(lm) && IsStop(lm))
    ensures !(IsDislike(lm) && IsStop(lm))
  {
  }

  /** The middle finger is folded in one and raised in the other. */
  lemma FoldedExcludesOkay(lm: Hand)
    ensures !(IsLike(lm) && IsOkay(lm))
    ensures !(IsDislike(lm) && IsOkay(lm))
  {
  }

  /** `_detect_single_hand_gesture`: like, dislike, stop, okay in that order.
      The first three never overlap, so only okay depends on the order. */
  function DetectSingleHand(lm: Hand): (r: Option<string>)
    ensures r == Some("is_like") <==> IsLike(lm)
    ensures r == Some("is_dislike") <==> IsDislike(lm)
    ensures r == Some("is_stop") <==> IsStop(lm)
    ensures r == Some("is_okay") <==> IsOkay(lm) && !IsStop(lm)
    ensures r == None <==> !IsLike(lm) && !IsDislike(lm) && !IsStop(lm) && !IsOkay(lm)
  {
    LikeExcludesDislike(lm);
    LikeExcludesStop(lm);
    FoldedExcludesOkay(lm);
    if IsLike(lm) then Some("is_like")
    else if IsDislike(lm) then Some("is_dislike")
    else if IsStop(lm) then Some("is_stop")
    else if IsOkay(lm) then Some("is_okay")
    else None
  }

  /** The gesture a frame shows before the cooldown is consulted: one hand
      is classified, two hands count only as two open palms, and any other
      number of hands shows nothing. */
  function Candidate(hands: seq<Hand>): (r: Option<string>)
    ensures |hands| == 1 ==> r == DetectSingleHand(hands[0])
    ensures |hands| == 2 ==> (r.Some? <==> IsStop(hands[0]) && IsStop(hands[1]))
    ensures r == Some("is_two_stops") <==> |hands| == 2 && IsStop(hands[0]) && IsStop(hands[1])
    ensures |hands| != 1 && |hands| != 2 ==> r == None
  {
    if |hands| == 1 then DetectSingleHand(hands[0])
    else if |hands| == 2 && IsStop(hands[0]) && IsStop(hands[1]) then Some("is_two_stops")
    else None
  }

  /** `last_gesture`, `last_gesture_time` and `cooldown`. */
  datatype DetectorState = DetectorState(lastGesture: Option<string>, lastGestureTime: real, cooldown: real)

  const InitialState: DetectorState := DetectorState(None, 0.0, DefaultCooldown)

  /** `_check_cooldown`. */
  predicate CheckCooldown(s: DetectorState, gesture: string, currentTime: real) {
    Some(gesture) != s.lastGesture || currentTime - s.lastGestureTime > s.cooldown
  }

  /** The part of `detect` after the tracker: the reported gesture and the
      new state. */
  function DetectStep(s: DetectorState, hands: seq<Hand>, currentTime: real): (r: (DetectorState, Option<string>))
    ensures r.1.Some? ==> r.1 == Candidate(hands)
    ensures r.1.Some? ==> r.0 == s.(lastGesture := r.1, lastGestureTime := currentTime)
    ensures r.1.None? ==> r.0 == s
    ensures Candidate(hands).Some? && CheckCooldown(s, Candidate(hands).value, currentTime) ==>
              r.1 == Candidate(hands)
    ensures r.1.Some? && r.1 == s.lastGesture ==> currentTime - s.lastGestureTime > s.cooldown
  {
    match Candidate(hands)
    case None => (s, None)
    case Some(g) =>
      if CheckCooldown(s, g, currentTime)
      then (s.(lastGesture := Some(g), lastGestureTime := currentTime), Some(g))
      else (s, None)
  }

  /** A sequence of frames with their clock readings. */
  function DetectRun(s: DetectorState, frames: seq<(seq<Hand>, real)>): (r: (DetectorState, seq<Option<string>>))
    ensures |r.1| == |frames|
    decreases |frames|
  {
    if frames == [] then (s, [])
    else
      var first := DetectStep(s, frames[0].0, frames[0].1);
      var rest := DetectRun(first.0, frames[1..]);
      (rest.0, [first.1] + rest.1)
  }

  /** Running two stretches of frames one after the other is running them
      as one: the second starts from the state the first leaves, and the
      reports are concatenated. */
  lemma {:induction false} DetectRunAppend(s: DetectorState, xs: seq<(seq<Hand>, real)>, ys: seq<(seq<Hand>, real)>)
    ensures DetectRun(s, xs + ys).0 == DetectRun(DetectRun(s, xs).0, ys).0
    ensures DetectRun(s, xs + ys).1 == DetectRun(s, xs).1 + DetectRun(DetectRun(s, xs).0, ys).1
    decreases |xs|
  {
    if xs == [] {
      assert xs + ys == ys;
    } else {
      assert (xs + ys)[0] == xs[0];
      assert (xs + ys)[1..] == xs[1..] + ys;
      DetectRunAppend(DetectStep(s, xs[0].0, xs[0].1).0, xs[1..], ys);
    }
  }

  /** The report for frame i is one step of `detect` from the state the
      frames before it left. */
  lemma DetectRunAt(s: DetectorState, frames: seq<(seq<Hand>, real)>, i: nat)
    requires i < |frames|
    ensures DetectRun(s, frames).1[i] == DetectStep(DetectRun(s, frames[..i]).0, frames[i].0, frames[i].1).1
    ensures DetectRun(s, frames[..i + 1]).0 == DetectStep(DetectRun(s, frames[..i]).0, frames[i].0, frames[i].1).0
  {
    var mid := DetectRun(s, frames[..i]).0;
    assert frames == frames[..i] + frames[i..];
    DetectRunAppend(s, frames[..i], frames[i..]);
    var one: seq<(seq<Hand>, real)> := [frames[i]];
    assert frames[..i + 1] == frames[..i] + one;
    DetectRunAppend(s, frames[..i], one);
    assert one[1..] == [];
    assert frames[i..][0] == frames[i];
  }

  /** Frames that report nothing leave the state as it was. */
  lemma {:induction false} SilentRunKeepsState(s: DetectorState, frames: seq<(seq<Hand>, real)>)
    requires forall i | 0 <= i < |DetectRun(s, frames).1| :: DetectRun(s, frames).1[i].None?
    ensures DetectRun(s, frames).0 == s
    decreases |frames|
  {
    if frames != [] {
      var first := DetectStep(s, frames[0].0, frames[0].1);
      assert first.1 == DetectRun(s, frames).1[0];
      forall i | 0 <= i < |DetectRun(first.0, frames[1..]).1|
        ensures DetectRun(first.0, frames[1..]).1[i].None?
      {
        assert DetectRun(first.0, frames[1..]).1[i] == DetectRun(s, frames).1[i + 1];
      }
      SilentRunKeepsState(first.0, frames[1..]);
    }
  }

  /** Once a gesture is reported at time t, the same gesture is not reported
      again, however many silent frames come between, until more than the
      cooldown has passed. */
  lemma NoRepeatWithinCooldown(s: DetectorState, hands: seq<Hand>, t: real,
                               silent: seq<(seq<Hand>, real)>, later: seq<Hand>, t2: real)
    requires DetectStep(s, hands, t).1.Some?
    requires forall i | 0 <= i < |DetectRun(DetectStep(s, hands, t).0, silent).1| ::
               DetectRun(DetectStep(s, hands, t).0, silent).1[i].None?
    requires DetectStep(DetectRun(DetectStep(s, hands, t).0, silent).0, later, t2).1
             == DetectStep(s, hands, t).1
    ensures t2 - t > s.cooldown
  {
    SilentRunKeepsState(DetectStep(s, hands, t).0, silent);
  }

  /** A squared distance below 0.0025 keeps each axis below 0.05, so the
      okay test here is stricter than the box test of the hands processor. */
  lemma OkayTipsWithinBox(lm: Hand)
    requires IsOkay(lm)
    ensures Abs(lm[IndexTip].x - lm[ThumbTip].x) < 0.05
    ensures Abs(lm[IndexTip].y - lm[ThumbTip].y) < 0.05
  {
    var dx := lm[ThumbTip].x - lm[IndexTip].x;
    var dy := lm[ThumbTip].y - lm[IndexTip].y;
    assert SquaredDistance(lm[ThumbTip], lm[IndexTip]) == dx * dx + dy * dy;
    assert dx * dx >= 0.0 && dy * dy >= 0.0;
    SquareBelow(dx);
    SquareBelow(dy);
  }

  lemma SquareBelow(d: real)
    requires d * d < 0.0025
    ensures Abs(d) < 0.05
  {
  }

  class GestureDetector {
    var lastGesture: Option<string>
    var lastGestureTime: real
    var cooldown: real

    function State(): DetectorState
      reads this
    {
      DetectorState(lastGesture, lastGestureTime, cooldown)
    }

    constructor ()
      ensures State() == InitialState
      ensures lastGesture == None && lastGestureTime == 0.0 && cooldown == 2.0
    {
      lastGesture := None;
      lastGestureTime := 0.0;
      cooldown := DefaultCooldown;
    }

    /** `detect` after the tracker has produced `hands`; `currentTime` is the
        clock reading taken for the frame. */
    method Detect(hands: seq<Hand>, currentTime: real) returns (gesture: Option<string>)
      modifies this
      ensures (State(), gesture) == DetectStep(old(State()), hands, currentTime)
      ensures gesture.Some? ==> lastGesture == gesture && lastGestureTime == currentTime
      ensures gesture.None? ==> lastGesture == old(lastGesture) && lastGestureTime == old(lastGestureTime)
      ensures cooldown == old(cooldown)
    {
      gesture := None;
      if |hands| == 0 {
        return;
      }
      if |hands| == 1 {
        var g := DetectSingleHand(hands[0]);
        if g.Some? && CheckCooldown(State(), g.value, currentTime) {
          lastGesture := g;
          lastGestureTime := currentTime;
          gesture := g;
        }
      } else if |hands| == 2 {
        if IsStop(hands[0]) && IsStop(hands[1]) {
          var g := "is_two_stops";
          if CheckCooldown(State(), g, currentTime) {
            lastGesture := Some(g);
            lastGestureTime := currentTime;
            gesture := Some(g);
          }
        }
      }
    }
  }
}
