// `TwoHandsActions`: the two-open-palms label starts the Music application
// through AppleScript; the outcome of that external call is an input here.

module TwoHands {
  import opened Base
  import opened Models

  /** How `subprocess.run(..., check=True)` ended: normally, by raising
      `CalledProcessError` (non-zero exit), or by raising anything else
      (for instance when `osascript` cannot be started). */
  datatype RunOutcome = Completed | CalledProcessError | OtherException

  /** The AppleScript text, with the indentation of its triple-quoted
      literal. */
  const MusicScript: string :=
    "\n            tell application \"Music\"\n                activate\n            end tell\n            "

  const MusicCommand: Command := ["osascript", "-e", MusicScript]

  const MusicOpened: string := "\U{1F3B5} Music opened"
  const MusicError: string := "\U{274C} Error opening Music"
  const UnexpectedError: string := "\U{274C} Error"

  /** `_two_gesture_action`: the script is always handed to `osascript`,
      and each way the call can end has its own message. */
  function TwoGestureAction(outcome: RunOutcome): (o: Outcome)
    ensures o.launched == [MusicCommand]
    ensures o.result.Some?
    ensures outcome == Completed <==> o.result == Some(MusicOpened)
    ensures outcome == CalledProcessError <==> o.result == Some(MusicError)
    ensures outcome == OtherException <==> o.result == Some(UnexpectedError)
  {
    match outcome
    case Completed => Outcome(Some(MusicOpened), [MusicCommand])
    case CalledProcessError => Outcome(Some(MusicError), [MusicCommand])
    case OtherException => Outcome(Some(UnexpectedError), [MusicCommand])
  }

  /** `get_action`: only the value of the two-open-palms member triggers
      the action; everything else returns nothing and launches nothing. */
  function GetAction(gesture: Option<string>, outcome: RunOutcome): (o: Outcome)
    ensures gesture == Some(Value(TwoStops)) ==> o == TwoGestureAction(outcome)
    ensures o.result.Some? <==> gesture.Some? && FromValue(gesture.value) == Some(TwoStops)
    ensures o.result.None? ==> o == NoAction
    ensures |o.launched| <= 1 && (|o.launched| == 1 <==> o.result.Some?)
  {
    if gesture == Some("is_two_stops") then TwoGestureAction(outcome) else NoAction
  }

  /** Labels of every other member, single-hand or two-hand, and the
      combined label of two open palms seen as two single hands, do
      nothing. */
  lemma OnlyTwoStopsTriggers(outcome: RunOutcome)
    ensures forall g: Gesture :: g != TwoStops ==> GetAction(Some(Value(g)), outcome) == NoAction
    ensures GetAction(Some("is_stop is_stop"), outcome) == NoAction
    ensures GetAction(None, outcome) == NoAction
  {
    forall g: Gesture | g != TwoStops
      ensures GetAction(Some(Value(g)), outcome) == NoAction
    {
      ValueRoundTrip(g);
    }
  }

  /** The three attributes set by `__init__`. They are never written
      afterwards: the action methods below have no `modifies` clause. */
  class TwoHandsActions {
    var bothHandsDetected: bool
    var previousGesture: Option<string>
    var gestureCount: int

    constructor ()
      ensures !bothHandsDetected && previousGesture == None && gestureCount == 0
    {
      bothHandsDetected := false;
      previousGesture := None;
      gestureCount := 0;
    }

    /** `get_action` on an instance; it reads and writes no attribute. */
    method Dispatch(gesture: Option<string>, outcome: RunOutcome) returns (o: Outcome)
      ensures o == GetAction(gesture, outcome)
      ensures o.result.Some? ==> o.launched == [MusicCommand]
    {
      if gesture == Some("is_two_stops") {
        o := TwoGestureAction(outcome);
      } else {
        o := NoAction;
      }
    }
  }
}
