// `SingleHandActions`: an exact-match router from a gesture label to one
// of four desktop actions. Each action launches one process and returns
// an emoji; the launch is recorded in the returned `Outcome`.

module SingleHand {
  import opened Base
  import opened Models

  /** The four private `_*_gesture_action` methods. */
  datatype Action = LikeAction | DislikeAction | StopAction | OkayAction

  const ScreenshotPrefix: string := "~/Desktop/screenshot_"
  const ScreenshotSuffix: string := ".png"

  /** The screenshot path before `~` is expanded; the timestamp is the
      clock reading formatted as `%Y-%m-%d_%H-%M-%S`. The timestamp can be
      read back from the path. */
  function ScreenshotPath(timestamp: string): (p: string)
    ensures |p| == |ScreenshotPrefix| + |timestamp| + |ScreenshotSuffix|
    ensures p[..|ScreenshotPrefix|] == ScreenshotPrefix
    ensures p[|ScreenshotPrefix|..|p| - |ScreenshotSuffix|] == timestamp
    ensures p[|p| - |ScreenshotSuffix|..] == ScreenshotSuffix
  {
    var p := ScreenshotPrefix + timestamp + ScreenshotSuffix;
    assert p[..|ScreenshotPrefix|] == ScreenshotPrefix;
    assert p[|ScreenshotPrefix|..|p| - |ScreenshotSuffix|] == timestamp;
    assert p[|p| - |ScreenshotSuffix|..] == ScreenshotSuffix;
    p
  }

  /** Different clock readings give different screenshot files. */
  lemma ScreenshotPathInjective(t1: string, t2: string)
    requires ScreenshotPath(t1) == ScreenshotPath(t2)
    ensures t1 == t2
  {
    var p := ScreenshotPath(t1);
    assert t1 == p[|ScreenshotPrefix|..|p| - |ScreenshotSuffix|];
  }

  /** `open -a <app>`. */
  function OpenApp(app: string): Command {
    ["open", "-a", app]
  }

  /** The emoji each action returns. */
  function ActionEmoji(a: Action): string {
    match a
    case LikeAction => "\U{1F44D}"
    case DislikeAction => "\U{1F44E}"
    case StopAction => "\U{270B}"
    case OkayAction => "\U{1F44C}"
  }

  /** Running one action: exactly one process is launched and its emoji is
      returned; the Photos, Notes and Calendar actions open an application
      and the okay action captures the screen to a timestamped file. */
  function Perform(a: Action, timestamp: string): (o: Outcome)
    ensures |o.launched| == 1 && o.result == Some(ActionEmoji(a))
    ensures a == LikeAction ==> o.launched[0] == OpenApp("Photos")
    ensures a == DislikeAction ==> o.launched[0] == OpenApp("Notes")
    ensures a == StopAction ==> o.launched[0] == OpenApp("Calendar")
    ensures a == OkayAction ==> o.launched[0] == ["screencapture", ScreenshotPath(timestamp)]
  {
    match a
    case LikeAction => Outcome(Some("\U{1F44D}"), [OpenApp("Photos")])
    case DislikeAction => Outcome(Some("\U{1F44E}"), [OpenApp("Notes")])
    case StopAction => Outcome(Some("\U{270B}"), [OpenApp("Calendar")])
    case OkayAction => Outcome(Some("\U{1F44C}"), [["screencapture", ScreenshotPath(timestamp)]])
  }

  /** The returned emoji tells which action ran, and so does the process
      launched. */
  lemma PerformIdentifiesAction(a: Action, b: Action, t1: string, t2: string)
    ensures Perform(a, t1).result == Perform(b, t2).result <==> a == b
    ensures Perform(a, t1).launched[0][0] == Perform(b, t2).launched[0][0] &&
            Perform(a, t1).launched[0][|Perform(a, t1).launched[0]| - 1] ==
            Perform(b, t2).launched[0][|Perform(b, t2).launched[0]| - 1]
            ==> a == b
  {
    var pa := Perform(a, t1).launched[0];
    var pb := Perform(b, t2).launched[0];
    if a == OkayAction && b == OkayAction {
    } else if a == OkayAction || b == OkayAction {
      assert pa[0] != pb[0];
    }
  }

  /** The action a label selects: exactly the single-hand members of the
      gesture set, by their value. */
  function ActionFor(gesture: string): (r: Option<Action>)
    ensures r.Some? <==> FromValue(gesture).Some? && FromValue(gesture).value.IsSingleHand()
    ensures r == Some(LikeAction) <==> FromValue(gesture) == Some(Like)
    ensures r == Some(DislikeAction) <==> FromValue(gesture) == Some(Dislike)
    ensures r == Some(StopAction) <==> FromValue(gesture) == Some(Stop)
    ensures r == Some(OkayAction) <==> FromValue(gesture) == Some(Okay)
  {
    if gesture == "is_like" then Some(LikeAction)
    else if gesture == "is_dislike" then Some(DislikeAction)
    else if gesture == "is_stop" then Some(StopAction)
    else if gesture == "is_okay" then Some(OkayAction)
    else None
  }

  /** `get_action`: a recognised label runs its action, anything else
      (no label, the empty string, blanks, a prefix or an extension of a
      label, a two-hand label) returns nothing and launches nothing. */
  function GetAction(gesture: Option<string>, timestamp: string): (o: Outcome)
    ensures gesture.Some? && ActionFor(gesture.value).Some? ==>
              o == Perform(ActionFor(gesture.value).value, timestamp)
    ensures o.result.Some? <==> gesture.Some? && ActionFor(gesture.value).Some?
    ensures o.result.None? ==> o == NoAction
    ensures |o.launched| <= 1 && (|o.launched| == 1 <==> o.result.Some?)
  {
    if gesture.None? then NoAction
    else if gesture.value == "is_like" then Perform(LikeAction, timestamp)
    else if gesture.value == "is_dislike" then Perform(DislikeAction, timestamp)
    else if gesture.value == "is_stop" then Perform(StopAction, timestamp)
    else if gesture.value == "is_okay" then Perform(OkayAction, timestamp)
    else NoAction
  }

  /** The inputs the router must refuse. */
  lemma RejectsNearMisses(timestamp: string)
    ensures GetAction(None, timestamp) == NoAction
    ensures GetAction(Some(""), timestamp) == NoAction
    ensures GetAction(Some("   "), timestamp) == NoAction
    ensures GetAction(Some("is_li"), timestamp) == NoAction
    ensures GetAction(Some("is_likes"), timestamp) == NoAction
    ensures GetAction(Some("IS_LIKE"), timestamp) == NoAction
    ensures GetAction(Some("unknown_gesture"), timestamp) == NoAction
    ensures forall g: Gesture :: !g.IsSingleHand() ==> GetAction(Some(Value(g)), timestamp) == NoAction
  {
    forall g: Gesture | !g.IsSingleHand()
      ensures GetAction(Some(Value(g)), timestamp) == NoAction
    {
      ValueRoundTrip(g);
    }
  }
}
