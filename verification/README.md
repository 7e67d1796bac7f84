# Hand-gesture pipeline, modelled in Dafny

This project models the hand-gesture recognizer from the point where the
landmark tracker has produced its 21 keypoints per hand. It covers four
layers, one after the other.

1. **Landmark classifiers.**
   - `HandsProcessor` (module `HandsHandler`) uses finger-extension and fist
     rules.
   - The older single-file loop (module `Legacy`) uses the same rules with
     emoji labels.
   - `GestureDetector` (module `Detector`) uses wrist and middle-joint rules.
2. **The combiner.** It turns the per-hand labels of one frame into one
   string label.
3. **Stabilisers.**
   - `HandsProcessor` and the older loop use a repeat-count debounce.
   - `GestureDetector` uses a timestamp cooldown.
4. **Dispatch.**
   - The action classes route exact labels to one operating-system command
     each (modules `SingleHand` and `TwoHands`).
   - The UI's `apply_mapping` overlays a user mapping on that routing
     (module `Interface`).
   - The UI's constant tables are proved consistent by the lemmas of
     module `UiConstants`.

Shared vocabulary lives in module `Base`: optional values, landmarks,
hands, `", ".join`, and the record of a launched command. The gesture
enumeration lives in module `Models`. Module `Pipeline` relates the
layers to each other.

Each process launch is recorded as its argument vector in the returned
`Outcome`, next to the value the Python method returns. Three things that
the code reads from its environment become parameters:

- the clock reading of `detect` (a `real`);
- the formatted timestamp of a screenshot (a `string`);
- the way `subprocess.run` ended (`RunOutcome`).

Two things that the model makes visible:

- With two hands in view, `HandsProcessor` never produces the label
  `"is_two_stops"`. It combines two open palms into `"is_stop is_stop"`.
  So the unpatched `TwoHandsActions` does nothing with any label it
  receives from it (`Pipeline.HandlerTwoHandDispatchInert`). The UI's
  default two-hand mapping has an entry for `"is_stop is_stop"` that
  leads to the music action. If that label reached the patched
  `get_action`, it would start the music
  (`Pipeline.DefaultMappingStartsMusicForTwoPalms`). But `HandsProcessor`
  and `apply_mapping` are separate entry points, and no code in the
  modelled files connects them. The mapper window feeds the patched
  classes from the detector, never from `HandsProcessor`.
- Two hands that are both unrecognised give the label `"None None"`.
  Python formats `None` as `"None"`. That label is non-empty, so it is
  counted and dispatched like any other (`Pipeline.UnrecognisedPairIsCounted`).

The debouncers also differ. The hands processor never resets its count, so
a held label is dispatched on every frame from the threshold on. The older
loop resets the count to 0 after each confirmation, so it confirms once
per 50 frames. `Pipeline.DebouncersCompared` states both counts side by
side.

## Model

| member | source | states |
|---|---|---|
| Base.Join | src/handlers/hands_handler.py:99 | `", ".join`: no strings give "", one string is itself, otherwise the first, the separator, then the join of the rest; the result begins with the first string |
| Base.JoinEmptyIff | src/handlers/hands_handler.py:99 | joining non-empty labels gives the empty string exactly when there is nothing to join |
| Models.Value | src/models.py:4-15 | the value string of each of the eight members: is_like, is_dislike, is_stop, is_okay, is_two_likes, is_two_dislike, is_two_stops, is_two_okay |
| Models.FromValue | src/models.py:4-15 | lookup by value finds a member whose value is the string, and finds none only when no member has that value |
| Models.ValueRoundTrip | src/models.py:4-15 | every member is found again from its value, so the eight values are pairwise distinct |
| Models.SingleHandValues | src/models.py:5-9 | the single-hand members are exactly those valued is_like, is_dislike, is_stop, is_okay |
| HandsHandler.IsFingerExtended | src/handlers/hands_handler.py:37-49 | a finger is extended when its tip is more than 0.02 above its base and closer to the camera (smaller z) |
| HandsHandler.IsThumbExtended | src/handlers/hands_handler.py:51-60 | the thumb is extended when landmark 4 is more than 0.05 above landmark 2 and closer to the camera |
| HandsHandler.IsFist | src/handlers/hands_handler.py:70-73 | a fist: every one of the five tips is within 0.05 of its base horizontally |
| HandsHandler.FingerFlags | src/handlers/hands_handler.py:30-60 | five flags: the thumb first (tip 4 above base 2 by more than 0.05 and closer), then each other finger in layout order (tip above base by more than 0.02 and closer) |
| HandsHandler.Identify | src/handlers/hands_handler.py:62-87 | always a single-hand member or nothing; a fist is never like or dislike; not a fist with no finger raised gives like if the thumb is out, else dislike; stop if and only if all five flags are set; okay and nothing each characterised exactly by the earlier rules failing and the tips of landmarks 8 and 4 being within 0.05 on both axes, or not |
| HandsHandler.ClassifySingleHand | src/handlers/hands_handler.py:23-35 | the label is one of the four single-hand values; a fist never gives like or dislike; all five fingers extended give is_stop |
| HandsHandler.Present | src/handlers/hands_handler.py:99 | exactly the present, non-empty labels are kept, and no more of them than there are hands |
| HandsHandler.PresentSingle | src/handlers/hands_handler.py:99 | one hand contributes its label exactly when the label is present and non-empty |
| HandsHandler.PresentAppend | src/handlers/hands_handler.py:99 | filtering keeps hand order: the labels of a concatenation are the labels of the first part followed by those of the second |
| HandsHandler.Combine | src/handlers/hands_handler.py:89-99 | two hands with equal labels (both None included) give "a a" with None shown as "None"; otherwise the result is empty exactly when no label is present, and a single present label is returned unchanged; one hand gives its label or ""; two different labels give "first, second" in hand order, or the one that is present |
| HandsHandler.PairDiffersFromSingle | src/handlers/hands_handler.py:97-99 | two hands showing a gesture give a different label from one hand showing it |
| HandsHandler.FrameLabel | src/handlers/hands_handler.py:15-19 | the combined label of a frame: each hand classified in order, then combined with the number of hands |
| HandsHandler.HandlerStep | src/handlers/hands_handler.py:108-117 | a repeat of the previous label increments the count, a new label replaces it with count 1; a dispatch happens when the new count is at least the threshold, and the count is never reset |
| HandsHandler.HandlerFrame | src/handlers/hands_handler.py:19-21 | an empty combined label leaves the counter alone and dispatches nothing; any other label is one debounce step |
| HandsHandler.HandlerRunAppend | src/handlers/hands_handler.py:15-21 | processing two runs of frames one after the other is processing their concatenation, with the dispatches added |
| HandsHandler.HandlerHeldFrom | src/handlers/hands_handler.py:108-117 | holding a label keeps incrementing the count and every frame at or past the threshold dispatches |
| HandsHandler.HandlerHeld | src/handlers/hands_handler.py:108-117 | a new label held n frames ends with count n and dispatches 0 times before the threshold and n - threshold + 1 times from it |
| HandsHandler.HandlerInterruptedRun | src/handlers/hands_handler.py:108-112 | a different label before the threshold restarts the count: 49 + 1 + 50 frames dispatch once |
| HandsHandler.HandsProcessor.constructor | src/handlers/hands_handler.py:10-13 | no previous label and a count of 0 |
| HandsHandler.HandsProcessor.ProcessDetectedGesture | src/handlers/hands_handler.py:101-117 | an equal label increments the count, a new one replaces the label and sets the count to 1; the label is dispatched, to the two-hand class if and only if there are two hands, whenever the count is at least the threshold; the count is not reset |
| HandsHandler.HandsProcessor.ClassifyHands | src/handlers/hands_handler.py:15-21 | the new counter and the dispatch are one debounce step on the frame's combined label; an empty label leaves the counter unchanged |
| Legacy.ReferenceFist | old.py:41-44 | the fist test over the two literal index lists is the fist test of the reference layout |
| Legacy.ReferenceRules | old.py:46-61 | the emoji rules applied to the reference flags give the legacy label |
| Legacy.ClassifySingleHand | old.py:18-61 | the loop-built flags and the rules give exactly the current processor's classification with indices [4,8,12,16,20]/[2,5,9,13,17], spelt as one of four emoji |
| Legacy.ClassifyEach | old.py:79 | each hand's label, in order |
| Legacy.LegacyFrameLabel | old.py:79-85 | the combined label of a frame: every hand classified in order (no filtering), then combined as the current processor does |
| Legacy.LegacyStep | old.py:88-98 | a repeat increments the count, a new label replaces it with count 1; reaching 50 confirms the label and resets the count to 0 |
| Legacy.LegacyFrame | old.py:87-98 | an empty combined label changes nothing and confirms nothing; any other label is one legacy step |
| Legacy.LegacyStepBounded | old.py:87-98 | the count stays in 0..49 after every frame |
| Legacy.LegacyRunAppend | old.py:87-98 | processing two runs of frames one after the other is processing their concatenation |
| Legacy.LegacyHeldFrom | old.py:87-98 | holding a label from count k: (k + m) / 50 confirmations and a count of (k + m) mod 50 |
| Legacy.LegacyHeld | old.py:87-98 | a new label held n frames is confirmed n / 50 times and leaves a count of n mod 50, the label kept |
| Legacy.LegacyInterruptedRun | old.py:88-98 | 49 + 1 + 50 frames confirm once and leave the count at 0 |
| Legacy.ModuleState.constructor | old.py:11-13 | both hands not seen, no previous label, a count of 0 |
| Legacy.ModuleState.ClassifyHands | old.py:64-98 | the two-hands flag is set exactly when this frame has two hands; the counter and the confirmation are one legacy debounce step on the combined label; an empty label leaves the counter unchanged; the count stays below 50 |
| Legacy.ModuleState.CountGesture | old.py:87-98 | a non-empty label is counted (a repeat increments, a new label starts at 1) and the 50th frame confirms it and resets the count to 0; an empty label changes nothing; the count stays below 50 and the two-hands flag is untouched |
| Detector.IsLike | src/detection/gesture_detector.py:117-136 | like: thumb tip above its joint, which is above the wrist, and the index, middle, ring and pinky tips below their middle joints |
| Detector.IsDislike | src/detection/gesture_detector.py:138-157 | dislike: thumb tip below its joint, which is below the wrist, and the four other fingers folded as for like |
| Detector.IsStop | src/detection/gesture_detector.py:159-170 | stop: thumb tip right of its joint, and the index, middle, ring and pinky tips above their middle joints |
| Detector.IsOkay | src/detection/gesture_detector.py:172-189 | okay: squared thumb-index distance below 0.0025 (the distance below 0.05), and the middle, ring and pinky tips above their middle joints |
| Detector.LikeExcludesDislike | src/detection/gesture_detector.py:117-157 | no hand is both like and dislike (thumb tip above its joint in one, below in the other) |
| Detector.LikeExcludesStop | src/detection/gesture_detector.py:117-170 | no hand is both like and stop, or both dislike and stop (index tip below its middle joint in one, above in the other) |
| Detector.FoldedExcludesOkay | src/detection/gesture_detector.py:117-189 | no hand is both like or dislike and okay (middle finger folded in one, raised in the other) |
| Detector.DetectSingleHand | src/detection/gesture_detector.py:96-115 | each label exactly when its rule holds (okay only when stop does not), nothing exactly when no rule holds |
| Detector.Candidate | src/detection/gesture_detector.py:57-88 | one hand is classified; two hands give is_two_stops exactly when both are stop, and nothing otherwise; any other count gives nothing |
| Detector.CheckCooldown | src/detection/gesture_detector.py:90-94 | a gesture passes when it differs from the last one reported, or when strictly more than the cooldown has passed since that report |
| Detector.DetectStep | src/detection/gesture_detector.py:57-94 | a reported label is the frame's candidate, and the state becomes (label, time); otherwise the state is unchanged; a candidate passing the cooldown test is reported; a repeat of the last label is reported only after strictly more than the cooldown |
| Detector.DetectRun | src/detection/gesture_detector.py:57-94 | successive calls of detect over a sequence of frames: one report per frame, each step starting from the state the previous one left |
| Detector.DetectRunAppend | src/detection/gesture_detector.py:57-94 | successive calls of detect compose: a run over two stretches of frames is the second run started from the state the first leaves, with the reports concatenated |
| Detector.DetectRunAt | src/detection/gesture_detector.py:57-94 | the report for frame i of a run is one detection step from the state left by frames 0 to i-1, and the state after frame i is that step's state |
| Detector.SilentRunKeepsState | src/detection/gesture_detector.py:70-88 | frames that report nothing leave the last label and its time unchanged |
| Detector.NoRepeatWithinCooldown | src/detection/gesture_detector.py:90-94 | after a label is reported at t, that label is reported again at t2, with only silent frames between, only if t2 - t exceeds the cooldown |
| Detector.OkayTipsWithinBox | src/detection/gesture_detector.py:172-189 | a squared thumb-index distance below 0.0025 keeps both axis differences below 0.05 |
| Detector.SquareBelow | src/detection/gesture_detector.py:178-189 | a square below 0.0025 means a magnitude below 0.05 |
| Detector.GestureDetector.constructor | src/detection/gesture_detector.py:25-27 | no last label, time 0, cooldown 2.0 |
| Detector.GestureDetector.Detect | src/detection/gesture_detector.py:57-88 | result and new state are one detection step; the last label and time change only when a label is returned, then to (label, now); the cooldown never changes |
| SingleHand.ScreenshotPath | src/actions/single_hand_actions.py:43-44 | the path is ~/Desktop/screenshot_, the timestamp, then .png, with the timestamp recoverable from it |
| SingleHand.ScreenshotPathInjective | src/actions/single_hand_actions.py:43-44 | different timestamps give different screenshot paths |
| SingleHand.Perform | src/actions/single_hand_actions.py:22-46 | each action launches exactly one process and returns its emoji: open -a Photos, Notes or Calendar, or screencapture to the timestamped path |
| SingleHand.PerformIdentifiesAction | src/actions/single_hand_actions.py:22-46 | the emoji returned identifies the action run, and so does the command launched |
| SingleHand.ActionFor | src/actions/single_hand_actions.py:11-20 | a label selects an action exactly when it is the value of a single-hand member, each member its own action |
| SingleHand.GetAction | src/actions/single_hand_actions.py:7-20 | a recognised label runs its action; otherwise nothing is returned and nothing launched; at most one launch, and one exactly when something is returned |
| SingleHand.RejectsNearMisses | tests/test_single_hand_actions.py:135-151 | None, "", blanks, a prefix, an extension, upper case, an unknown label and every two-hand value do nothing |
| TwoHands.TwoGestureAction | src/actions/two_hands_actions.py:17-36 | osascript with the Music script is launched, and the message tells apart success, CalledProcessError and any other exception |
| TwoHands.GetAction | src/actions/two_hands_actions.py:10-15 | only the two-open-palms value runs the action; every other input returns nothing and launches nothing |
| TwoHands.OnlyTwoStopsTriggers | src/actions/two_hands_actions.py:10-15 | the values of the other seven members, "is_stop is_stop" and None do nothing |
| TwoHands.TwoHandsActions.constructor | src/actions/two_hands_actions.py:5-8 | both hands not seen, no previous label, a count of 0 |
| TwoHands.TwoHandsActions.Dispatch | src/actions/two_hands_actions.py:10-36 | the instance method gives the routing result, changes no attribute, and launches only the Music script |
| UiConstants.IndexOf | ui/window/gesture_mapper_window.py:147 | the first position holding the element, or none exactly when it is absent |
| UiConstants.IndexOfDistinct | ui/core/constants.py:4-10 | in a list without duplicates each element's first position is its own |
| UiConstants.SingleTablesConsistent | ui/core/constants.py:4-28 | the reverse table is the exact inverse of the mapping, and the key list holds each mapping key exactly once |
| UiConstants.TwoTablesConsistent | ui/core/constants.py:31-46 | the same for the two-hand tables |
| UiConstants.DefaultsResolvable | ui/core/constants.py:49-59 | every default action key has a display name that is in the matching key list |
| UiConstants.DefaultTwoIsMusic | ui/core/constants.py:56-59 | both two-hand defaults, and only they, map to turn_music |
| UiConstants.ActionDefinitionsAgree | ui/core/constants.py:62-68 | the older table agrees with both reverse tables on shared keys and holds all their keys except "none" |
| UiConstants.SingleComboIndex | ui/window/gesture_mapper_window.py:152-162 | the preselected position, when found, is within the list |
| UiConstants.TwoComboIndex | ui/window/gesture_mapper_window.py:140-151 | the preselected position, when found, is within the list |
| UiConstants.ComboIndexShowsDefault | ui/window/gesture_mapper_window.py:140-162 | the index lookups never fail, and the preselected entry translates back to the default action (or "none"); the two-hand row shows Turn On Music |
| Interface.SingleTable | ui/handlers/interface.py:36-42 | open_photos, open_notes, open_calendar and take_screenshot select the like, dislike, stop and okay actions, "none" selects doing nothing |
| Interface.TwoTable | ui/handlers/interface.py:51-54 | turn_music selects the music action, "none" doing nothing, nothing else is in the table |
| Interface.TablesCoverUiKeys | ui/handlers/interface.py:36-54 | each table accepts exactly the action keys of the matching reverse table of the UI |
| Interface.MappedKey | ui/handlers/interface.py:33-34 | a key is found exactly when the label is in the mapping, and it is the mapped value |
| Interface.PatchedSingle | ui/handlers/interface.py:32-45 | a mapped key in the table runs its action or does nothing for "none"; an unmapped label or an unknown key falls back to the original routing; at most one launch |
| Interface.PatchedTwo | ui/handlers/interface.py:47-57 | turn_music runs the music action, "none" does nothing, anything else falls back to the original routing |
| Interface.EmptyMappingIsOriginal | ui/handlers/interface.py:32-57 | with an empty mapping both patched methods behave as the originals |
| Interface.DefaultSingleIsOriginal | ui/core/constants.py:49-54 | the default single-hand mapping changes no routing |
| Interface.DefaultTwoAddsPairOfStops | ui/core/constants.py:56-59 | the default two-hand mapping adds exactly the route from "is_stop is_stop" to the music action |
| Interface.ActionRouting.constructor | ui/handlers/interface.py:23-30 | the original methods installed, no saved original, no mapping |
| Interface.ActionRouting.SingleGetAction | ui/handlers/interface.py:60-61 | the unpatched class routes as defined; at most one launch |
| Interface.ActionRouting.TwoGetAction | ui/handlers/interface.py:60-61 | the unpatched class routes as defined; at most one launch |
| Interface.ActionRouting.ApplyMapping | ui/handlers/interface.py:8-61 | the original is saved only if none was saved, so it is always the unpatched method; the mappings are stored by value; both classes then route through the patched lookups |
| Pipeline.NoLabelStartsTwoStops | src/handlers/hands_handler.py:97-99 | a label starting with "None" or with a single-hand value is not "is_two_stops" |
| Pipeline.HandlerPairIsNeverTwoStops | src/handlers/hands_handler.py:89-99 | with two hands the combined label is never "is_two_stops" |
| Pipeline.HandlerTwoHandDispatchInert | src/handlers/hands_handler.py:114-116 | a two-hand dispatch goes to the two-hand class, whose original routing then does nothing |
| Pipeline.DefaultMappingStartsMusicForTwoPalms | ui/core/constants.py:56-59 | two open palms give "is_stop is_stop", which the default mapping sends to the music action |
| Pipeline.HandlerSingleHandActs | src/handlers/hands_handler.py:15-21 | with one hand the label is that hand's value (or empty), and the single-hand class launches a process exactly when the hand was recognised |
| Pipeline.UnrecognisedPairIsCounted | src/handlers/hands_handler.py:97-98 | two unrecognised hands give "None None", which becomes the counted label |
| Pipeline.DebouncersCompared | old.py:87-98 | over n frames of one new label with threshold 50, the processor dispatches n - 49 times (from frame 50) and the older loop n / 50 times; they agree exactly when n is at most 50 |
| Pipeline.RouteDetection | ui/window/gesture_mapper_window.py:360-375 | no label does nothing; "is_two_stops" goes to the two-hand class, any other label to the single-hand class; at most one launch |
| Pipeline.EveryDetectionActs | ui/window/gesture_mapper_window.py:360-375 | every label the detector reports launches exactly one process, with the action classes as defined or with the default mapping applied |

## Left out

- Camera and tracker: frame capture, hand tracking and drawing are not modelled. Each frame is given as its list of hands. Each hand is 21 landmarks with real coordinates, so the `if hand` filter of `classify_hands` is the identity.
- Handedness: `detect` reads it and passes it on, but no rule uses it, so it is not modelled.
- Floating point: coordinates are exact reals. The okay distance of the detector is compared squared, against 0.0025, instead of taking a square root.
- The settings module (finger tip and base indices, threshold) is not part of this model. The indices are a `FingerLayout` parameter, with `ReferenceLayout` taken from the older loop. The threshold is an integer parameter.
- Printing, the pauses after a dispatch or confirmation, and the console message of the older loop are not modelled. Each dispatch or confirmation is returned as a value instead.
- Process launches are recorded, not performed. `time.strftime` is a timestamp parameter. `os.path.expanduser` is left out: the path is modelled before `~` is expanded.
- Routing a dispatch: `HandsHandler.HandsProcessor.ProcessDetectedGesture` returns the dispatch (target class and label) rather than calling `get_action`. The `Pipeline` lemmas state what each class then does with it.
- SingleHand.GetAction: inputs that are not strings or None, such as an integer, cannot be written in the model. Python compares them unequal to every label.
- SingleHand.Perform: a launch that fails is not modelled. In the source, an exception from `subprocess.Popen` escapes `get_action`; the two-hand action catches its own.
- TwoHands.TwoGestureAction: the attempted `osascript` launch is recorded for every outcome, including the exception raised before the process starts.
- The error dialog that `apply_mapping` shows when an import fails is not modelled. The module path edits and imports it guards are not modelled either.
- Monkey-patching mechanics: the `ActionRouting` class records which method each class attribute holds. It does not model Python attribute lookup. Instances share these class attributes, so a single object stands for both classes.
- Pickling an action object is not modelled.
- Qt widgets: only the preselection of the combo boxes and the routing of detected labels are modelled.
