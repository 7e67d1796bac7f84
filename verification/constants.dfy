// The UI's action tables: display names shown in the combo boxes, the
// internal action keys, the translations between them, and the default
// gesture-to-action assignments.

module UiConstants {
  import opened Base

  const SingleActionKeys: seq<string> :=
    ["Open Photos", "Open Notes", "Open Calendar", "Take Screenshot", "None"]

  const SingleActionMapping: map<string, string> := map[
    "Open Photos" := "open_photos",
    "Open Notes" := "open_notes",
    "Open Calendar" := "open_calendar",
    "Take Screenshot" := "take_screenshot",
    "None" := "none"]

  const SingleActionReverse: map<string, string> := map[
    "open_photos" := "Open Photos",
    "open_notes" := "Open Notes",
    "open_calendar" := "Open Calendar",
    "take_screenshot" := "Take Screenshot",
    "none" := "None"]

  const TwoActionKeys: seq<string> := ["Turn On Music", "None"]

  const TwoActionMapping: map<string, string> := map[
    "Turn On Music" := "turn_music",
    "None" := "none"]

  const TwoActionReverse: map<string, string> := map[
    "turn_music" := "Turn On Music",
    "none" := "None"]

  const DefaultSingleMapping: map<string, string> := map[
    "is_like" := "open_photos",
    "is_dislike" := "open_notes",
    "is_stop" := "open_calendar",
    "is_okay" := "take_screenshot"]

  const DefaultTwoMapping: map<string, string> := map[
    "is_stop is_stop" := "turn_music",
    "is_two_stops" := "turn_music"]

  /** The older table of action keys to display names. */
  const ActionDefinitions: map<string, string> := map[
    "open_photos" := "Open Photos",
    "open_notes" := "Open Notes",
    "open_calendar" := "Open Calendar",
    "take_screenshot" := "Take Screenshot",
    "turn_music" := "Turn On Music"]

  /** `r` undoes `m` and `m` undoes `r`. */
  predicate Inverse(m: map<string, string>, r: map<string, string>) {
    && (forall k | k in m :: m[k] in r && r[m[k]] == k)
    && (forall v | v in r :: r[v] in m && m[r[v]] == v)
  }

  predicate NoDuplicates(xs: seq<string>) {
    forall i, j | 0 <= i < j < |xs| :: xs[i] != xs[j]
  }

  /** `xs` lists exactly the keys of `m`, each once. */
  predicate ListsKeys(xs: seq<string>, m: map<string, string>) {
    NoDuplicates(xs) && (forall x | x in xs :: x in m) && (forall k | k in m :: k in xs)
  }

  /** Python's `xs.index(x)`: the first position holding `x`, or `None`
      where Python raises `ValueError`. */
  function IndexOf(xs: seq<string>, x: string): (r: Option<nat>)
    ensures r.Some? ==> r.value < |xs| && xs[r.value] == x && x !in xs[..r.value]
    ensures r.None? <==> x !in xs
  {
    if xs == [] then None
    else if xs[0] == x then Some(0)
    else match IndexOf(xs[1..], x)
      case None => None
      case Some(i) =>
        assert xs[..i + 1] == [xs[0]] + xs[1..][..i];
        Some(i + 1)
  }

  /** In a list without duplicates the position of the element at `i` is
      `i`. */
  lemma IndexOfDistinct(xs: seq<string>, i: nat)
    requires NoDuplicates(xs) && i < |xs|
    ensures IndexOf(xs, xs[i]) == Some(i)
  {
    assert xs[i] in xs[..i + 1];
  }

  lemma SingleTablesConsistent()
    ensures Inverse(SingleActionMapping, SingleActionReverse)
    ensures ListsKeys(SingleActionKeys, SingleActionMapping)
  {
  }

  lemma TwoTablesConsistent()
    ensures Inverse(TwoActionMapping, TwoActionReverse)
    ensures ListsKeys(TwoActionKeys, TwoActionMapping)
  {
  }

  /** Every default action key has a display name in the combo box's list. */
  lemma DefaultsResolvable()
    ensures forall g | g in DefaultSingleMapping ::
              DefaultSingleMapping[g] in SingleActionReverse &&
              SingleActionReverse[DefaultSingleMapping[g]] in SingleActionKeys
    ensures forall g | g in DefaultTwoMapping ::
              DefaultTwoMapping[g] in TwoActionReverse &&
              TwoActionReverse[DefaultTwoMapping[g]] in TwoActionKeys
  {
  }

  /** Both ways of writing two open palms start the music by default. */
  lemma DefaultTwoIsMusic()
    ensures DefaultTwoMapping.Keys == {"is_stop is_stop", "is_two_stops"}
    ensures forall g | g in DefaultTwoMapping :: DefaultTwoMapping[g] == "turn_music"
  {
  }

  /** The older table agrees with both reverse tables wherever they share
      a key, and covers every key of both except "none". */
  lemma ActionDefinitionsAgree()
    ensures forall k | k in ActionDefinitions && k in SingleActionReverse ::
              ActionDefinitions[k] == SingleActionReverse[k]
    ensures forall k | k in ActionDefinitions && k in TwoActionReverse ::
              ActionDefinitions[k] == TwoActionReverse[k]
    ensures ActionDefinitions.Keys == (SingleActionReverse.Keys + TwoActionReverse.Keys) - {"none"}
  {
  }

  /** The combo position preselected for a single-hand gesture row:
      default action key (or "none"), its display name (or "None"), its
      position in the list; `None` where `.index` would raise and the
      selection is left as it was. */
  function SingleComboIndex(gestureKey: string): (r: Option<nat>)
    ensures r.Some? ==> r.value < |SingleActionKeys|
  {
    var actionKey := if gestureKey in DefaultSingleMapping then DefaultSingleMapping[gestureKey] else "none";
    var pretty := if actionKey in SingleActionReverse then SingleActionReverse[actionKey] else "None";
    IndexOf(SingleActionKeys, pretty)
  }

  /** The same for the shared two-hand row, which reads the default of
      "is_stop is_stop" (falling back to "turn_music"). */
  function TwoComboIndex(): (r: Option<nat>)
    ensures r.Some? ==> r.value < |TwoActionKeys|
  {
    var actionKey := if "is_stop is_stop" in DefaultTwoMapping then DefaultTwoMapping["is_stop is_stop"] else "turn_music";
    var pretty := if actionKey in TwoActionReverse then TwoActionReverse[actionKey] else "None";
    IndexOf(TwoActionKeys, pretty)
  }

  /** The preselection never fails, and it shows the default action: the
      display name at the chosen position translates back to the default
      action key, or to "none" for a gesture without a default. */
  lemma ComboIndexShowsDefault(gestureKey: string)
    ensures SingleComboIndex(gestureKey).Some?
    ensures var i := SingleComboIndex(gestureKey).value;
            SingleActionMapping[SingleActionKeys[i]] ==
            (if gestureKey in DefaultSingleMapping then DefaultSingleMapping[gestureKey] else "none")
    ensures TwoComboIndex() == Some(0) && TwoActionMapping[TwoActionKeys[0]] == "turn_music"
  {
    SingleTablesConsistent();
    TwoTablesConsistent();
    var actionKey := if gestureKey in DefaultSingleMapping then DefaultSingleMapping[gestureKey] else "none";
    assert actionKey in SingleActionReverse;
    var pretty := SingleActionReverse[actionKey];
    assert pretty in SingleActionKeys;
    var i :| 0 <= i < |SingleActionKeys| && SingleActionKeys[i] == pretty;
    IndexOfDistinct(SingleActionKeys, i);
    IndexOfDistinct(TwoActionKeys, 0);
  }
}
