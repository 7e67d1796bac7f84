// The `GestureSet` enumeration: a closed set of gesture labels, each a
// string member whose value is the label used everywhere else.

module Models {
  import opened Base

  datatype Gesture =
    | Like | Dislike | Stop | Okay                      // one hand
    | TwoLikes | TwoDislikes | TwoStops | TwoOkay      // two hands
  {
    predicate IsSingleHand() {
      Like? || Dislike? || Stop? || Okay?
    }
  }

  /** The member's `.value`; as a `str` subclass the member also compares
      equal to exactly this string. */
  function Value(g: Gesture): string {
    match g
    case Like => "is_like"
    case Dislike => "is_dislike"
    case Stop => "is_stop"
    case Okay => "is_okay"
    case TwoLikes => "is_two_likes"
    case TwoDislikes => "is_two_dislike"
    case TwoStops => "is_two_stops"
    case TwoOkay => "is_two_okay"
  }

  /** Lookup by value, `GestureSet(s)`; `None` where the enum would raise. */
  function FromValue(s: string): (r: Option<Gesture>)
    ensures r.Some? ==> Value(r.value) == s
    ensures r.None? ==> forall g: Gesture :: Value(g) != s
  {
    if s == "is_like" then Some(Like)
    else if s == "is_dislike" then Some(Dislike)
    else if s == "is_stop" then Some(Stop)
    else if s == "is_okay" then Some(Okay)
    else if s == "is_two_likes" then Some(TwoLikes)
    else if s == "is_two_dislike" then Some(TwoDislikes)
    else if s == "is_two_stops" then Some(TwoStops)
    else if s == "is_two_okay" then Some(TwoOkay)
    else None
  }

  /** Every member is found again from its value, so the eight values are
      pairwise distinct. */
  lemma ValueRoundTrip(g: Gesture)
    ensures FromValue(Value(g)) == Some(g)
    ensures forall h: Gesture :: Value(h) == Value(g) ==> h == g
  {
    forall h: Gesture | Value(h) == Value(g) ensures h == g {
      assert FromValue(Value(h)) == FromValue(Value(g));
    }
  }

  /** Single-hand members are exactly those whose value has no `two`. */
  lemma SingleHandValues(g: Gesture)
    ensures g.IsSingleHand() <==> Value(g) in {"is_like", "is_dislike", "is_stop", "is_okay"}
  {
  }
}
