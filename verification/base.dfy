// Shared vocabulary of the gesture pipeline: optional values, landmarks,
// hands, and the record of an external command.

module Base {

  /** Python's `Optional[T]`: `None` or a value. */
  datatype Option<+T> = None | Some(value: T)

  /** One keypoint of a tracked hand, in the tracker's normalised image
      coordinates (y grows downwards, smaller z is closer to the camera). */
  datatype Landmark = Landmark(x: real, y: real, z: real)

  const Origin: Landmark := Landmark(0.0, 0.0, 0.0)

  /** The 21 keypoints the tracker reports for one hand, in its fixed order
      (0 wrist, 1-4 thumb, 5-8 index, 9-12 middle, 13-16 ring, 17-20 pinky). */
  type Hand = h: seq<Landmark> | |h| == 21 witness seq(21, _ => Origin)

  function Abs(r: real): (a: real)
    ensures a >= 0.0 && (a == r || a == -r)
  {
    if r < 0.0 then -r else r
  }

  /** An external process launch, as its argument vector. */
  type Command = seq<string>

  /** What an action returns to its caller, and the processes it launched. */
  datatype Outcome = Outcome(result: Option<string>, launched: seq<Command>)

  const NoAction: Outcome := Outcome(None, [])

  /** Python's `sep.join(xs)`. */
  function Join(sep: string, xs: seq<string>): (r: string)
    ensures xs == [] ==> r == ""
    ensures xs != [] ==> |r| >= |xs[0]| && r[..|xs[0]|] == xs[0]
  {
    if xs == [] then ""
    else if |xs| == 1 then xs[0]
    else xs[0] + sep + Join(sep, xs[1..])
  }

  /** Joining strings none of which is empty gives the empty string only
      when there is nothing to join. */
  lemma JoinEmptyIff(sep: string, xs: seq<string>)
    requires forall i | 0 <= i < |xs| :: xs[i] != ""
    ensures Join(sep, xs) == "" <==> xs == []
  {
    if xs != [] {
      assert xs[0] != "";
    }
  }
}
