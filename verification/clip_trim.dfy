/** The trim rules of an animation clip: how a drag on the clip's left or
    right edge changes its trim fields, and how the clip's mode flags are
    read back from those fields.  Times are `real`; the model keeps the
    source's threshold comparisons and ignores floating-point rounding. */
module ClipTrim {

  /** Threshold 1e-2: a left trim is live only above it, and `trimEnd` must
      leave the band [-Epsilon, Epsilon] to raise the Right or Loop flag. */
  const Epsilon: real := 0.01

  /** Deadzone 1e-1: a right-edge drag that leaves `trimEnd` strictly
      inside (-Deadzone, Deadzone) snaps it to exactly zero. */
  const Deadzone: real := 0.1

  /** The per-clip record of an animation clip (the editor's AnimClipData).
      `trimStart` is time cut from the clip's head; `trimEnd` is signed:
      negative cuts the tail, positive extends the clip as a loop. */
  datatype ClipData = ClipData(
    start: real,
    duration: real,
    anim: string,
    trimStart: real,
    trimEnd: real,
    loop: bool)

  /** Which part of a clip the user is dragging.  Only the two edges are
      handled by the animation track; every other mode belongs to the
      generic track editor. */
  datatype DragMode = Left | Right | Other

  /** What a drag call reports: the updated clip and whether the drag is
      accepted, or that the call was passed on to the generic editor. */
  datatype DragOutcome = Handled(clip: ClipData, accepted: bool) | Deferred

  /** The flags of the editor's ClipMode; the empty set is ClipMode.None. */
  datatype ClipFlag = LeftTrim | RightTrim | Loop

  type ClipMode = set<ClipFlag>

  function Abs(x: real): real
  {
    if x < 0.0 then -x else x
  }

  function Max(a: real, b: real): real
  {
    if a < b then b else a
  }

  /** Left edge: add `delta` to `trimStart` and clamp at zero.  The result
      is the least non-negative value that is at least the raw sum, and the
      drag is accepted exactly when the clamped trim exceeds Epsilon. */
  function DragLeft(c: ClipData, delta: real): (r: DragOutcome)
    ensures r.Handled?
    ensures r.clip == c.(trimStart := r.clip.trimStart)
    ensures r.clip.trimStart >= 0.0
    ensures r.clip.trimStart >= c.trimStart + delta
    ensures r.clip.trimStart == 0.0 || r.clip.trimStart == c.trimStart + delta
    ensures r.accepted <==> r.clip.trimStart > Epsilon
  {
    var t := Max(0.0, c.trimStart + delta);
    Handled(c.(trimStart := t), t > Epsilon)
  }

  /** Right edge: add `delta` to `trimEnd`; a sum whose magnitude is below
      Deadzone becomes exactly zero, any other sum is kept unclamped.  The
      right edge always accepts. */
  function DragRight(c: ClipData, delta: real): (r: DragOutcome)
    ensures r.Handled? && r.accepted
    ensures r.clip == c.(trimEnd := r.clip.trimEnd)
    ensures r.clip.trimEnd == 0.0 || Abs(r.clip.trimEnd) >= Deadzone
    ensures Abs(c.trimEnd + delta) < Deadzone ==> r.clip.trimEnd == 0.0
    ensures Abs(c.trimEnd + delta) >= Deadzone ==> r.clip.trimEnd == c.trimEnd + delta
  {
    var e := c.trimEnd + delta;
    Handled(c.(trimEnd := if Abs(e) < Deadzone then 0.0 else e), true)
  }

  /** The animation track's drag hook: the two edges are handled here, any
      other mode is deferred.  A handled drag changes only the dragged
      edge's trim field; start, duration, asset and loop flag are kept. */
  function AllowClipDrag(dm: DragMode, delta: real, c: ClipData): (r: DragOutcome)
    ensures r.Deferred? <==> dm == Other
    ensures r.Handled? ==>
      r.clip.start == c.start && r.clip.duration == c.duration &&
      r.clip.anim == c.anim && r.clip.loop == c.loop
    ensures dm == Left ==>
      r.clip.trimEnd == c.trimEnd && r.clip.trimStart >= 0.0 &&
      (r.accepted <==> r.clip.trimStart > Epsilon)
    ensures dm == Right ==>
      r.clip.trimStart == c.trimStart && r.accepted &&
      (r.clip.trimEnd == 0.0 || Abs(r.clip.trimEnd) >= Deadzone)
    ensures dm == Left ==> r == DragLeft(c, delta)
    ensures dm == Right ==> r == DragRight(c, delta)
  {
    match dm
    case Left => DragLeft(c, delta)
    case Right => DragRight(c, delta)
    case Other => Deferred
  }

  /** The mode flags of a clip and its loop length, derived from the two
      trim fields alone.  Left is independent of the tail; Right and Loop
      are told apart by the sign of `trimEnd` outside the Epsilon band, so
      they never occur together.  The loop length is `trimEnd` as stored,
      whatever its sign. */
  function CalcuteClipMode(c: ClipData): (r: (ClipMode, real))
    ensures LeftTrim in r.0 <==> c.trimStart > Epsilon
    ensures RightTrim in r.0 <==> c.trimEnd < -Epsilon
    ensures Loop in r.0 <==> c.trimEnd > Epsilon
    ensures !(RightTrim in r.0 && Loop in r.0)
    ensures r.1 == c.trimEnd
  {
    var left: ClipMode := if c.trimStart > Epsilon then {LeftTrim} else {};
    var tail: ClipMode :=
      if c.trimEnd < -Epsilon then {RightTrim}
      else if c.trimEnd > Epsilon then {Loop}
      else {};
    (left + tail, c.trimEnd)
  }

  /** The clip inspector's two edit fields: the loop flag and the head
      trim are written as typed, with no clamp, so a clip can hold a
      negative head trim or one inside (0, Epsilon]. */
  function InspectorEdit(c: ClipData, loop: bool, trimStart: real): (r: ClipData)
    ensures r == c.(loop := r.loop, trimStart := r.trimStart)
    ensures r.loop == loop && r.trimStart == trimStart
  {
    c.(loop := loop, trimStart := trimStart)
  }

  /** Neither edge is bounded by the clip's duration: a left drag can cut
      more than the whole clip, and a right drag can cut the tail back past
      the clip's start. */
  lemma TrimsNotBoundedByDuration(c: ClipData)
    requires c.duration == 1.0 && c.trimStart == 0.0 && c.trimEnd == 0.0
    ensures DragLeft(c, 5.0).clip.trimStart == 5.0 > c.duration
    ensures DragRight(c, -5.0).clip.trimEnd == -5.0 < -c.duration
  {
  }

  /** A left drag that lands exactly on Epsilon is not accepted: the test
      is strict. */
  lemma LeftDragAtThresholdRejected(c: ClipData)
    requires c.trimStart == 0.0
    ensures DragLeft(c, Epsilon).clip.trimStart == Epsilon
    ensures !DragLeft(c, Epsilon).accepted
    ensures DragLeft(c, 0.011).accepted
  {
  }

  /** The right-edge deadzone at its boundaries, from an untrimmed tail:
      0.05 + 0.02 and 0.099 snap to zero, 0.1 and 0.101 are kept, and the
      same holds below zero. */
  lemma RightDragDeadzoneBoundaries(c: ClipData)
    requires c.trimEnd == 0.0
    ensures DragRight(c.(trimEnd := 0.05), 0.02).clip.trimEnd == 0.0
    ensures DragRight(c, 0.099).clip.trimEnd == 0.0
    ensures DragRight(c, 0.1).clip.trimEnd == 0.1
    ensures DragRight(c, 0.101).clip.trimEnd == 0.101
    ensures DragRight(c, -0.099).clip.trimEnd == 0.0
    ensures DragRight(c, -0.101).clip.trimEnd == -0.101
  {
  }
}
