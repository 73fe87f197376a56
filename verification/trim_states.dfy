/** The clip trim state machine.  The six states are an independent,
    by-name reading of the flag set `CalcuteClipMode` computes; a gesture
    is a sequence of edge drags applied one event at a time.  The lemmas
    show that drags keep a clip's trims well formed, that every state is
    reachable from a fresh clip and every state can return to Untrimmed,
    and what a run of left drags adds up to (they are not additive). */
module TrimStates {
  import opened ClipTrim

  datatype TrimState =
    | Untrimmed
    | LeftTrimmed
    | RightTrimmed
    | Looping
    | LeftAndRightTrimmed
    | LeftTrimmedLooping

  /** The flag set each state stands for. */
  function Flags(s: TrimState): ClipMode
  {
    match s
    case Untrimmed => {}
    case LeftTrimmed => {LeftTrim}
    case RightTrimmed => {RightTrim}
    case Looping => {Loop}
    case LeftAndRightTrimmed => {LeftTrim, RightTrim}
    case LeftTrimmedLooping => {LeftTrim, Loop}
  }

  /** The state of a clip, read from its trims.  Its flag set is the one
      the mode function reports, so that function only ever yields one of
      these six sets. */
  function StateOf(c: ClipData): (s: TrimState)
    ensures Flags(s) == CalcuteClipMode(c).0
  {
    var head := c.trimStart > Epsilon;
    if c.trimEnd < -Epsilon then
      (if head then LeftAndRightTrimmed else RightTrimmed)
    else if c.trimEnd > Epsilon then
      (if head then LeftTrimmedLooping else Looping)
    else
      (if head then LeftTrimmed else Untrimmed)
  }

  /** The trims that edge drags preserve: a head trim never below zero and
      a tail trim either exactly zero or outside the deadzone.  It holds
      from a fresh clip on as long as only drags change the trims; the
      inspector's unclamped edit can break it. */
  predicate WellTrimmed(c: ClipData)
  {
    c.trimStart >= 0.0 && (c.trimEnd == 0.0 || Abs(c.trimEnd) >= Deadzone)
  }

  /** In a well-trimmed clip the tail flags follow the plain sign of
      `trimEnd`: the deadzone leaves no value in the Epsilon band but zero. */
  lemma TailFlagsFollowSign(c: ClipData)
    requires WellTrimmed(c)
    ensures RightTrim in CalcuteClipMode(c).0 <==> c.trimEnd < 0.0
    ensures Loop in CalcuteClipMode(c).0 <==> c.trimEnd > 0.0
    ensures (StateOf(c) == Untrimmed || StateOf(c) == LeftTrimmed) <==> c.trimEnd == 0.0
  {
  }

  /** The inspector can leave a clip outside the drag invariant (a negative
      head trim), and the next left drag brings the head trim back to at
      least zero whatever it was. */
  lemma InspectorEditCanBreakWellTrimmed(c: ClipData)
    ensures !WellTrimmed(InspectorEdit(c, c.loop, -10.0))
    ensures DragLeft(InspectorEdit(c, c.loop, -10.0), 1.0).clip.trimStart == 0.0
  {
  }

  /** One input event of a gesture. */
  datatype DragEvent = DragEvent(mode: DragMode, delta: real)

  /** A gesture on the clip's edges only. */
  predicate EdgeOnly(es: seq<DragEvent>)
  {
    forall i :: 0 <= i < |es| ==> es[i].mode != Other
  }

  /** Apply the events of an edge gesture in order, each to the clip the
      previous one produced. */
  function ApplyDrags(c: ClipData, es: seq<DragEvent>): ClipData
    requires EdgeOnly(es)
    decreases |es|
  {
    if |es| == 0 then c
    else ApplyDrags(AllowClipDrag(es[0].mode, es[0].delta, c).clip, es[1..])
  }

  /** A single drag keeps a clip well trimmed, whatever its starting trims
      on the other edge. */
  lemma DragKeepsWellTrimmed(c: ClipData, e: DragEvent)
    requires WellTrimmed(c)
    requires e.mode != Other
    ensures WellTrimmed(AllowClipDrag(e.mode, e.delta, c).clip)
  {
  }

  /** A whole edge gesture keeps a clip well trimmed and changes nothing
      but the two trim fields. */
  lemma {:induction false} GestureKeepsWellTrimmed(c: ClipData, es: seq<DragEvent>)
    requires WellTrimmed(c)
    requires EdgeOnly(es)
    ensures WellTrimmed(ApplyDrags(c, es))
    ensures ApplyDrags(c, es) ==
      c.(trimStart := ApplyDrags(c, es).trimStart, trimEnd := ApplyDrags(c, es).trimEnd)
    decreases |es|
  {
    if |es| > 0 {
      var c' := AllowClipDrag(es[0].mode, es[0].delta, c).clip;
      DragKeepsWellTrimmed(c, es[0]);
      GestureKeepsWellTrimmed(c', es[1..]);
    }
  }

  /** A gesture per state that leads a fresh (untrimmed) clip into it. */
  function Route(s: TrimState): seq<DragEvent>
  {
    match s
    case Untrimmed => []
    case LeftTrimmed => [DragEvent(Left, 1.0)]
    case RightTrimmed => [DragEvent(Right, -1.0)]
    case Looping => [DragEvent(Right, 1.0)]
    case LeftAndRightTrimmed => [DragEvent(Left, 1.0), DragEvent(Right, -1.0)]
    case LeftTrimmedLooping => [DragEvent(Left, 1.0), DragEvent(Right, 1.0)]
  }

  /** Every one of the six states is reachable from a clip whose trims are
      both zero, by edge drags alone. */
  lemma EveryStateReachable(c: ClipData, s: TrimState)
    requires c.trimStart == 0.0 && c.trimEnd == 0.0
    ensures EdgeOnly(Route(s)) && |Route(s)| <= 2
    ensures StateOf(ApplyDrags(c, Route(s))) == s
  {
    var r := Route(s);
    if |r| == 1 {
      assert ApplyDrags(c, r) == ApplyDrags(AllowClipDrag(r[0].mode, r[0].delta, c).clip, []);
    } else if |r| == 2 {
      var c1 := AllowClipDrag(r[0].mode, r[0].delta, c).clip;
      var c2 := AllowClipDrag(r[1].mode, r[1].delta, c1).clip;
      assert r[1..][1..] == [];
      assert ApplyDrags(c, r) == ApplyDrags(c1, r[1..]) == ApplyDrags(c2, []);
    }
  }

  /** No state is terminal: dragging each edge back by its current trim
      returns any clip to Untrimmed. */
  lemma BackToUntrimmed(c: ClipData)
    ensures var back := [DragEvent(Left, -c.trimStart), DragEvent(Right, -c.trimEnd)];
      EdgeOnly(back) && StateOf(ApplyDrags(c, back)) == Untrimmed
  {
    var back := [DragEvent(Left, -c.trimStart), DragEvent(Right, -c.trimEnd)];
    var c1 := AllowClipDrag(Left, -c.trimStart, c).clip;
    var c2 := AllowClipDrag(Right, -c.trimEnd, c1).clip;
    assert back[1..][1..] == [];
    assert ApplyDrags(c, back) == ApplyDrags(c1, back[1..]) == ApplyDrags(c2, []);
  }

  /** A gesture made only of left-edge drags. */
  function LeftGesture(ds: seq<real>): (es: seq<DragEvent>)
    ensures EdgeOnly(es) && |es| == |ds|
  {
    seq(|ds|, i requires 0 <= i < |ds| => DragEvent(Left, ds[i]))
  }

  function Sum(ds: seq<real>): real
  {
    if |ds| == 0 then 0.0 else ds[0] + Sum(ds[1..])
  }

  /** The largest sum of a suffix of `ds`, the empty suffix included. */
  function MaxSuffixSum(ds: seq<real>): real
  {
    if |ds| == 0 then 0.0 else Max(Sum(ds), MaxSuffixSum(ds[1..]))
  }

  lemma {:induction false} MaxSuffixSumBounds(ds: seq<real>)
    ensures MaxSuffixSum(ds) >= 0.0
    ensures MaxSuffixSum(ds) >= Sum(ds)
  {
    if |ds| > 0 {
      MaxSuffixSumBounds(ds[1..]);
    }
  }

  /** Closed form of a run of left drags.  Because every call clamps at
      zero, the head trim after the run is the larger of the plain running
      total and the best suffix sum of the deltas; nothing else changes. */
  lemma {:induction false} LeftGestureClosedForm(c: ClipData, ds: seq<real>)
    requires c.trimStart >= 0.0
    ensures ApplyDrags(c, LeftGesture(ds)) ==
      c.(trimStart := Max(c.trimStart + Sum(ds), MaxSuffixSum(ds)))
    decreases |ds|
  {
    if |ds| > 0 {
      var es := LeftGesture(ds);
      var c1 := AllowClipDrag(Left, ds[0], c).clip;
      assert es[0] == DragEvent(Left, ds[0]);
      assert es[1..] == LeftGesture(ds[1..]);
      LeftGestureClosedForm(c1, ds[1..]);
      MaxSuffixSumBounds(ds[1..]);
    }
  }

  /** The same closed form for any start trim, such as a negative one the
      inspector left behind: the first drag clamps it away, so only the
      suffixes after the first delta compete with the running total. */
  lemma {:induction false} LeftGestureClosedFormAnyStart(c: ClipData, ds: seq<real>)
    requires |ds| > 0
    ensures ApplyDrags(c, LeftGesture(ds)) ==
      c.(trimStart := Max(c.trimStart + Sum(ds), MaxSuffixSum(ds[1..])))
  {
    var es := LeftGesture(ds);
    var c1 := c.(trimStart := Max(0.0, c.trimStart + ds[0]));
    assert es[0] == DragEvent(Left, ds[0]);
    assert es[1..] == LeftGesture(ds[1..]);
    assert ApplyDrags(c, es) == ApplyDrags(c1, LeftGesture(ds[1..]));
    LeftGestureClosedForm(c1, ds[1..]);
    MaxSuffixSumBounds(ds[1..]);
    assert Sum(ds) == ds[0] + Sum(ds[1..]);
  }

  /** Left drags are not additive: from zero, -5 then +3 leaves a head
      trim of 3, while the single drag of their sum, -2, leaves 0. */
  lemma LeftDragsNotAdditive(c: ClipData)
    requires c.trimStart == 0.0
    ensures ApplyDrags(c, LeftGesture([-5.0, 3.0])).trimStart == 3.0
    ensures ApplyDrags(c, LeftGesture([-2.0])).trimStart == 0.0
  {
    LeftGestureClosedForm(c, [-5.0, 3.0]);
    LeftGestureClosedForm(c, [-2.0]);
    assert [-5.0, 3.0][1..] == [3.0];
    assert [3.0][1..] == [];
    assert [-2.0][1..] == [];
  }

  /** When no prefix of the run drives the head trim below zero, the
      clamps never fire and the drags do add up. */
  lemma {:induction false} LeftDragsAddWithoutClamp(c: ClipData, ds: seq<real>)
    requires c.trimStart >= 0.0
    requires forall k :: 0 <= k <= |ds| ==> c.trimStart + Sum(ds[..k]) >= 0.0
    ensures ApplyDrags(c, LeftGesture(ds)).trimStart == c.trimStart + Sum(ds)
    decreases |ds|
  {
    if |ds| > 0 {
      var es := LeftGesture(ds);
      var c1 := AllowClipDrag(Left, ds[0], c).clip;
      assert es[0] == DragEvent(Left, ds[0]);
      assert es[1..] == LeftGesture(ds[1..]);
      assert ds[..1][1..] == [];
      assert c.trimStart + Sum(ds[..1]) >= 0.0;
      assert c1.trimStart == c.trimStart + ds[0];
      forall k | 0 <= k <= |ds[1..]|
        ensures c1.trimStart + Sum(ds[1..][..k]) >= 0.0
      {
        assert ds[..k + 1][1..] == ds[1..][..k];
        assert c.trimStart + Sum(ds[..k + 1]) >= 0.0;
      }
      LeftDragsAddWithoutClamp(c1, ds[1..]);
    }
  }
}
