/** Structural edits of an animation track: appending a clip dropped or
    picked at a time, and inserting a new sub-track built by the track
    factory, both in the track's own lists and as a row of the timeline's
    tree view. */
module TrackHierarchy {
  import opened Wrappers
  import opened ClipTrim

  type TrackId = nat

  /** What the asset database reports about an animation asset. */
  datatype AnimAsset = AnimAsset(averageDuration: real, isLooping: bool, path: string)

  /** A clip placed on a track: its record and its port, the clip's layer
      among the track's clips. */
  datatype AnimClip = AnimClip(data: ClipData, port: int)

  /** A sub-track's configuration payload; opaque to these edits. */
  datatype TrackData = TrackData(kind: string)

  /** A track of the timeline.  Its child list and clip array may be null. */
  datatype Track = Track(
    id: TrackId,
    childs: Option<seq<TrackId>>,
    childData: seq<TrackData>,
    clips: Option<seq<AnimClip>>)

  function ClipsOf(t: Track): seq<AnimClip>
  {
    t.clips.GetOr([])
  }

  function ChildsOf(t: Track): seq<TrackId>
  {
    t.childs.GetOr([])
  }

  /** Ports follow list order: the clip at position i has port i. */
  predicate PortsMatchPositions(t: Track)
  {
    forall i :: 0 <= i < |ClipsOf(t)| ==> ClipsOf(t)[i].port == i
  }

  /** Build the clip record for `asset` at time `t` and append it to the
      track.  The new clip starts at `t` untrimmed, takes duration, loop
      flag and path from the asset, and gets the pre-call clip count (0 for
      a null array) as its port; earlier clips and the rest of the track
      are unchanged. */
  function AddClip(track: Track, asset: AnimAsset, t: real): (r: Track)
    ensures r.id == track.id && r.childs == track.childs && r.childData == track.childData
    ensures |ClipsOf(r)| == |ClipsOf(track)| + 1
    ensures ClipsOf(r)[..|ClipsOf(track)|] == ClipsOf(track)
    ensures var n := ClipsOf(r)[|ClipsOf(track)|];
      && n.port == (if track.clips.None? then 0 else |track.clips.value|)
      && n.data.start == t
      && n.data.trimStart == 0.0 && n.data.trimEnd == 0.0
      && n.data.duration == asset.averageDuration
      && n.data.loop == asset.isLooping
      && n.data.anim == asset.path
  {
    var data := ClipData(t, asset.averageDuration, asset.path, 0.0, 0.0, asset.isLooping);
    var port := if track.clips.None? then 0 else |track.clips.value|;
    track.(clips := Some(ClipsOf(track) + [AnimClip(data, port)]))
  }

  /** A new clip enters with no trim flags and with a zero loop length. */
  lemma AddedClipUntrimmed(track: Track, asset: AnimAsset, t: real)
    ensures var n := ClipsOf(AddClip(track, asset, t))[|ClipsOf(track)|];
      CalcuteClipMode(n.data) == ({}, 0.0)
  {
    var n := ClipsOf(AddClip(track, asset, t))[|ClipsOf(track)|];
    var m := CalcuteClipMode(n.data).0;
    forall f | f in m
      ensures false
    {
      match f
      case LeftTrim =>
      case RightTrim =>
      case Loop =>
    }
    assert m == {};
    assert CalcuteClipMode(n.data).1 == 0.0;
  }

  /** Appending keeps ports in step with positions, so a track built only
      by `AddClip` has ports 0, 1, ..., n-1. */
  lemma AddClipKeepsPorts(track: Track, asset: AnimAsset, t: real)
    requires PortsMatchPositions(track)
    ensures PortsMatchPositions(AddClip(track, asset, t))
  {
  }

  /** Append clips for `assets` in order, clip i at time `times[i]`. */
  function AddClips(track: Track, assets: seq<AnimAsset>, times: seq<real>): Track
    requires |assets| == |times|
    decreases |assets|
  {
    if |assets| == 0 then track
    else AddClips(AddClip(track, assets[0], times[0]), assets[1..], times[1..])
  }

  /** On a track whose ports match positions (an empty one included), a
      run of `AddClip` calls yields one clip per call, in call order, and
      ports keep matching positions, so from empty they are 0, ..., n-1. */
  lemma {:induction false} AddClipsNumberPorts(track: Track, assets: seq<AnimAsset>, times: seq<real>)
    requires |assets| == |times|
    requires PortsMatchPositions(track)
    ensures |ClipsOf(AddClips(track, assets, times))| == |ClipsOf(track)| + |assets|
    ensures PortsMatchPositions(AddClips(track, assets, times))
    ensures forall i :: 0 <= i < |assets| ==>
      ClipsOf(AddClips(track, assets, times))[|ClipsOf(track)| + i].data.start == times[i]
    decreases |assets|
  {
    if |assets| > 0 {
      var t1 := AddClip(track, assets[0], times[0]);
      AddClipKeepsPorts(track, assets[0], times[0]);
      AddClipsNumberPorts(t1, assets[1..], times[1..]);
      var r := AddClips(track, assets, times);
      assert r == AddClips(t1, assets[1..], times[1..]);
      AddClipsKeepPrefix(t1, assets[1..], times[1..]);
      forall i | 0 <= i < |assets|
        ensures ClipsOf(r)[|ClipsOf(track)| + i].data.start == times[i]
      {
        if i > 0 {
          assert times[1..][i - 1] == times[i];
        } else {
          assert ClipsOf(r)[..|ClipsOf(t1)|] == ClipsOf(t1);
          assert ClipsOf(r)[|ClipsOf(track)|] == ClipsOf(t1)[|ClipsOf(track)|];
        }
      }
    }
  }

  /** Later appends never disturb clips already on the track. */
  lemma {:induction false} AddClipsKeepPrefix(track: Track, assets: seq<AnimAsset>, times: seq<real>)
    requires |assets| == |times|
    ensures |ClipsOf(AddClips(track, assets, times))| == |ClipsOf(track)| + |assets|
    ensures ClipsOf(AddClips(track, assets, times))[..|ClipsOf(track)|] == ClipsOf(track)
    decreases |assets|
  {
    if |assets| > 0 {
      var t1 := AddClip(track, assets[0], times[0]);
      AddClipsKeepPrefix(t1, assets[1..], times[1..]);
      var r := ClipsOf(AddClips(track, assets, times));
      assert r[..|ClipsOf(track)|] == r[..|ClipsOf(t1)|][..|ClipsOf(track)|];
    }
  }

  /** The tree view's row lookup: the first row holding `id`, or -1 when
      the track has no row. */
  function IndexOfTrack(rows: seq<TrackId>, id: TrackId): (i: int)
    ensures -1 <= i < |rows|
    ensures i == -1 <==> id !in rows
    ensures i >= 0 ==> rows[i] == id
    ensures forall j :: 0 <= j < i ==> rows[j] != id
    decreases |rows|
  {
    if |rows| == 0 then -1
    else if rows[0] == id then 0
    else
      var k := IndexOfTrack(rows[1..], id);
      if k < 0 then -1 else k + 1
  }

  /** What the track factory hands back to the continuation: the new track
      and its payload, either of which may be null. */
  datatype Created = Created(track: Option<TrackId>, data: Option<TrackData>)

  /** The parent track and the tree view's rows after an edit. */
  datatype Edit = Edit(parent: Track, rows: seq<TrackId>)

  /** The row the new sub-track goes after: the parent's last child as it
      was before the insert, or the parent itself when it has none. */
  function Anchor(parent: Track): TrackId
  {
    if |ChildsOf(parent)| > 0 then ChildsOf(parent)[|ChildsOf(parent)| - 1] else parent.id
  }

  /** The rows with `x` placed at index `k`: rows before `k` stay where
      they are and every later row moves down by one. */
  function InsertAt(rows: seq<TrackId>, k: nat, x: TrackId): (r: seq<TrackId>)
    requires k <= |rows|
    ensures |r| == |rows| + 1
    ensures r[k] == x
    ensures forall i :: 0 <= i < k ==> r[i] == rows[i]
    ensures forall i :: k <= i < |rows| ==> r[i + 1] == rows[i]
  {
    rows[..k] + [x] + rows[k..]
  }

  function RemoveAt(rows: seq<TrackId>, k: nat): seq<TrackId>
    requires k < |rows|
  {
    rows[..k] + rows[k + 1..]
  }

  /** Removing the row just inserted gives back the original rows. */
  lemma RemoveUndoesInsert(rows: seq<TrackId>, k: nat, x: TrackId)
    requires k <= |rows|
    ensures RemoveAt(InsertAt(rows, k, x), k) == rows
  {
    var r := InsertAt(rows, k, x);
    assert r[..k] == rows[..k];
    assert r[k + 1..] == rows[k..];
    assert rows[..k] + rows[k..] == rows;
  }

  /** The factory's continuation for a new sub-track of `parent`.  Unless
      both the track and its payload came back, nothing changes.  On
      success the new track becomes the parent's last child, its payload
      the parent's last payload, and its row is inserted right after the
      anchor's row (at row 0 when the anchor has none); no other row moves
      relative to another. */
  function AddSubTrack(parent: Track, rows: seq<TrackId>, created: Created): (r: Edit)
    ensures created.track.None? || created.data.None? ==> r == Edit(parent, rows)
    ensures created.track.Some? && created.data.Some? ==>
      var k := IndexOfTrack(rows, Anchor(parent)) + 1;
      && r.parent == parent.(childs := r.parent.childs, childData := r.parent.childData)
      && ChildsOf(r.parent) == ChildsOf(parent) + [created.track.value]
      && r.parent.childData == parent.childData + [created.data.value]
      && |r.rows| == |rows| + 1
      && 0 <= k <= |rows|
      && r.rows[k] == created.track.value
      && r.rows[..k] == rows[..k]
      && r.rows[k + 1..] == rows[k..]
  {
    if created.track.None? || created.data.None? then Edit(parent, rows)
    else
      var tr := created.track.value;
      var anchor := Anchor(parent);
      var parent' := parent.(childs := Some(ChildsOf(parent) + [tr]),
                             childData := parent.childData + [created.data.value]);
      var k := IndexOfTrack(rows, anchor) + 1;
      var rows' := InsertAt(rows, k, tr);
      assert rows'[..k] == rows[..k];
      assert rows'[k + 1..] == rows[k..];
      Edit(parent', rows')
  }

  /** Where the new row lands: directly after the anchor's row when the
      anchor is shown, first otherwise. */
  lemma SubTrackRowFollowsAnchor(parent: Track, rows: seq<TrackId>, created: Created)
    requires created.track.Some? && created.data.Some?
    ensures var r := AddSubTrack(parent, rows, created);
      Anchor(parent) in rows ==>
        exists k :: 0 < k < |r.rows| && r.rows[k - 1] == Anchor(parent) && r.rows[k] == created.track.value
    ensures var r := AddSubTrack(parent, rows, created);
      Anchor(parent) !in rows ==> r.rows == [created.track.value] + rows
  {
    var r := AddSubTrack(parent, rows, created);
    var k := IndexOfTrack(rows, Anchor(parent)) + 1;
    if Anchor(parent) in rows {
      assert r.rows[k - 1] == r.rows[..k][k - 1];
    } else {
      assert r.rows == r.rows[..1] + r.rows[1..];
    }
  }

  /** Removing the inserted row gives back the rows as they were: the edit
      is a single insertion and nothing else. */
  lemma SubTrackRowInsertionUndone(parent: Track, rows: seq<TrackId>, created: Created)
    requires created.track.Some? && created.data.Some?
    ensures var r := AddSubTrack(parent, rows, created);
      var k := IndexOfTrack(rows, Anchor(parent)) + 1;
      RemoveAt(r.rows, k) == rows
  {
    var r := AddSubTrack(parent, rows, created);
    var k := IndexOfTrack(rows, Anchor(parent)) + 1;
    assert r.rows[..k] == rows[..k] && r.rows[k + 1..] == rows[k..];
    assert RemoveAt(r.rows, k) == rows[..k] + rows[k..];
    assert rows[..k] + rows[k..] == rows;
  }

  /** Child list and payload list change together: both grow by one or
      neither does, so a declined factory leaves no partial edit. */
  lemma SubTrackAtomic(parent: Track, rows: seq<TrackId>, created: Created)
    ensures var r := AddSubTrack(parent, rows, created);
      |ChildsOf(r.parent)| - |ChildsOf(parent)| == |r.parent.childData| - |parent.childData|
    ensures var r := AddSubTrack(parent, rows, created);
      (|r.rows| == |rows| + 1) <==> (created.track.Some? && created.data.Some?)
  {
  }
}
