# Animation track: clip trims and track edits

A Dafny model of the core of the timeline editor's animation-track inspector
(`EditorAnimTrack`). The model covers four parts:

- **Edge drags.** A drag on a clip's left or right edge turns into new trim
  fields (`AllowClipDrag`).
- **Clip mode.** The clip's flag set {Left, Right, Loop} and its loop length
  are read back from those trims (`CalcuteClipMode`). The source's spelling
  of the name is kept.
- **Adding a clip.** A clip is appended to a track at a given time, with its
  port set to the current clip count (`AddClip`).
- **Adding a sub-track.** A sub-track built by the track factory is inserted
  into the parent's lists and into the tree view's rows (the `AddSubTrack`
  continuation).

Times are `real`. Only the threshold comparisons of the source matter (1e-2
for the left trim and the flags, 1e-1 for the right-edge deadzone). They are
the named constants `ClipTrim.Epsilon` and `ClipTrim.Deadzone`.

Files:

- `wrappers.dfy`: `Option`, which stands for a nullable reference.
- `clip_trim.dfy`: module `ClipTrim`. It holds the clip record, the drag hook,
  the inspector's unclamped edit of the clip fields and the mode function.
- `trim_states.dfy`: module `TrimStates`. It holds the six trim states, edge
  gestures (sequences of drags) and the invariant they keep, reachability and
  reversibility, and a closed form for a run of left drags. That closed form
  shows why left drags do not add up.
- `track_hierarchy.dfy`: module `TrackHierarchy`. It holds tracks, clip
  append with ports, the tree-view row lookup and sub-track insertion.

Collaborators whose code is not part of this model are modelled as follows:

- `track.AddClip` appends to the clip array.
- `AddSub` and `AddTrackChildData` append to the parent's child list and
  payload list.
- The tree view's `AddTrack(tr, i, …)` inserts a row at index `i`.
- `IndexOfTrack` returns the first row holding the track, or -1 when there is
  none.
- The track the factory creates has the context track as its `parent`.
- A fresh `AnimClipData` has `trim_end == 0`, the C# default. `AddClip` never
  assigns that field.
- The asset's `averageDuration`, `isLooping` and asset path are plain inputs
  (`AnimAsset`).

## Model

| member | source | states |
|---|---|---|
| `ClipTrim.DragLeft` | Assets/timeline/Editor/treeview/EditorAnimTrack.cs:211-216 | a left drag changes only `trimStart`; the new value is non-negative, at least the raw sum, and either 0 or exactly the raw sum (that is, `max(0, sum)`); the drag is accepted iff the new value is strictly above 0.01 |
| `ClipTrim.DragRight` | Assets/timeline/Editor/treeview/EditorAnimTrack.cs:217-222 | a right drag changes only `trimEnd` and always accepts; a sum with magnitude below 0.1 becomes exactly 0, any other sum is kept unclamped, so the result is 0 or has magnitude at least 0.1 |
| `ClipTrim.AllowClipDrag` | Assets/timeline/Editor/treeview/EditorAnimTrack.cs:208-224 | the call is passed to the base editor exactly for modes other than Left and Right; a handled drag never changes start, duration, asset or loop flag; a Left drag keeps `trimEnd`, a Right drag keeps `trimStart`; a Left drag's result is exactly `DragLeft`'s (new `trimStart` = max(0, sum)) and a Right drag's exactly `DragRight`'s (sum kept, or 0 inside the deadzone) |
| `ClipTrim.CalcuteClipMode` | Assets/timeline/Editor/treeview/EditorAnimTrack.cs:226-236 | Left is set iff `trimStart > 0.01`, whatever the tail is; Right iff `trimEnd < -0.01`; Loop iff `trimEnd > 0.01`; Right and Loop never occur together; the loop length is `trimEnd` whatever its sign |
| `ClipTrim.LeftDragAtThresholdRejected` | Assets/timeline/Editor/treeview/EditorAnimTrack.cs:215 | a left drag from 0 that lands exactly on 0.01 is not accepted, and one that lands on 0.011 is |
| `ClipTrim.RightDragDeadzoneBoundaries` | Assets/timeline/Editor/treeview/EditorAnimTrack.cs:219-220 | from a zero tail, 0.05+0.02, 0.099 and -0.099 snap to 0, while 0.1, 0.101 and -0.101 are kept |
| `TrimStates.StateOf` | Assets/timeline/Editor/treeview/EditorAnimTrack.cs:229-233 | each clip is in one of six named states, and the state's flag set is the one the mode function reports, so the mode function only ever yields these six sets |
| `TrimStates.TailFlagsFollowSign` | Assets/timeline/Editor/treeview/EditorAnimTrack.cs:219-233 | for trims kept by the drags (left trim at least 0, tail 0 or outside the deadzone), Right iff `trimEnd < 0`, Loop iff `trimEnd > 0`, and no tail flag iff `trimEnd == 0` |
| `TrimStates.DragKeepsWellTrimmed` | Assets/timeline/Editor/treeview/EditorAnimTrack.cs:211-222 | one edge drag keeps the invariant "left trim at least 0, tail 0 or at least 0.1 in magnitude" for any delta |
| `TrimStates.GestureKeepsWellTrimmed` | Assets/timeline/Editor/treeview/EditorAnimTrack.cs:208-222 | any sequence of edge drags keeps that invariant and changes nothing but the two trim fields |
| `TrimStates.EveryStateReachable` | Assets/timeline/Editor/treeview/EditorAnimTrack.cs:211-233 | every one of the six states is reached from an untrimmed clip by its route of at most two edge drags |
| `TrimStates.BackToUntrimmed` | Assets/timeline/Editor/treeview/EditorAnimTrack.cs:211-233 | no state is terminal: dragging the left edge by `-trimStart` and the right edge by `-trimEnd` returns any clip to Untrimmed |
| `ClipTrim.InspectorEdit` | Assets/timeline/Editor/treeview/EditorAnimTrack.cs:203-204 | the inspector sets `loop` and `trimStart` to exactly the typed values, with no clamp, and changes nothing else |
| `ClipTrim.TrimsNotBoundedByDuration` | Assets/timeline/Editor/treeview/EditorAnimTrack.cs:213-219 | with a duration of 1, a left drag of 5 gives a head trim of 5 and a right drag of -5 gives a tail trim of -5: neither edge is bounded by the duration |
| `TrimStates.InspectorEditCanBreakWellTrimmed` | Assets/timeline/Editor/treeview/EditorAnimTrack.cs:203-214 | an inspector edit to a head trim of -10 leaves the drag invariant broken, and the next left drag of +1 brings the head trim back to 0 |
| `TrimStates.LeftGestureClosedFormAnyStart` | Assets/timeline/Editor/treeview/EditorAnimTrack.cs:213-214 | for any start trim, a negative one included, a non-empty run of left drags ends at max(start + sum of deltas, best suffix sum of the deltas after the first) |
| `TrimStates.LeftGestureClosedForm` | Assets/timeline/Editor/treeview/EditorAnimTrack.cs:213-214 | after a run of left drags on a non-negative trim, the trim is the larger of (start trim + sum of deltas) and the best suffix sum of the deltas; nothing else changes |
| `TrimStates.LeftDragsNotAdditive` | Assets/timeline/Editor/treeview/EditorAnimTrack.cs:213-214 | from 0, the drags -5 then +3 leave a trim of 3, while the single drag -2 leaves 0 |
| `TrimStates.LeftDragsAddWithoutClamp` | Assets/timeline/Editor/treeview/EditorAnimTrack.cs:213-214 | when no prefix of the run takes the trim below 0, the left drags add up exactly |
| `TrackHierarchy.AddClip` | Assets/timeline/Editor/treeview/EditorAnimTrack.cs:159-172 | the clip list grows by exactly one and earlier clips are unchanged; the new clip has start `t`, both trims 0, duration, loop flag and path from the asset, and port equal to the pre-call clip count (0 for a null array); the track's other fields are unchanged |
| `TrackHierarchy.AddedClipUntrimmed` | Assets/timeline/Editor/treeview/EditorAnimTrack.cs:161-166 | a freshly added clip has no mode flags and a zero loop length |
| `TrackHierarchy.AddClipKeepsPorts` | Assets/timeline/Editor/treeview/EditorAnimTrack.cs:170-171 | if every clip's port equals its position, that still holds after an append |
| `TrackHierarchy.AddClipsNumberPorts` | Assets/timeline/Editor/treeview/EditorAnimTrack.cs:159-171 | on a track whose ports equal their positions (an empty track included), n appends add n clips in call order, each starting at its own time, and ports stay equal to positions (0..n-1 from an empty track) |
| `TrackHierarchy.AddClipsKeepPrefix` | Assets/timeline/Editor/treeview/EditorAnimTrack.cs:171 | a run of appends leaves every clip already on the track in place |
| `TrackHierarchy.IndexOfTrack` | Assets/timeline/Editor/treeview/EditorAnimTrack.cs:108 | the row lookup gives the first row that holds the track, or -1 exactly when no row holds it |
| `TrackHierarchy.InsertAt` | Assets/timeline/Editor/treeview/EditorAnimTrack.cs:109 | inserting a row at index k puts it at k, keeps the rows before k, and shifts every later row down by one |
| `TrackHierarchy.RemoveUndoesInsert` | Assets/timeline/Editor/treeview/EditorAnimTrack.cs:109 | removing the inserted row restores the original rows |
| `TrackHierarchy.AddSubTrack` | Assets/timeline/Editor/treeview/EditorAnimTrack.cs:97-111 | if the factory returns no track or no payload, nothing changes; otherwise the new track becomes the last child, its payload the last payload, the parent's other fields are kept, and its row goes at (index of the last pre-existing child, or of the parent if it has none) + 1, with the other rows kept in order |
| `TrackHierarchy.SubTrackRowFollowsAnchor` | Assets/timeline/Editor/treeview/EditorAnimTrack.cs:101-109 | when the anchor (last child, or the parent) has a row, the new row comes directly after it; when it has none, the new row becomes row 0 |
| `TrackHierarchy.SubTrackRowInsertionUndone` | Assets/timeline/Editor/treeview/EditorAnimTrack.cs:108-109 | removing the new row gives back the old rows, so the edit is exactly one insertion |
| `TrackHierarchy.SubTrackAtomic` | Assets/timeline/Editor/treeview/EditorAnimTrack.cs:99-107 | the child list and the payload list grow together or not at all, and the rows grow by one exactly when the factory returned both a track and a payload |

## Left out

- IMGUI rendering (`OnGUIHeader`, `OnInspectorTrack`, `trackHeader`, `trackColor`, `warn`) is presentation only.
- `OnInspectorClip` is not only presentation: it writes `loop` and `trim_start` straight from the user's input, with no clamp (lines 203-204). That write is modelled as `ClipTrim.InspectorEdit`. So a clip can hold a negative head trim or one in (0, 0.01]. The drag invariant `TrimStates.WellTrimmed` holds only while drags alone change the trims. The field rendering itself and the `aclip` object field (line 205) are left out.
- Drag-and-drop and the asset picker (`OnDragDrop`, `OnAddClip`, `ObjectSelector`, `PiexlToTime`) are input plumbing. They end in a call to `AddClip` with a time, and the time is a parameter here.
- Foreign Unity and editor calls (`AssetDatabase.GetAssetPath`, `averageDuration`, `isLooping`, `CharacterWindow.Find`, `XBindTrack.Load`) are opaque inputs. The lazily cached `Data` and `Character` lookups are left out for the same reason.
- The sub-track menu built from `TypeUtilities.GetRootChilds` and the factory `EditorFactory.GetTrackByDataType` are an external registry and factory. Only what the factory hands back is modelled (`Created`). The extra `param` it passes on to the tree view is opaque and dropped. The asynchronous continuation is modelled as one call; a factory that never calls back leaves the state unchanged, as the unchanged inputs show.
- The skill-host-track assignment in `OnInspectorTrack` (lines 182-194) is a one-off change to global configuration.
- `base.AllowClipDrag` for drag modes other than Left and Right is not part of this model. Such a call yields `Deferred`.
- IEEE float rounding is not modelled. Times are exact reals, so a drag's sum and the threshold tests are exact.
- The clip's runtime asset reference (`clip.aclip`) is not modelled. Only the stored path is.
- The `c.data as AnimClipData` casts (lines 210 and 228) are assumed to succeed. An `as` cast never throws; on a clip whose data is not an `AnimClipData` it yields null, and the source then fails with a null dereference at line 213 (Left), 219 (Right) or 230 (mode). For other drag modes `d` is never dereferenced (line 223), so nothing fails there.
- Trims are not bounded by the clip's duration. The drags have no upper clamp on `trim_start` (lines 213-214) and no lower bound on `trim_end` (line 219), so nothing here keeps the trimmed clip's length non-negative. `ClipTrim.TrimsNotBoundedByDuration` exhibits both cases. Any such bound belongs to the drag caller, which is not part of this model. The source gives no intended bound, so this is not claimed as a defect.
- `AddSubTrack` puts the new row right after the last child's own row. If that child has sub-tracks of its own shown below it, the new row lands between the child and its sub-tracks. The tree view's layout is not part of this model, so the model states the index rule and not "after the whole subtree".
