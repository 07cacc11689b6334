# Blender tracking, masking and scene add-ons — a Dafny model

This project models the logic at the heart of a collection of Blender add-ons for
motion tracking, masking, VR panorama rendering and viewport work, and proves
properties about it. Blender's data (tracks, markers, masks, scenes, node trees,
objects) is modelled by value. Each datatype or class holds only the fields the
add-ons read or write.

- **Motion tracking** (`tracking.dfy`, `tracking_tools.dfy`, `filter_foreground.dfy`,
  `marker_weight.dfy`, `tracking_pies.dfy`). Covers:
  - the evaluation-window check and the lists of valid frames;
  - marker slopes, and the end-spike filter that mutes the last marker of a track;
  - foreground selection against the cohort of other tracks;
  - weight-fade keying (a trapezoid of weight keys), clearing weight animation;
  - the search for zero-weighted tracks, and the jump to the next sparse frame.

  The four source files repeat most helpers with small differences. The shared parts
  live in `tracking.dfy`; the variants live in the module named after each file.
- **Tracking scene setup** (`setup_tracking_scene.dfy`). Covers:
  - lens-distortion detection and the camera-for-clip search;
  - find-or-create of the scene camera, and the collection linking;
  - the compositor node helpers (wipe the default nodes, find or create a node, the
    overlap-removing offset loop);
  - the vertex and face layout of the generated meshes.
- **VR panorama tools** (`vrais_tools.dfy`, with `py_str.dfy` for Python's `str(int)` and
  `zfill`). Covers:
  - the cubemap output path, the 4-digit frame tag, the tile-suffix rule and the
    12-tile name table;
  - the image-node loop and the x offsets of the strip layout;
  - the strip's render settings, and the upload operator's validation chain.
- **Render tweaker** (`render_tweaker.dfy`). Snapshots of the Cycles settings are
  kept per render slot. Covers the storage key, save, load, the recording toggle and
  the slot handler.
- **Masking pies** (`masking_pies.dfy`). Covers:
  - the selected points of the editable layers, and layer isolation;
  - a new isolated layer, blend modes, and the draw-type toggle;
  - shape-key clearing on every frame but the current one, as written and as intended;
  - track visibility toggles.
- **Viewport and snapping pies** (`viewport_pies.dfy`, `snapping_pies.dfy`). Covers:
  - the all-or-nothing wireframe and draw-type toggles;
  - the pivot toggle;
  - the snapping operators that borrow the 3D cursor and put it back.
- **GPU selection** (`enable_gpus.dfy`) and the **action starter** (`nla_player.dfy`).

A Python exception is modelled as an error result (`None`, `false`, or a `Cancelled`
value). The state the Python leaves behind when it raises is modelled too. Track
identity is the index into the clip's track list. A Python dictionary keyed by tracks
is a `map<nat, seq<int>>`, iterated in ascending index, the order in which every
caller inserts its keys. The Python 3.5 of the Blender 2.7x releases these add-ons
target iterates such a dictionary in hash order instead; see "## Left out".

## Model

| member | source | states |
|---|---|---|
| Tracking.Difference | tracking_tools.py:74-79 | the per-axis difference is non-negative and zero exactly when the two components agree |
| Tracking.DifferenceSymmetric | filter_foreground.py:21-26 | the difference does not depend on argument order |
| Tracking.UsableCountAll | tracking_tools.py:82-101 | the count of passing frames of a window is at most its width, and reaches it exactly when every frame passes |
| Tracking.CheckEvalTimeWindow | tracking_tools.py:82-101 | the window check holds iff every frame g of [f-e, f) has unmuted markers at g and g-1 |
| Tracking.CheckEvalTimeMuteBreaks | filter_foreground.py:34-53 | muting any one marker the window relies on makes the check fail |
| Tracking.FramesMeaning | tracking_tools.py:104-117 | a frame list is strictly increasing and holds exactly the frames in range that pass the test |
| Tracking.AllIds | tracking_tools.py:104-106 | the iteration order of the tracks is 0..n-1 |
| Tracking.ValidTrackMap | tracking_tools.py:104-117 | the dictionary's keys are tracks, each with a non-empty list |
| Tracking.ValidTrackMapMeaning | tracking_tools.py:104-117 | only listed tracks with a valid frame are keys, each mapped to the increasing list of exactly its valid frames |
| Tracking.ValidTrackMapSnoc | filter_foreground.py:55-68 | processing one more track adds its entry exactly when its frame list is non-empty |
| Tracking.GetValidTracks | tracking_tools.py:104-117 | the loop, which rewrites the entry after every frame, builds the specified dictionary |
| Tracking.SlopeIsSecondDifference | tracking_tools.py:120-125 | the slope exists iff markers sit on f, f-1 and f-2, and is p(f) - 2p(f-1) + p(f-2) in pixels |
| Tracking.ShiftedPixelPos | tracking_tools.py:59-64 | moving a marker moves its pixel position by the offset scaled by the clip size |
| Tracking.SlopeShiftInvariant | tracking_tools.py:120-125 | shifting every marker by one offset leaves every slope unchanged |
| Tracking.SlopeSumConstant | tracking_tools.py:243-248 | summing e equal slopes adds e times that slope |
| Tracking.WindowMeanOfConstant | tracking_tools.py:243-248 | the window mean of constant slopes is that slope |
| Tracking.OverwriteKeepsLast | tracking_tools.py:128-134 | the overwriting accumulator ends as twice the last slope, and raises exactly when the sum does |
| Tracking.AverageSlopeOverwrites | tracking_tools.py:128-134 | get_average_slope raises exactly when the mean does, and otherwise returns 2·slope(f-1)/e |
| Tracking.AverageSlopeIsNotTheMean | filter_foreground.py:90-96 | on a concrete track the accumulator gives 1 where the mean of the window is 1/2 |
| Tracking.SlopesZeroThenOne | filter_foreground.py:90-96 | on any track whose slopes at frames 2 and 3 are 0 and 1, the window mean over [2, 4) is 1/2 while the loop as written gives 1 |
| Tracking.GetAverageSlope | tracking_tools.py:128-134 | the loop computes the as-written average |
| Tracking.EndSpikeScanSound | tracking_tools.py:237-253 | from track i, the scan adds exactly the valid tracks whose decision is to mute |
| Tracking.EndSpikeScanMeaning | tracking_tools.py:237-253 | a marked track passed the window check at its last valid frame and deviated there by more than the threshold on some axis |
| Tracking.MuteEnds | tracking_tools.py:255-257 | muting keeps the number of tracks |
| Tracking.MuteEndsOneMarkerPerTrack | tracking_tools.py:255-257 | at most one marker per track changes, always the one on its last valid frame, and nothing else |
| Tracking.IdsWhere | tracking_tools.py:35-39 | the filtered indices are exactly those satisfying the test, increasing |
| Tracking.MarkerMapMeaning | tracking_tools.py:137-154 | the marker dictionary holds exactly the included tracks with more than minLen tracked frames, each with exactly its tracked frames, increasing |
| Tracking.CollectMarkerLists | marker_weight.py:34-54 | the loops build the specified marker dictionary |
| Tracking.MarkerMapSnoc | tracking_pies.py:36-57 | one more track adds its entry exactly when its list is long enough |
| Tracking.Cohort | tracking_tools.py:307-311 | the cohort is the candidates other than i passing the window check, in order |
| Tracking.ForegroundScanSound | tracking_tools.py:298-320 | when the scan does not raise, it keeps the starting set and adds only valid tracks from i on with a positive decision |
| Tracking.ForegroundScanComplete | tracking_tools.py:298-320 | when the scan does not raise, every valid track from i on with a positive decision is chosen |
| Tracking.ForegroundScanMeaning | tracking_tools.py:298-320 | the foreground scan chooses exactly the valid tracks with a positive decision |
| Tracking.ForegroundDecisionMeaning | tracking_tools.py:298-320 | a chosen track passed the window check and its average differs from the cohort mean, times e, by more than the threshold on some axis |
| Tracking.EmptyCohortRaises | tracking_tools.py:315 | with no other valid track the division by the cohort size raises |
| Tracking.CohortEmpty | tracking_tools.py:307-311 | a cohort is empty when no other candidate passes the check |
| Tracking.SelectAll | tracking_tools.py:321-322 | selecting sets select on exactly the chosen tracks |
| Tracking.SelectAllOnlySelects | tracking_tools.py:321-322 | selection never deselects and changes only the select flag |
| Tracking.SelectListed | tracking_tools.py:321-322 | `for t in list: t.select = True` selects exactly the listed tracks |
| Tracking.DecideEndSpike | tracking_tools.py:238-253 | the per-track decision body computes the specified decision |
| Tracking.MuteLastFrames | tracking_tools.py:255-257 | the muting loop mutes exactly the last valid marker of every marked track |
| Tracking.CollectCohort | tracking_tools.py:307-311 | the cohort loop builds the cohort |
| Tracking.SumCohort | tracking_tools.py:312-314 | the loop sums the cohort's average slopes, or raises as the model says |
| Tracking.ForegroundDecisionUnfold | tracking_tools.py:304-320 | the decision equals the comparison of own average with cohort sum / cohort size |
| Tracking.DecideForeground | tracking_tools.py:298-320 | the per-track foreground body computes the specified decision |
| Tracking.ChooseForeground | tracking_tools.py:298-320 | the loop collects the chosen tracks or reports the raise |
| Tracking.FadeTrackFrame | tracking_tools.py:184-202 | keying touches only the weight and the keys on f1, f1+T, f4-T, f4 |
| Tracking.FadeTrackTrapezoid | tracking_tools.py:184-202 | with both ends keyed, the keys are 0, 1, 1, 0 and the track ends with weight 0 |
| Tracking.FadeTrackEndOnly | tracking_pies.py:72-92 | keying only the end holds the own weight on f4-T and drops to 0 on f4 |
| Tracking.KeyingStop | tracking_tools.py:184-202 | the index where keying stops is within the track list |
| Tracking.FirstShortList | tracking_tools.py:187-189 | the first list shorter than two frames (IndexError on list[-2]) |
| Tracking.NoShortList | tracking_tools.py:187-189 | lists of two frames or more never stop the loop |
| Tracking.FadeTracksBelow | tracking_tools.py:184-202 | keying keeps the number of tracks |
| Tracking.InsertWeightKeys | tracking_tools.py:184-202 | the keying loop reports whether no list was short, keys the tracks up to the stop and returns the last keyed frame |
| Tracking.KeyFade | tracking_tools.py:186-202 | one loop step keys the track exactly as the fade ramps prescribe and reports the frame it ends on |
| Tracking.FadeTracksStep | tracking_tools.py:185-202 | keying one more track changes that track only, and only when its list has at least two frames |
| TrackingTools.VisibleSelected | tracking_tools.py:35-39 | exactly the selected, not hidden tracks, increasing |
| TrackingTools.InvisibleIds | tracking_tools.py:41-56 | empty when disabled markers are shown; otherwise exactly the selected tracks with no enabled marker on the frame |
| TrackingTools.InvisibleSelected | tracking_tools.py:41-56 | the loop with its two continues computes InvisibleIds |
| TrackingTools.GetMarkerList | tracking_tools.py:137-154 | keys are the visible selected tracks with more than 2·fade_time tracked frames, each with exactly its tracked frames |
| TrackingTools.RemoveFirst | tracking_tools.py:177 | list.remove drops one occurrence of x and keeps every other element |
| TrackingTools.RemoveFirstIncreasing | tracking_tools.py:177 | removing from an increasing list keeps it increasing |
| TrackingTools.PassFrom | tracking_tools.py:173-178 | one pass over the list, removing the tracks weighted above zero, keeps only listed tracks |
| TrackingTools.SweepFrom | tracking_tools.py:170-181 | the sweep over every frame of the range keeps only listed tracks |
| TrackingTools.PassFromKeeps | tracking_tools.py:173-178 | a track weighted zero on the frame survives the pass |
| TrackingTools.PassFromIncreasing | tracking_tools.py:173-178 | a pass keeps the list increasing |
| TrackingTools.SweepMeaning | tracking_tools.py:170-181 | the sweep keeps every truly zero-weighted track and keeps the list increasing |
| TrackingTools.SweepSkipsAfterRemoval | tracking_tools.py:173-178 | two tracks of weight 1: the sweep returns the second, which is not zero-weighted |
| TrackingTools.ZeroWeightedIds | tracking_tools.py:170-181 | exactly the listed tracks with weight ≤ 0 on every frame of the range |
| TrackingTools.SweepFindsZeroWeighted | tracking_tools.py:170-181 | the as-written sweep finds every track the intended search finds |
| TrackingTools.FindZeroWeightedTracks | tracking_tools.py:170-181 | the loop returns the sweep and restores frame_current |
| TrackingTools.Cleared | tracking_tools.py:157-167 | clearing keeps the number of tracks |
| TrackingTools.ClearOneIdempotent | tracking_tools.py:157-167 | clearing a track twice is clearing it once |
| TrackingTools.ClearedSnoc | tracking_tools.py:157-167 | clearing one more listed track updates only that track |
| TrackingTools.ClearedMeaning | tracking_tools.py:157-167 | listed tracks lose every weight key in the range and, unless zero-weighted, take the weight there; others are unchanged |
| TrackingTools.ClearWeightAnimation | tracking_tools.py:157-167 | the loop clears as specified and restores frame_current |
| TrackingTools.ClearTrack | tracking_tools.py:159-167 | one loop step removes exactly the keys on frame_start..frame_end and sets the weight unless the track is zero-weighted |
| TrackingTools.InsertKeyframe | tracking_tools.py:184-202 | the keying loop keys every track until the first short list |
| TrackingTools.DropShort | tracking_tools.py:375-381 | exactly the tracks with at least 2·fade_time valid frames remain, with their lists |
| TrackingTools.WeightFadeNeverShort | tracking_tools.py:375-383 | with fade_time ≥ 1 the keying loop never raises after the short tracks are removed |
| TrackingTools.WeightFadeDict | tracking_tools.py:374-381 | the dictionary's keys are tracks |
| TrackingTools.DropShortTracks | tracking_tools.py:375-381 | the short list and its deletions compute DropShort |
| TrackingTools.WeightFade | tracking_tools.py:368-384 | clear, then find the valid tracks, drop the short ones, then key; frame_current restored |
| TrackingTools.ClearWeightAnimationOperator | tracking_tools.py:398-402 | the visible selected tracks are cleared with weight 1 |
| TrackingTools.Without | tracking_tools.py:490 | exactly the tracks of the list not in the drop list |
| TrackingTools.CreateZeroWeightedTracks | tracking_tools.py:485-492 | the visible selected tracks without invisible markers are cleared with weight 0 |
| TrackingTools.FilterTrackEnds | tracking_tools.py:232-259 | mutes exactly the marked tracks' last valid markers and returns their number, or changes nothing when a decision raises |
| TrackingTools.SelectForeground | tracking_tools.py:295-322 | selects exactly the tracks the scan chooses, or changes nothing when it raises |
| TrackingTools.SelectZeroWeightedTracks | tracking_tools.py:345-351 | selects exactly the tracks the sweep returns |
| TrackingTools.FirstSparseFrame | tracking_tools.py:459-472 | the first frame of the range with fewer than 8 tracked markers |
| TrackingTools.GotoNextMarkerGap | tracking_tools.py:459-472 | frame_current goes to the frame before the first sparse frame (or to it at frame_start), else stays |
| FilterForeground.RelevantFrom | filter_foreground.py:71-87 | the result is the first other track usable at the frame, or None when there is none |
| FilterForeground.RelevantTracks | filter_foreground.py:71-87 | the loop returns at the first usable track |
| FilterForeground.AllRelevant | filter_foreground.py:71-87 | exactly the other tracks usable at the frame, increasing |
| FilterForeground.WithoutIncreasing | filter_foreground.py:71-87 | filtering an increasing list keeps it increasing |
| FilterForeground.RelevantIsFirstOfAll | filter_foreground.py:71-87 | relevant_tracks returns only the first element of the intended list |
| FilterForeground.RelevantTracksStopsEarly | filter_foreground.py:71-87 | three identical tracks: [1] is returned where [1, 2] are relevant |
| FilterForeground.StopsEarlyFor | filter_foreground.py:71-87 | for any track usable at frame 1, three copies of it: [1] is returned while tracks 1 and 2 are both relevant |
| FilterForeground.DeselectBelow | filter_foreground.py:101-102 | exactly the dictionary tracks below n are deselected |
| FilterForeground.RaiseIndexMeaning | filter_foreground.py:99-124 | the first valid track whose decision raises, with every earlier decision defined |
| FilterForeground.DeselectStep | filter_foreground.py:101-102 | visiting one more track deselects it exactly when it is valid; no other track changes |
| FilterForeground.ScanSkip | filter_foreground.py:101 | a track with no valid entry is not visited: neither the marked set nor the raising track depends on it |
| FilterForeground.ScanDecided | filter_foreground.py:103-118 | a visited track whose decision is b is marked exactly when b, and the raising track lies among the later ones |
| FilterForeground.EndSpikeStep | filter_foreground.py:101-118 | one loop step deselects the track, stops exactly when its decision raises, and otherwise advances the marked set |
| FilterForeground.RaiseIndexScan | filter_foreground.py:99-124 | the scan completes exactly when no decision raises |
| FilterForeground.FilterTrackEnds | filter_foreground.py:99-124 | deselects the valid tracks and mutes the marked ends, or stops after deselecting up to the raising track |
| FilterForeground.FilterTrackEndsEffect | filter_foreground.py:99-124 | afterwards exactly the non-valid tracks keep their selection, and only last valid markers of marked tracks change |
| FilterForeground.ValidKeys | filter_foreground.py:127-135 | the dictionary's keys in increasing order |
| FilterForeground.FilterForegroundCohort | filter_foreground.py:127-159 | the cohort is the other valid tracks passing the window check |
| FilterForeground.FilterForeground | filter_foreground.py:127-159 | selects exactly the tracks the scan chooses, or changes nothing when it raises |
| FilterForeground.FilterTrackEndsOperator | filter_foreground.py:187-193 | the operator runs the filter on the valid tracks of the scene range: the marked ends are muted when nothing raises, and otherwise the tracks up to the raising one stay deselected |
| FilterForeground.FilterForegroundOperator | filter_foreground.py:221-224 | the operator runs the foreground filter on the valid tracks |
| MarkerWeight.GetMarkerList | marker_weight.py:34-54 | keys are the (selected, when asked) tracks with enough tracked frames, each with exactly its tracked frames |
| MarkerWeight.FadeFrames | marker_weight.py:60-63 | f1 is the first frame, f4 the second to last, and both fades last fade_time |
| MarkerWeight.FadeKeysOnFadeFrames | marker_weight.py:56-78 | keys appear on the fade frames of the keyed ends and nowhere else |
| MarkerWeight.InsertKeyframe | marker_weight.py:56-78 | keys every track until the first short list and leaves frame_current on the last keyed frame |
| MarkerWeight.WeightFadeOperator | marker_weight.py:99-101 | keys the selected tracks' marker lists |
| TrackingPies.KeysDeleted | tracking_pies.py:44-47 | exactly the weight keys outside [start, end) remain, unchanged |
| TrackingPies.DeletedKeys | tracking_pies.py:36-57 | only the visible selected tracks lose their keys in range |
| TrackingPies.GetMarkerList | tracking_pies.py:36-57 | builds the marker dictionary and deletes the keys of the visited tracks |
| TrackingPies.DeleteKeysCollectFrames | tracking_pies.py:47-52 | the frame loop deletes exactly the keys on [frame_start, frame_end) and collects exactly the tracked frames, in order |
| TrackingPies.KeysDeletedStep | tracking_pies.py:48-50 | deleting the key at one more frame removes that frame only |
| TrackingPies.SelectedZero | tracking_pies.py:60-69 | each track's selection becomes whether it is zero-weighted |
| TrackingPies.SelectZeroWeightedTracks | tracking_pies.py:60-69 | the loop selects exactly the zero-weighted tracks and restores frame_current |
| TrackingPies.DeselectWeighted | tracking_pies.py:64-68 | one frame of the loop deselects exactly the tracks weighted above zero at that frame |
| TrackingPies.SelectedZeroIsZeroWeightedIds | tracking_pies.py:60-69 | the selected tracks are exactly the intended zero-weighted ones, all found by the sweep |
| TrackingPies.InsertKeyframe | tracking_pies.py:72-92 | keys every track until the first short list |
| TrackingPies.WeightFadeOperator | tracking_pies.py:130-134 | keys the visible selected tracks after deleting their old keys |
| TrackingPies.SelectZeroWeightedOperator | tracking_pies.py:111-114 | the operator selects exactly the zero-weighted tracks |
| SetupTrackingScene.HasDistortion | setup_tracking_scene_new.py:49-57 | true iff a polynomial model has a non-zero k1..k3 or a division model a non-zero k1..k2 |
| SetupTrackingScene.HasSolverFor | setup_tracking_scene_new.py:91-96 | the constraint loop finds a camera solver for the clip iff one exists |
| SetupTrackingScene.CameraForClipFrom | setup_tracking_scene_new.py:85-98 | the first camera object solving for the clip, else the scene camera |
| SetupTrackingScene.SceneObjects.CameraForClip | setup_tracking_scene_new.py:85-98 | the camera returned is an object of the scene |
| SetupTrackingScene.SceneObjects.FindOrCreateCamera | setup_tracking_scene_new.py:101-120 | the scene camera is returned, or a new camera object is appended and made the scene camera |
| SetupTrackingScene.FindOrCreateTwice | setup_tracking_scene_new.py:101-120 | a second call returns the same camera; the two calls add at most one object |
| SetupTrackingScene.InCollection | setup_tracking_scene_new.py:288-296 | the recursive search finds an id iff it is in the subtree |
| SetupTrackingScene.InChildren | setup_tracking_scene_new.py:288-296 | the search over children finds an id iff one of them holds it |
| SetupTrackingScene.CreateCollection | setup_tracking_scene_new.py:287-308 | a missing or library-only collection is always created anew and appended below the master; an existing local one is appended only when not already below it, and otherwise nothing changes |
| SetupTrackingScene.ChildIdsAppend | setup_tracking_scene_new.py:304-308 | linking a child adds exactly its subtree |
| SetupTrackingScene.CreateCollectionTwice | setup_tracking_scene_new.py:287-308 | creating the same collection twice is creating it once |
| SetupTrackingScene.FindNode | setup_tracking_scene_new.py:342-347 | the first node whose `type` equals the string, or None when there is none |
| SetupTrackingScene.IdNameIsNoTypeName | setup_tracking_scene_new.py:406-407 | a creation identifier such as CompositorNodeRLayers is never a node's `type` |
| SetupTrackingScene.FindByIdNameFails | setup_tracking_scene_new.py:350-352 | looking a node up by its creation identifier finds nothing, whatever the tree holds |
| SetupTrackingScene.FindOrCreateDuplicates | setup_tracking_scene_new.py:403-407 | for a tree of render-layers, composite and viewer nodes the lookup by `type` finds the render-layers node but the lookup as called finds none |
| SetupTrackingScene.NeedSetupNodes | setup_tracking_scene_new.py:359-371 | true iff there is no tree or no movie-clip or distortion node |
| SetupTrackingScene.NodeTree.WipeDefaultNodes | setup_tracking_scene_new.py:331-339 | a tree of just the two default nodes is emptied; any other is unchanged |
| SetupTrackingScene.NodeTree.FindOrCreateNode | setup_tracking_scene_new.py:350-356 | as called from _setupNodes: a new node of the kind is always appended at the origin and its index returned |
| SetupTrackingScene.NodeTree.FindOrCreateNodeIntended | setup_tracking_scene_new.py:350-356 | as intended: returns the first node of the kind's `type` and leaves the tree unchanged, or appends one when there is none |
| SetupTrackingScene.FindNodeAppend | setup_tracking_scene_new.py:342-347 | a node appended to a tree with no node of its `type` is the one the lookup by that `type` finds |
| SetupTrackingScene.NodeTree.OffsetNodes | setup_tracking_scene_new.py:374-378 | the nested loops over live locations compute OffsetFrom |
| SetupTrackingScene.OffsetRow | setup_tracking_scene_new.py:376-378 | a row keeps the number of nodes |
| SetupTrackingScene.OffsetFrom | setup_tracking_scene_new.py:374-378 | the offset keeps the number of nodes |
| SetupTrackingScene.OffsetRowMoves | setup_tracking_scene_new.py:376-378 | in a row each later node stays or moves by one (40, 20) step |
| SetupTrackingScene.OffsetFromMoves | setup_tracking_scene_new.py:374-378 | each node moves by k·(40, 20) with k bounded by the node count |
| SetupTrackingScene.OffsetRowNoMatch | setup_tracking_scene_new.py:376-378 | a row with no node at the same location changes nothing |
| SetupTrackingScene.OffsetNodesCanCollide | setup_tracking_scene_new.py:374-378 | four concrete nodes end with two at the same location |
| SetupTrackingScene.PlaneVertices | setup_tracking_scene_new.py:504-509 | four corners at ±half_size on the given height |
| SetupTrackingScene.PlaneCounterClockwise | setup_tracking_scene_new.py:504-509 | the corner order has signed area 8h², positive for h ≠ 0 |
| SetupTrackingScene.LoopStarts | setup_tracking_scene_new.py:487-493 | loops exist iff the index count is a multiple of 4, starting at 4k |
| SetupTrackingScene.SampleMeshesWellFormed | setup_tracking_scene_new.py:504-549 | ground and cube meshes have quads with in-range indices; the cube uses all 8 corners |
| PyStr.NatDigits | render_tweaker.py:108-110 | str(n) is digits without a leading zero |
| PyStr.NatDigitsValue | render_tweaker.py:108-110 | str(n) spells n |
| PyStr.NatDigitsInjective | render_tweaker.py:108-110 | different slots have different spellings |
| PyStr.ZFill | vrais_tools.py:104 | zfill pads to the width and leaves longer strings unchanged |
| PyStr.ZFillDigits | vrais_tools.py:104 | zfill of digits gives digits, at least the width long, spelling the same number |
| PyStr.ZFillNegative | vrais_tools.py:104 | zfill keeps a minus sign first and pads the digits after it to one less than the width |
| PyStr.Zeros | vrais_tools.py:104 | the zero padding has the requested length and holds only '0' |
| PyStr.LeadingZerosValue | vrais_tools.py:104 | leading zeros do not change the value |
| PyStr.ZerosValue | vrais_tools.py:104 | a string of zeros spells 0 |
| VraisTools.PathJoin | vrais_tools.py:64 | os.path.join: an absolute second part wins, else the parts are joined with at most one added separator |
| VraisTools.PathJoinEndsWith | vrais_tools.py:64 | a joined path ends with its second part |
| VraisTools.CubemapPath | vrais_tools.py:61-65 | the path ends with ".jpg" and is dir/filename.jpg in the normal case |
| VraisTools.JoinedJpg | vrais_tools.py:63-66 | the cubemap path ends with ".jpg" and is dir + "/" + filename.jpg when dir has no trailing separator and the file name is relative |
| VraisTools.FrameTagSpellsFrame | vrais_tools.py:104 | the tag has at least 4 characters and spells the frame, with a sign when negative |
| VraisTools.FrameTagOfNat | vrais_tools.py:104 | for a frame of 0 or more the tag is at least four digits spelling the frame |
| VraisTools.FrameTagOfNegative | vrais_tools.py:104 | for a negative frame the tag is a minus sign, then digits spelling its magnitude |
| VraisTools.SignedTag | vrais_tools.py:104 | zfill(4) of a minus sign and digits keeps the sign first, then digits spelling the same number |
| VraisTools.Lower | vrais_tools.py:105 | str.lower on ASCII capitals |
| VraisTools.TileSuffix | vrais_tools.py:105-107 | the suffix is the lowered format, "jpg" for "jpeg" |
| VraisTools.TileNames | vrais_tools.py:110-123 | there are 12 tile names |
| VraisTools.TileNamesDistinct | vrais_tools.py:110-123 | the 12 tile names are distinct |
| VraisTools.ImgDict | vrais_tools.py:110-123 | tile k maps to k + 1 |
| VraisTools.ImgDictOnto | vrais_tools.py:110-123 | every value is in 1..12 and belongs to the tile at that position |
| VraisTools.ImgNodeCreator | vrais_tools.py:102-140 | 12 nodes at y = -300·index; pathcheck iff every tile loads; loaded nodes carry their index |
| VraisTools.PlaceImageNodes | vrais_tools.py:126-138 | each entry gets a node 300 units lower per index, named by its index exactly when its image loads; all load iff the count is the number of entries |
| VraisTools.Connector | vrais_tools.py:144-178 | 12 x offsets, uniformly spaced, symmetric about 0 |
| VraisTools.RenderSettings.SetupStrip | vrais_tools.py:89-93 | the strip is 12 tiles wide, keeps the percentage, writes JPEG to the cubemap path |
| VraisTools.Upload | vrais_tools.py:330-375 | cancelled for the first failing check in order (stereo, description, title, key), else uploads the mode's path as resolved by bpy.path.abspath (a parameter) |
| VraisTools.IsCubemapHeader | vrais_tools.py:188-191 | the header is "1" iff the mode is cube |
| RenderTweaker.PropList | render_tweaker.py:49-94 | the list has 42 entries |
| RenderTweaker.SlotKey | render_tweaker.py:106-110 | "8" for slot 8; otherwise the active slot's index, and no key (KeyError) while there is no 'Render Result' image |
| RenderTweaker.SlotKeysDistinct | render_tweaker.py:107-110 | two active slots never share a key |
| RenderTweaker.SnapshotOfMeaning | render_tweaker.py:114-115 | a snapshot holds exactly the listed names, each with its current value |
| RenderTweaker.SavedTable | render_tweaker.py:97-117 | the key's entry becomes the snapshot; an absent or empty table is created; other keys untouched |
| RenderTweaker.Created | render_tweaker.py:102-105 | the table is created when absent or empty, with no entry added or changed |
| RenderTweaker.SaveLoadRoundTrip | render_tweaker.py:114-134 | loading a saved entry restores every listed property and leaves the rest |
| RenderTweaker.Tweaker.SaveSettings | render_tweaker.py:97-117 | raises exactly when there is no key; the table is created either way, and the snapshot is stored under the key when there is one |
| RenderTweaker.SnapshotLoop | render_tweaker.py:112-115 | the property loop builds the snapshot: exactly the listed names, each with the scene's value |
| RenderTweaker.Tweaker.LoadSettings | render_tweaker.py:120-138 | false with nothing set when there is no key (no 'Render Result' for a render slot), no table or no entry; otherwise every stored property is set |
| RenderTweaker.Tweaker.SlotHandler | render_tweaker.py:141-143 | saves only while recording, raising as the save does |
| RenderTweaker.Tweaker.EnableSlotRecording | render_tweaker.py:196-203 | toggles recording; only switching it on saves, and before any render that save raises with the flag already set and nothing stored |
| RenderTweaker.Tweaker.Restore | render_tweaker.py:164-167 | loads slot 0 or 8, reporting an error exactly when the load fails, including slot 0 without a 'Render Result' image; the table, the recording flag and the active slot are unchanged |
| MaskingPies.SelectedOfMeaning | masking_pies.py:44-46 | exactly the selected points of a spline |
| MaskingPies.SplinesSelectedMeaning | masking_pies.py:43-46 | exactly the selected points of the splines |
| MaskingPies.MaskSelectedMeaning | masking_pies.py:41-46 | exactly the selected points on layers neither hidden nor locked |
| MaskingPies.SelectedMaskPoints | masking_pies.py:37-49 | the three loops collect the specified points in order |
| MaskingPies.AppendSplinesSelected | masking_pies.py:43-46 | appends the selected points of every spline, spline by spline, in order |
| MaskingPies.AppendSelected | masking_pies.py:44-46 | appends exactly the selected points, in order |
| MaskingPies.IsolateLayer | masking_pies.py:175-181 | the active layer is the only one selectable |
| MaskingPies.NewMaskLayer | masking_pies.py:78-83 | every old layer gets hide_select, and a new layer is appended and made active |
| MaskingPies.NewLayerIsolates | masking_pies.py:78-83 | after a new layer no point is selected |
| MaskingPies.SetBlend | masking_pies.py:103-119 | only the active layer's blend changes |
| MaskingPies.SetToAdd | masking_pies.py:103-107 | the active layer's blend becomes MERGE_ADD |
| MaskingPies.SetToSubtract | masking_pies.py:115-119 | the active layer's blend becomes MERGE_SUBTRACT |
| MaskingPies.ToggledDrawType | masking_pies.py:130-133 | OUTLINE goes to WHITE, everything else to OUTLINE |
| MaskingPies.ToggleDrawTypeTwice | masking_pies.py:130-133 | two toggles return OUTLINE to OUTLINE and send others to WHITE |
| MaskingPies.ToggleDrawtype | masking_pies.py:127-134 | toggles the draw type and turns smoothing on |
| MaskingPies.FramesThrough | masking_pies.py:160 | the frames lo..hi in order, and a frame is listed exactly when it lies in that range |
| MaskingPies.ClearedFramesAsWritten | masking_pies.py:160-163 | as written: current+1..end, then start up to three before the re-read frame_current (the end frame whenever the first loop ran) |
| MaskingPies.ClearAsWrittenClearsAll | masking_pies.py:160-165 | as written, a current frame at least three before the end is cleared with every other frame of the range |
| MaskingPies.ClearAsWrittenNearEnd | masking_pies.py:160-165 | when the current frame is at or past the end, the code as written clears exactly the intended frames |
| MaskingPies.ClearedFrames | masking_pies.py:159-163 | as intended: current+1..end and start..current-3 |
| MaskingPies.ClearKeepsCurrentFrames | masking_pies.py:159-163 | as intended, current-2..current are never cleared |
| MaskingPies.ClearThrough | masking_pies.py:160-162 | one loop: the frames lo..hi are visited in order, the active layer loses its keys there and the scene ends on hi |
| MaskingPies.ClearKeyframes | masking_pies.py:156-167 | the operator as written: it visits ClearedFramesAsWritten, the active layer loses its keys there, and frame_current is restored |
| MaskingPies.ClearKeyframesIntended | masking_pies.py:156-167 | the operator as intended: it visits ClearedFrames, the active layer loses its keys there, and frame_current is restored |
| MaskingPies.ShapeKeyClear | masking_pies.py:161-165 | shape_key_clear removes the key on the frame from the active layer only |
| MaskingPies.ToggledVisibility | masking_pies.py:249-259 | all tracks shown when any was hidden, else all hidden |
| MaskingPies.ToggleVisibilityTwice | masking_pies.py:249-259 | afterwards all share one value, and a second toggle flips it |
| MaskingPies.ToggleMarkerVisibility | masking_pies.py:248-260 | the loops compute the toggle |
| MaskingPies.FindTrack | masking_pies.py:229 | tracks[name]: the first track of that name, or None |
| MaskingPies.ParentNames | masking_pies.py:224-227 | the set of non-empty parent names of the selected points |
| MaskingPies.ToggledParents | masking_pies.py:228-233 | exactly the named tracks flip their hide flag |
| MaskingPies.ParentMarkerVisibility | masking_pies.py:223-234 | succeeds iff every parent exists, toggling each once; else a subset was toggled |
| MaskingPies.ParentsOf | masking_pies.py:224-227 | the set of the non-empty parent names of the points |
| MaskingPies.ToggleOneMore | masking_pies.py:228-233 | toggling the track of one more name flips that track only, on top of those already toggled |
| MaskingPies.SameNames | masking_pies.py:228-233 | toggling keeps every name lookup |
| MaskingPies.FindTrackByNames | masking_pies.py:229 | two track lists with the same names resolve every name alike |
| ViewportPies.WiresToggled | viewport_pies.py:29-45 | affected objects get both wire flags set to whether none was wired; others unchanged |
| ViewportPies.DrawTypeToggled | viewport_pies.py:64-78 | affected objects become TEXTURED if any was WIRE, else WIRE; others unchanged |
| ViewportPies.WiresToggleTwice | viewport_pies.py:39-45 | afterwards all affected share one value; a second call flips it; all-off returns to all-off |
| ViewportPies.DrawTypeToggleTwice | viewport_pies.py:71-78 | with no WIRE object, two calls leave affected objects TEXTURED |
| ViewportPies.View.AffectedObjects | viewport_pies.py:31-35 | exactly the selected meshes and curves, in order |
| ViewportPies.View.ShowAllWires | viewport_pies.py:29-45 | the loops compute WiresToggled |
| ViewportPies.CountWired | viewport_pies.py:36-38 | the count is at least one exactly when some listed object shows its wireframe |
| ViewportPies.SetWires | viewport_pies.py:39-45 | exactly the listed objects get both wire flags set to the given value |
| ViewportPies.View.DrawOnlyWire | viewport_pies.py:64-78 | the loops compute DrawTypeToggled |
| ViewportPies.CountWireDrawn | viewport_pies.py:71-73 | the count is at least one exactly when some listed object is drawn as wire |
| ViewportPies.SetDrawType | viewport_pies.py:74-78 | exactly the listed objects get the given draw type |
| SnappingPies.TogglePivot | snapping_pies.py:29-35 | CURSOR and INDIVIDUAL_ORIGINS go to MEDIAN_POINT, others to CURSOR; never INDIVIDUAL_ORIGINS |
| SnappingPies.TogglePivotCycles | snapping_pies.py:29-35 | after one toggle, the pivot alternates between CURSOR and MEDIAN_POINT |
| SnappingPies.View3D.TogglePivotOperator | snapping_pies.py:28-36 | the pivot becomes TogglePivot of the old one |
| SnappingPies.View3D.SetPivotIndividual | snapping_pies.py:169-171 | the pivot becomes INDIVIDUAL_ORIGINS |
| SnappingPies.Scene3D.DeselectAll | snapping_pies.py:58 | every object is deselected, nothing else changes |
| SnappingPies.Scene3D.ObjectToMarker | snapping_pies.py:53-70 | the active object moves to the camera and is the only one selected, cursor restored; without camera or active object it stops with every object deselected, no active object, and the cursor restored or left on the camera |
| SnappingPies.Scene3D.OriginToSelected | snapping_pies.py:120-126 | every selected object's origin goes to the selection centre and the others are unchanged; the editor is left in object mode and the cursor is restored |
| EnableGpus.Contains | enable_gpus.py:33 | Python's `in` on strings: true iff the filter occurs at some position |
| EnableGpus.ContainsTrivial | enable_gpus.py:33 | the empty string and the name itself occur in every name |
| EnableGpus.UsedNames | enable_gpus.py:40 | names of the used devices, and only those |
| EnableGpus.UsedNamesAppend | enable_gpus.py:40 | the names keep device order |
| EnableGpus.Configured | enable_gpus.py:29-37 | a CPU is used iff use_cpus; another device iff no filter or the filter occurs in its name |
| EnableGpus.NoFilterUsesAll | enable_gpus.py:29-40 | with no filter and CPUs on, every name is returned, in order |
| EnableGpus.AllUsedNames | enable_gpus.py:40 | when all devices are used, all names are returned in order |
| EnableGpus.CyclesSetup.Enable | enable_gpus.py:11-42 | sets the GPU device and compute type, configures every device, and returns the used names |
| EnableGpus.SelectDevices | enable_gpus.py:29-37 | each device ends in use exactly when selected (a CPU when CPUs are wanted, another device when the filter is empty or in its name); names and kinds unchanged |
| NlaPlayer.TargetFrame | nla_player.py:12-15 | 5000 with force_reset, else frame_current |
| NlaPlayer.CurveRetimed | nla_player.py:25-26 | every keyframe moves to the frame and keeps its value |
| NlaPlayer.Retimed | nla_player.py:24-26 | every f-curve of the action is retimed |
| NlaPlayer.RetimedIdempotent | nla_player.py:24-26 | retiming twice to one frame is retiming once |
| NlaPlayer.RetimedLastWins | nla_player.py:24-26 | retiming to t then u is retiming to u |
| NlaPlayer.AnimRetimedIdempotent | nla_player.py:20-26 | retiming animation data twice is retiming it once |
| NlaPlayer.RetimeAction | nla_player.py:24-26 | the nested loops compute Retimed |
| NlaPlayer.AnimRetimed | nla_player.py:20-23 | animation data keeps its shape; an action, when present, is retimed |
| NlaPlayer.ObjectRetimed | nla_player.py:17-26 | objects with pass index 10 are unchanged; others have their action retimed |
| NlaPlayer.LightRetimed | nla_player.py:29-36 | a light's action is retimed |
| NlaPlayer.ShapeRetimed | nla_player.py:43-50 | shape keys' action is retimed |
| NlaPlayer.MaterialRetimed | nla_player.py:58-69 | a node-using material's tree action is retimed; others unchanged |
| NlaPlayer.MaterialsRetimed | nla_player.py:53-69 | only mesh objects' materials change, whatever the pass index |
| NlaPlayer.ObjectStartedIdempotent | nla_player.py:17-69 | running twice with one frame leaves an object as one run did |
| NlaPlayer.ShapeRetimedIdempotent | nla_player.py:43-50 | retiming shape keys twice is retiming once |
| NlaPlayer.RetimeSlots | nla_player.py:58-69 | the slot loop retimes every slot as specified |
| NlaPlayer.BlendData.RetimeObjects | nla_player.py:17-26 | the object loop computes ObjectRetimed on every object |
| NlaPlayer.BlendData.RetimeLights | nla_player.py:29-36 | the light loop computes LightRetimed on every light |
| NlaPlayer.BlendData.RetimeShapeKeys | nla_player.py:38-50 | meshes then curves are retimed; it stops (error) at the first shape keys with animation data but no action |
| NlaPlayer.BlendData.RetimeMaterials | nla_player.py:53-69 | the material loop computes MaterialsRetimed on every object |
| NlaPlayer.BlendData.ActionStarter | nla_player.py:11-71 | all four loops run with the target frame and every list keeps its length; when the shape-key loop raises, the shape keys are retimed up to the raising owner and the material loop is skipped |

## Left out

- User interface: menus, pies, panels, headers, UI lists, keymaps and registration.
- Host operator calls with no visible semantics:
  - the compositor node creation and linking of `_setupNodes`;
  - `_setupCollections`, `_createLight`, `_setupObjects` and the tracking-object operator;
  - mesh reconstruction (movieclip_3d_reconstruction.py);
- Dictionary order: the model fixes one iteration order (ascending track index) for the dictionaries keyed by tracks; the hash order of Python 3.5 is not modelled. The results that depend on it:
- Tracking.KeyingStop: which track keying stops at, and so which tracks are keyed before an IndexError, follows the fixed order.
- MarkerWeight.InsertKeyframe: the frame left current is that of the last track in the fixed order.
- TrackingTools.InsertKeyframe: the tracks keyed before an IndexError follow the fixed order.
- TrackingPies.InsertKeyframe: the tracks keyed before an IndexError follow the fixed order.
- FilterForeground.FilterTrackEnds: the tracks already deselected when a decision raises follow the fixed order.
- FilterForeground.FilterTrackEndsOperator: the same, through FilterTrackEnds.
- `clean_tracks`: it deletes short track segments before both filters run (filter_foreground.py:189, tracking_tools.py:268); the filter operators here start from the tracks as already cleaned.
  - `origin_to_marker` and `origin_to_geometry`.
- cable_wizard.py, because it is random and floating-point geometry. vr_recorder.py, because it is handler-driven playback.
- Network and file I/O in vrais_tools.py: the HTTP upload, image loading and the add-on check.
  - Image loading is a set of present paths given as a parameter.
  - The setup_cubemap, setup_vr_panorama and create_cubemap operators are left out. Node linking in `connector` is left out too; only the x offsets are modelled.
- Floating point: real arithmetic stands in for Python floats and Blender's single-precision floats.
- Weight animation is evaluated without interpolation. A key on the frame gives its value; otherwise the stored weight applies.
- Blender's `keyframe_delete` raising on a missing key is not modelled.
- RenderTweaker.PropList: states only the length (42 names, all distinct in the source). That a saved entry has exactly 42 names is not proved; the pairwise distinctness of the 42 literals is too costly for the solver.
- VraisTools.Lower: ASCII capitals only; `str.lower` on other Unicode letters is not modelled.
- VraisTools.TileSuffix: the tile suffix is not related back to the output's format name beyond "jpeg" → "jpg".
- SetupTrackingScene.SampleMeshesWellFormed: does not state that each cube corner is used by exactly three faces.
- MaskingPies.SelectedMaskPoints: the mask is present. A missing active mask (`None.layers`) is not modelled.
- MaskingPies.NewMaskLayer: the new layer's host defaults are a fixed value.
- MaskingPies.ParentMarkerVisibility: Python set iteration order is left open. On a missing parent, the result says only that some subset of the names was toggled.
- SnappingPies.Scene3D.OriginToSelected: the centre of the selected vertices is a parameter (computed by the host).
- NlaPlayer: shared data (one mesh or material used by several objects) is not modelled; every object holds its own materials. Retiming is idempotent, so a repeated visit changes nothing.
- EnableGpus.CyclesSetup.Enable: `get_devices_for_type` is the host's device list, given as the field `devices`.
- SetupTrackingScene.CreateCollection: the host's lookup of an existing collection by name is a parameter.

## Findings

| source | as written | input that shows it | evidently intended | confidence | as-written member | corrected member |
|---|---|---|---|---|---|---|
| tracking_tools.py:128-134 | each loop step (the same in filter_foreground.py:90-96) overwrites the accumulator with slope(g) and then doubles it, so the result is 2·slope(f-1)/e | a track with x positions 0, 0, 0, 1 on frames 0..3, window [2, 4): slopes 0 and 1 | the mean of the window's slopes (1/2 here, not 1) | not executed | Tracking.AverageSlopeIsNotTheMean | Tracking.WindowMeanOfConstant |
| tracking_tools.py:170-181 | `list.remove` inside `for t in list` skips the element after each removal, so a track can survive a frame where its weight is positive | two tracks of weight 1 over one frame: the first is removed, the second is skipped and returned | exactly the tracks weighted zero on every frame | not executed | TrackingTools.SweepSkipsAfterRemoval | TrackingTools.ZeroWeightedIds |
| filter_foreground.py:71-87 | `return` sits inside the loop, so only the first usable track is returned | three identical tracks with markers on frames 0 and 1, frame 1, own index 0: returns [1] | all usable other tracks ([1, 2]) | not executed | FilterForeground.RelevantTracksStopsEarly | FilterForeground.AllRelevant |
| masking_pies.py:163 | the second range is evaluated after the first loop has moved frame_current to the end frame, so its bound is end-2, not current-2 | frame_start 1, frame_end 100, current frame 50: frames 51..100 and then 1..97 are cleared, frame 50 included | clear everything except current-2..current, as the comment on line 159 says (1..47 and 51..100 here) | not executed | MaskingPies.ClearAsWrittenClearsAll | MaskingPies.ClearKeepsCurrentFrames |
| setup_tracking_scene_new.py:406-407 | _findOrCreateNode is called with the creation identifiers 'CompositorNodeRLayers' and 'CompositorNodeComposite', but _findNode compares them with node.type ('R_LAYERS', 'COMPOSITE'), so the lookup never succeeds | a compositor tree holding render-layers, composite and viewer nodes (not the default pair, so not wiped): a second render-layers and a second composite node are added | reuse the existing node of that type, as the name _findOrCreateNode says | not executed | SetupTrackingScene.FindOrCreateDuplicates | SetupTrackingScene.NodeTree.FindOrCreateNodeIntended |
