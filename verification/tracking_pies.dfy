/** tracking_pies.py: the pie-menu revision of the weight fade and of the
    zero-weight selection. Its get_marker_list deletes the weight keys of every
    visible selected track while it collects the marker frames, and its
    select_zero_weighted_tracks deselects instead of removing from a list. */
module TrackingPies {
  import opened Wrappers
  import opened Tracking
  import opened TrackingTools

  /** A list must hold more than this many frames to be keyed. */
  const MinListLength: nat := 20

  /** The weight keys without those on the frames of [lo, hi). */
  function KeysDeleted(keys: map<int, real>, lo: int, hi: int): (r: map<int, real>)
    ensures forall g :: g in r <==> g in keys && !(lo <= g < hi)
    ensures forall g :: g in r ==> r[g] == keys[g]
  {
    map g | g in keys && !(lo <= g < hi) :: keys[g]
  }

  /** The tracks after get_marker_list: every selected track that is not hidden
      has lost its weight keys on [frameStart, frameEnd), whether or not it
      makes it into the dictionary. */
  function DeletedKeys(tracks: seq<Track>, fs: int, fe: int): (r: seq<Track>)
    ensures |r| == |tracks|
    ensures forall j :: 0 <= j < |tracks| ==>
      r[j] == if VisibleAndSelected(tracks[j]) then tracks[j].(weightKeys := KeysDeleted(tracks[j].weightKeys, fs, fe))
              else tracks[j]
  {
    seq(|tracks|, j requires 0 <= j < |tracks| =>
      if VisibleAndSelected(tracks[j]) then tracks[j].(weightKeys := KeysDeleted(tracks[j].weightKeys, fs, fe))
      else tracks[j])
  }

  /** get_marker_list(scene, tracks): for each visible selected track, deletes
      its weight key on each frame of [frameStart, frameEnd) while collecting
      the tracked frames, and keeps the list when it has more than 20 frames. */
  method GetMarkerList(scene: Scene, clip: Clip) returns (dict: map<nat, seq<int>>)
    modifies clip
    ensures dict == MarkerMap(old(clip.tracks), VisibleAndSelected, scene.frameStart, scene.frameEnd, MinListLength)
    ensures clip.tracks == DeletedKeys(old(clip.tracks), scene.frameStart, scene.frameEnd)
  {
    var fs, fe := scene.frameStart, scene.frameEnd;
    var tracks := clip.tracks;
    // The updated tracks are gathered in cur and written back to the clip
    // after the loop; nothing reads the clip's tracks in between.
    var cur := tracks;
    dict := map[];
    var t := 0;
    while t < |tracks|
      invariant 0 <= t <= |tracks| && |cur| == |tracks|
      invariant dict == MarkerMap(tracks[..t], VisibleAndSelected, fs, fe, MinListLength)
      invariant forall j :: 0 <= j < |tracks| ==>
        cur[j] == if j < t then DeletedKeys(tracks, fs, fe)[j] else tracks[j]
    {
      if tracks[t].select && !tracks[t].hide {
        var track, list := DeleteKeysCollectFrames(cur[t], fs, fe);
        cur := cur[t := track];
        if |list| > MinListLength {
          dict := dict[t := list];
        }
      }
      MarkerMapSnoc(tracks, t, VisibleAndSelected, fs, fe, MinListLength);
      t := t + 1;
    }
    assert tracks[..t] == tracks;
    clip.tracks := cur;
  }

  /** The inner loop of get_marker_list for one track: on each frame of
      [fs, fe) its weight key is deleted and the frame is collected when the
      track is tracked there. */
  method DeleteKeysCollectFrames(t: Track, fs: int, fe: int) returns (track: Track, list: seq<int>)
    ensures track == t.(weightKeys := KeysDeleted(t.weightKeys, fs, fe))
    ensures list == Frames(t, TrackedFrame, fs, fe)
  {
    list := [];
    track := t;
    var f := fs;
    while f < fe
      invariant fs <= f && (f <= fe || f == fs)
      invariant list == Frames(t, TrackedFrame, fs, f)
      invariant track == t.(weightKeys := KeysDeleted(t.weightKeys, fs, f))
    {
      KeysDeletedStep(t.weightKeys, fs, f);
      if f in track.weightKeys {
        track := track.(weightKeys := track.weightKeys - {f});
      }
      assert track.weightKeys == KeysDeleted(t.weightKeys, fs, f + 1);
      if Tracked(track, f) {
        list := list + [f];
      }
      assert list == Frames(t, TrackedFrame, fs, f + 1);
      f := f + 1;
    }
  }

  /** Deleting the key on frame f extends the deleted range by one frame. */
  lemma KeysDeletedStep(keys: map<int, real>, lo: int, f: int)
    requires lo <= f
    ensures KeysDeleted(keys, lo, f + 1) == KeysDeleted(keys, lo, f) - {f}
  {
  }

  /** The tracks after select_zero_weighted_tracks over [fs, f): every track is
      selected exactly when its weight is at most 0 on all of those frames. */
  function SelectedZero(tracks: seq<Track>, fs: int, f: int): (r: seq<Track>)
    ensures |r| == |tracks|
    ensures forall j :: 0 <= j < |tracks| ==> r[j] == tracks[j].(select := ZeroWeighted(tracks[j], fs, f))
  {
    seq(|tracks|, j requires 0 <= j < |tracks| => tracks[j].(select := ZeroWeighted(tracks[j], fs, f)))
  }

  /** select_zero_weighted_tracks(scene, tracks): selects every track, then on
      each frame of [frameStart, frameEnd) deselects the tracks of positive
      weight there, and puts the frame cursor back. */
  method SelectZeroWeightedTracks(scene: Scene, clip: Clip)
    modifies scene, clip
    ensures clip.tracks == SelectedZero(old(clip.tracks), old(scene.frameStart), old(scene.frameEnd))
    ensures scene.frameCurrent == old(scene.frameCurrent)
    ensures scene.frameStart == old(scene.frameStart) && scene.frameEnd == old(scene.frameEnd)
  {
    var currentFrame := scene.frameCurrent;
    var fs, fe := scene.frameStart, scene.frameEnd;
    var tracks := clip.tracks;
    var n := |tracks|;
    // The selections are gathered in cur and written back to the clip after
    // the loops; nothing reads the clip's tracks in between.
    var cur := tracks;
    var k := 0;
    while k < n
      invariant 0 <= k <= n && |cur| == n
      invariant forall j :: 0 <= j < n ==> cur[j] == tracks[j].(select := j < k || tracks[j].select)
    {
      cur := cur[k := cur[k].(select := true)];
      k := k + 1;
    }
    assert cur == SelectedZero(tracks, fs, fs);
    var f := fs;
    while f < fe
      invariant scene.frameStart == fs && scene.frameEnd == fe
      invariant fs <= f && (f <= fe || f == fs)
      invariant cur == SelectedZero(tracks, fs, f)
    {
      scene.frameCurrent := f;
      cur := DeselectWeighted(tracks, cur, fs, f);
      f := f + 1;
    }
    clip.tracks := cur;
    scene.frameCurrent := currentFrame;
  }

  /** One frame of select_zero_weighted_tracks: every track of positive weight
      on frame f is deselected. */
  method DeselectWeighted(tracks: seq<Track>, cur: seq<Track>, fs: int, f: int) returns (next: seq<Track>)
    requires cur == SelectedZero(tracks, fs, f) && fs <= f
    ensures next == SelectedZero(tracks, fs, f + 1)
  {
    var n := |cur|;
    next := cur;
    var j := 0;
    while j < n
      invariant 0 <= j <= n && |next| == n
      invariant forall m :: 0 <= m < n ==>
        (next[m] == tracks[m].(select := ZeroWeighted(tracks[m], fs, f) && (m < j ==> WeightAt(tracks[m], f) <= 0.0)))
    {
      if WeightAt(next[j], f) > 0.0 {
        next := next[j := next[j].(select := false)];
      }
      j := j + 1;
    }
    assert forall m :: 0 <= m < n ==>
      (ZeroWeighted(tracks[m], fs, f + 1) <==> ZeroWeighted(tracks[m], fs, f) && WeightAt(tracks[m], f) <= 0.0);
  }

  /** The selection select_zero_weighted_tracks leaves is the corrected
      zero-weight search: a track ends selected exactly when it is in
      ZeroWeightedIds of all tracks, and the as-written search of
      tracking_tools.py reports every such track. */
  lemma SelectedZeroIsZeroWeightedIds(tracks: seq<Track>, fs: int, fe: int)
    ensures forall j :: 0 <= j < |tracks| ==>
      (SelectedZero(tracks, fs, fe)[j].select <==> j in ZeroWeightedIds(tracks, AllIds(|tracks|), fs, fe))
    ensures forall j :: 0 <= j < |tracks| && SelectedZero(tracks, fs, fe)[j].select ==>
      j in SweepFrom(tracks, AllIds(|tracks|), fs, fe)
  {
    var all := AllIds(|tracks|);
    SweepFindsZeroWeighted(tracks, all, fs, fe);
  }

  /** insert_keyframe(scene, fade_time, marker_dict): the shared keying loop,
      with the frame cursor put back at the end. The pie version has no
      separate frame moves, so only the keys and weights change. */
  method InsertKeyframe(scene: Scene, clip: Clip, fadeTime: nat, dict: map<nat, seq<int>>) returns (ok: bool)
    requires forall i :: i in dict ==> i < |clip.tracks|
    modifies clip
    ensures ok == FirstShortList(dict, 0, |old(clip.tracks)|).None?
    ensures clip.tracks == FadeTracksBelow(old(clip.tracks), dict, scene.frameStart, scene.frameEnd, fadeTime,
      KeyingStop(dict, |old(clip.tracks)|))
  {
    var lastFrame;
    ok, lastFrame := InsertWeightKeys(clip, scene.frameStart, scene.frameEnd, fadeTime, dict);
  }

  /** CLIP_OT_weight_fade.execute of the pie menu: get_marker_list (which
      deletes the old keys) and then insert_keyframe, which always completes
      because every list has more than 20 frames. */
  method WeightFadeOperator(scene: Scene, clip: Clip, fadeTime: nat)
    modifies clip
    ensures var dict := MarkerMap(old(clip.tracks), VisibleAndSelected, scene.frameStart, scene.frameEnd, MinListLength);
      clip.tracks == FadeTracksBelow(DeletedKeys(old(clip.tracks), scene.frameStart, scene.frameEnd), dict,
        scene.frameStart, scene.frameEnd, fadeTime, |old(clip.tracks)|)
  {
    var dict := GetMarkerList(scene, clip);
    MarkerMapMeaning(old(clip.tracks), VisibleAndSelected, scene.frameStart, scene.frameEnd, MinListLength);
    NoShortList(dict, 0, |clip.tracks|);
    var ok := InsertKeyframe(scene, clip, fadeTime, dict);
  }


  /** CLIP_OT_select_zero_weighted.execute. */
  method SelectZeroWeightedOperator(scene: Scene, clip: Clip)
    modifies scene, clip
    ensures clip.tracks == SelectedZero(old(clip.tracks), old(scene.frameStart), old(scene.frameEnd))
    ensures scene.frameCurrent == old(scene.frameCurrent)
  {
    SelectZeroWeightedTracks(scene, clip);
  }
}
