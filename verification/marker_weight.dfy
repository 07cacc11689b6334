/** marker_weight.py: the stand-alone weight-fade add-on. Its marker lists ask
    for more than 20 tracked frames, an optional selection filter replaces the
    visibility test, and its keying loop leaves the scene on the last frame it
    assigned. */
module MarkerWeight {
  import opened Wrappers
  import opened Tracking

  /** The minimum length of a marker list is more than this many frames. */
  const MinListLength: nat := 20

  /** The track test of get_marker_list: with `selection` on, only selected
      tracks; hidden tracks are not excluded. */
  function SelectionTest(selection: bool): Track -> bool
  {
    (t: Track) => !selection || t.select
  }

  /** get_marker_list(context, selection): every track that passes the
      selection test and has more than 20 tracked frames in [frameStart,
      frameEnd), with the increasing list of exactly those frames. */
  method GetMarkerList(scene: Scene, clip: Clip, selection: bool) returns (dict: map<nat, seq<int>>)
    ensures dict == MarkerMap(clip.tracks, SelectionTest(selection), scene.frameStart, scene.frameEnd, MinListLength)
    ensures forall i :: i in dict <==>
      0 <= i < |clip.tracks| && (!selection || clip.tracks[i].select) &&
      |Frames(clip.tracks[i], TrackedFrame, scene.frameStart, scene.frameEnd)| > MinListLength
    ensures forall i :: i in dict ==>
      |dict[i]| > MinListLength && Increasing(dict[i]) &&
      forall f :: f in dict[i] <==> scene.frameStart <= f < scene.frameEnd && Tracked(clip.tracks[i], f)
  {
    dict := CollectMarkerLists(clip.tracks, SelectionTest(selection), scene.frameStart, scene.frameEnd, MinListLength);
    MarkerMapMeaning(clip.tracks, SelectionTest(selection), scene.frameStart, scene.frameEnd, MinListLength);
  }

  /** The four keyed frames of one list: f1 = list[0], f2 = f1 + T,
      f3 = list[-2] - T and f4 = list[-2]. */
  function FadeFrames(frames: seq<int>, fadeTime: nat): (r: (int, int, int, int))
    requires |frames| >= 2
    ensures r.0 == frames[0] && r.3 == frames[|frames| - 2]
    ensures r.0 <= r.1 && r.2 <= r.3 && r.1 - r.0 == fadeTime && r.3 - r.2 == fadeTime
  {
    (frames[0], frames[0] + fadeTime, frames[|frames| - 2] - fadeTime, frames[|frames| - 2])
  }

  /** The keys of one keyed track sit on the four fade frames: the start keys
      exactly when f1 - frameStart > T, the end keys exactly when
      frameEnd - f4 + 1 > T, and no other key is added. */
  lemma FadeKeysOnFadeFrames(t: Track, frames: seq<int>, fs: int, fe: int, fadeTime: nat)
    requires |frames| >= 2
    ensures var r := FadeTrack(t, frames, fs, fe, fadeTime);
      var (f1, f2, f3, f4) := FadeFrames(frames, fadeTime);
      (f1 - fs > fadeTime ==> f1 in r.weightKeys && f2 in r.weightKeys) &&
      (fe - f4 + 1 > fadeTime ==> f3 in r.weightKeys && r.weightKeys[f4] == 0.0) &&
      (forall g :: g in r.weightKeys && g !in t.weightKeys ==>
        ((g == f1 || g == f2) && f1 - fs > fadeTime) || ((g == f3 || g == f4) && fe - f4 + 1 > fadeTime))
  {
  }

  /** The scene frame after insert_keyframe: the last frame it assigned, or the
      frame it started on when it assigned none. */
  function FrameAfterKeying(dict: map<nat, seq<int>>, fs: int, fe: int, fadeTime: nat, n: nat, current: int): int
  {
    match LastFadeFrameBelow(dict, fs, fe, fadeTime, KeyingStop(dict, n))
    case None => current
    case Some(f) => f
  }

  /** insert_keyframe(context, fade_time, marker_dict): the shared keying loop;
      the frame cursor is moved to f1, f2 and f4 as the keys are inserted and is
      not restored. It reports whether it ran to the end (False: IndexError on a
      list of fewer than two frames). */
  method InsertKeyframe(scene: Scene, clip: Clip, fadeTime: nat, dict: map<nat, seq<int>>) returns (ok: bool)
    requires forall i :: i in dict ==> i < |clip.tracks|
    modifies scene, clip
    ensures ok == FirstShortList(dict, 0, |old(clip.tracks)|).None?
    ensures clip.tracks == FadeTracksBelow(old(clip.tracks), dict, old(scene.frameStart), old(scene.frameEnd), fadeTime,
      KeyingStop(dict, |old(clip.tracks)|))
    ensures scene.frameCurrent ==
      FrameAfterKeying(dict, old(scene.frameStart), old(scene.frameEnd), fadeTime, |old(clip.tracks)|, old(scene.frameCurrent))
    ensures scene.frameStart == old(scene.frameStart) && scene.frameEnd == old(scene.frameEnd)
  {
    var lastFrame;
    ok, lastFrame := InsertWeightKeys(clip, scene.frameStart, scene.frameEnd, fadeTime, dict);
    if lastFrame.Some? {
      scene.frameCurrent := lastFrame.value;
    }
  }


  /** CLIP_OT_WeightFade.execute: get_marker_list with the selection filter on,
      then insert_keyframe, which then always completes and keys every listed
      track. */
  method WeightFadeOperator(scene: Scene, clip: Clip, fadeTime: nat)
    modifies scene, clip
    ensures var dict := MarkerMap(old(clip.tracks), SelectionTest(true), old(scene.frameStart), old(scene.frameEnd),
      MinListLength);
      clip.tracks == FadeTracksBelow(old(clip.tracks), dict, old(scene.frameStart), old(scene.frameEnd), fadeTime,
        |old(clip.tracks)|) &&
      scene.frameCurrent ==
        FrameAfterKeying(dict, old(scene.frameStart), old(scene.frameEnd), fadeTime, |old(clip.tracks)|, old(scene.frameCurrent))
  {
    var dict := GetMarkerList(scene, clip, true);
    NoShortList(dict, 0, |clip.tracks|);
    var ok := InsertKeyframe(scene, clip, fadeTime, dict);
  }
}
