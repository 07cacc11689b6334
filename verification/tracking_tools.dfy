/** tracking_tools.py: the end-spike filter, the foreground selection, the
    zero-weight search and the weight fade of the Tracking Tools add-on, and
    the small track-list helpers they use. */
module TrackingTools {
  import opened Wrappers
  import opened Tracking

  predicate VisibleAndSelected(t: Track) { t.select && !t.hide }

  /** visible_selected: the selected tracks that are not hidden, in track order. */
  function VisibleSelected(tracks: seq<Track>): (ids: seq<nat>)
    ensures forall i :: i in ids <==> 0 <= i < |tracks| && tracks[i].select && !tracks[i].hide
    ensures Increasing(ids)
  {
    IdsWhere(tracks, VisibleAndSelected)
  }

  /** The test invisible_selected applies to a track on `frame`: selected, but
      showing no marker there (none on that frame, or a muted one). */
  function InvisibleAt(frame: int): Track -> bool
  {
    (t: Track) => t.select && !Enabled(t, frame)
  }

  /** The tracks invisible_selected returns: with show_disabled on, none;
      otherwise the selected tracks that show no marker on `frame`. */
  function InvisibleIds(tracks: seq<Track>, frame: int, showDisabled: bool): (ids: seq<nat>)
    ensures showDisabled ==> ids == []
    ensures !showDisabled ==>
      forall i :: i in ids <==> 0 <= i < |tracks| && tracks[i].select && !Enabled(tracks[i], frame)
    ensures Increasing(ids)
  {
    if showDisabled then [] else IdsWhere(tracks, InvisibleAt(frame))
  }

  /** invisible_selected, with its loop and its two `continue`s. */
  method InvisibleSelected(tracks: seq<Track>, frame: int, showDisabled: bool) returns (ids: seq<nat>)
    ensures ids == InvisibleIds(tracks, frame, showDisabled)
  {
    ids := [];
    if !showDisabled {
      var k := 0;
      while k < |tracks|
        invariant 0 <= k <= |tracks|
        invariant ids == IdsWhere(tracks[..k], InvisibleAt(frame))
      {
        assert tracks[..k + 1][..k] == tracks[..k];
        if !tracks[k].select {
          k := k + 1;
          continue;
        }
        if Tracked(tracks[k], frame) && !tracks[k].markers[frame].mute {
          k := k + 1;
          continue;
        }
        ids := ids + [k];
        k := k + 1;
      }
      assert tracks[..k] == tracks;
    }
  }

  /** get_marker_list: the visible selected tracks with more than 2 * fadeTime
      tracked frames in [frameStart, frameEnd), each with the increasing list of
      exactly those frames. */
  method GetMarkerList(tracks: seq<Track>, frameStart: int, frameEnd: int, fadeTime: nat)
    returns (dict: map<nat, seq<int>>)
    ensures forall i :: i in dict <==>
      0 <= i < |tracks| && tracks[i].select && !tracks[i].hide &&
      |Frames(tracks[i], TrackedFrame, frameStart, frameEnd)| > 2 * fadeTime
    ensures forall i :: i in dict ==>
      Increasing(dict[i]) && forall f :: f in dict[i] <==> frameStart <= f < frameEnd && Tracked(tracks[i], f)
  {
    dict := CollectMarkerLists(tracks, VisibleAndSelected, frameStart, frameEnd, 2 * fadeTime);
    MarkerMapMeaning(tracks, VisibleAndSelected, frameStart, frameEnd, 2 * fadeTime);
  }

  // ----- find_zero_weighted_tracks, as written -----

  /** `list.remove(x)`: the list without its first element equal to x. */
  function RemoveFirst(s: seq<nat>, x: nat): (r: seq<nat>)
    ensures x in s ==> |r| == |s| - 1
    ensures x !in s ==> r == s
    ensures forall y :: y in r ==> y in s
    ensures forall y :: y in s && y != x ==> y in r
  {
    if s == [] then []
    else if s[0] == x then s[1..]
    else [s[0]] + RemoveFirst(s[1..], x)
  }

  lemma {:induction false} RemoveFirstIncreasing(s: seq<nat>, x: nat)
    requires Increasing(s)
    ensures Increasing(RemoveFirst(s, x))
  {
    if s != [] && s[0] != x {
      RemoveFirstIncreasing(s[1..], x);
      var r := RemoveFirst(s[1..], x);
      forall k | 0 <= k < |r|
        ensures s[0] < r[k]
      {
        assert r[k] in s[1..];
      }
    }
  }

  /** One pass of the inner loop of find_zero_weighted_tracks on frame f, from
      iterator position i. Python's list iterator moves on to position i + 1
      after every element, also after removing the current one, so the element
      that slides into position i is not looked at on this frame. */
  function PassFrom(tracks: seq<Track>, list: seq<nat>, i: nat, f: int): (r: seq<nat>)
    requires forall x :: x in list ==> x < |tracks|
    ensures forall y :: y in r ==> y in list
    decreases |list| - i
  {
    if i >= |list| then list
    else
      assert list[i] in list;
      if WeightAt(tracks[list[i]], f) > 0.0 then PassFrom(tracks, RemoveFirst(list, list[i]), i + 1, f)
      else PassFrom(tracks, list, i + 1, f)
  }

  /** The frame loop of find_zero_weighted_tracks over [f, fe), from the list
      `list`. */
  function SweepFrom(tracks: seq<Track>, list: seq<nat>, f: int, fe: int): (r: seq<nat>)
    requires forall x :: x in list ==> x < |tracks|
    ensures forall y :: y in r ==> y in list
    decreases fe - f
  {
    if f >= fe then list
    else SweepFrom(tracks, PassFrom(tracks, list, 0, f), f + 1, fe)
  }

  lemma {:induction false} PassFromKeeps(tracks: seq<Track>, list: seq<nat>, i: nat, f: int, y: nat)
    requires forall x :: x in list ==> x < |tracks|
    requires y in list && y < |tracks| && WeightAt(tracks[y], f) <= 0.0
    ensures y in PassFrom(tracks, list, i, f)
    decreases |list| - i
  {
    if i < |list| {
      assert list[i] in list;
      if WeightAt(tracks[list[i]], f) > 0.0 {
        PassFromKeeps(tracks, RemoveFirst(list, list[i]), i + 1, f, y);
      } else {
        PassFromKeeps(tracks, list, i + 1, f, y);
      }
    }
  }

  lemma {:induction false} PassFromIncreasing(tracks: seq<Track>, list: seq<nat>, i: nat, f: int)
    requires forall x :: x in list ==> x < |tracks|
    requires Increasing(list)
    ensures Increasing(PassFrom(tracks, list, i, f))
    decreases |list| - i
  {
    if i < |list| {
      assert list[i] in list;
      if WeightAt(tracks[list[i]], f) > 0.0 {
        RemoveFirstIncreasing(list, list[i]);
        PassFromIncreasing(tracks, RemoveFirst(list, list[i]), i + 1, f);
      } else {
        PassFromIncreasing(tracks, list, i + 1, f);
      }
    }
  }

  /** find_zero_weighted_tracks returns a sub-list of its input, in input order
      (an increasing list of track indices stays increasing), and never drops a
      track whose weight is at most 0 on every frame of [f, fe). */
  lemma {:induction false} SweepMeaning(tracks: seq<Track>, list: seq<nat>, f: int, fe: int)
    requires forall x :: x in list ==> x < |tracks|
    ensures Increasing(list) ==> Increasing(SweepFrom(tracks, list, f, fe))
    ensures forall y :: y in list && ZeroWeighted(tracks[y], f, fe) ==> y in SweepFrom(tracks, list, f, fe)
    decreases fe - f
  {
    if f < fe {
      var next := PassFrom(tracks, list, 0, f);
      if Increasing(list) {
        PassFromIncreasing(tracks, list, 0, f);
      }
      forall y | y in list && ZeroWeighted(tracks[y], f, fe)
        ensures y in next && ZeroWeighted(tracks[y], f + 1, fe)
      {
        PassFromKeeps(tracks, list, 0, f, y);
      }
      SweepMeaning(tracks, next, f + 1, fe);
    }
  }

  /** Two tracks of weight 1 over the single frame 0: the first is removed, the
      iterator then skips the second, and the search reports track 1 although
      its weight is positive on every frame. */
  lemma SweepSkipsAfterRemoval()
    ensures var t := Track("t", map[], false, false, 1.0, map[]);
      SweepFrom([t, t], [0, 1], 0, 1) == [1] && !ZeroWeighted(t, 0, 1)
  {
    var t := Track("t", map[], false, false, 1.0, map[]);
    assert RemoveFirst([0, 1], 0) == [1];
    assert PassFrom([t, t], [0, 1], 0, 0) == PassFrom([t, t], [1], 1, 0);
  }

  /** The intended zero-weight search: exactly the listed tracks whose weight
      is at most 0 on every frame of [fs, fe), in list order. */
  function ZeroWeightedIds(tracks: seq<Track>, list: seq<nat>, fs: int, fe: int): (r: seq<nat>)
    requires forall x :: x in list ==> x < |tracks|
    ensures forall y :: y in r <==> y in list && ZeroWeighted(tracks[y], fs, fe)
    ensures Increasing(list) ==> Increasing(r)
    decreases |list|
  {
    if list == [] then []
    else
      assert forall y :: y in list <==> y == list[0] || y in list[1..];
      assert list[0] in list;
      var rest := ZeroWeightedIds(tracks, list[1..], fs, fe);
      if ZeroWeighted(tracks[list[0]], fs, fe) then
        assert Increasing(list) ==> Increasing([list[0]] + rest) by {
          if Increasing(list) {
            assert Increasing(list[1..]);
            assert forall y :: y in list[1..] ==> list[0] < y;
            PrependIncreasing(list[0], rest);
          }
        }
        [list[0]] + rest
      else
        assert Increasing(list) ==> Increasing(list[1..]);
        rest
  }

  /** A value below everything in an increasing list may be put in front. */
  lemma PrependIncreasing(x: nat, rest: seq<nat>)
    requires Increasing(rest) && forall y :: y in rest ==> x < y
    ensures Increasing([x] + rest)
  {
    assert forall k :: 0 <= k < |rest| ==> rest[k] in rest;
  }

  /** The as-written search finds every track the intended one finds. */
  lemma SweepFindsZeroWeighted(tracks: seq<Track>, list: seq<nat>, fs: int, fe: int)
    requires forall x :: x in list ==> x < |tracks|
    ensures forall y :: y in ZeroWeightedIds(tracks, list, fs, fe) ==> y in SweepFrom(tracks, list, fs, fe)
  {
    SweepMeaning(tracks, list, fs, fe);
  }

  /** find_zero_weighted_tracks: copies the list, steps the frame cursor over
      [frameStart, frameEnd), removes while iterating, and restores the cursor. */
  method FindZeroWeightedTracks(scene: Scene, clip: Clip, tracks: seq<nat>) returns (list: seq<nat>)
    requires forall x :: x in tracks ==> x < |clip.tracks|
    modifies scene
    ensures list == SweepFrom(clip.tracks, tracks, old(scene.frameStart), old(scene.frameEnd))
    ensures scene.frameCurrent == old(scene.frameCurrent)
    ensures scene.frameStart == old(scene.frameStart) && scene.frameEnd == old(scene.frameEnd)
  {
    var currentFrame := scene.frameCurrent;
    list := [];
    var k := 0;
    while k < |tracks|
      invariant 0 <= k <= |tracks| && list == tracks[..k]
    {
      list := list + [tracks[k]];
      k := k + 1;
    }
    assert list == tracks;
    var f := scene.frameStart;
    while f < scene.frameEnd
      invariant scene.frameStart == old(scene.frameStart) && scene.frameEnd == old(scene.frameEnd)
      invariant scene.frameStart <= f && (f <= scene.frameEnd || f == scene.frameStart)
      invariant forall x :: x in list ==> x < |clip.tracks|
      invariant SweepFrom(clip.tracks, list, f, scene.frameEnd) ==
        SweepFrom(clip.tracks, tracks, scene.frameStart, scene.frameEnd)
    {
      scene.frameCurrent := f;
      ghost var before := list;
      var i := 0;
      while i < |list|
        invariant 0 <= i
        invariant forall x :: x in list ==> x < |clip.tracks|
        invariant PassFrom(clip.tracks, list, i, f) == PassFrom(clip.tracks, before, 0, f)
        invariant scene.frameCurrent == f
      {
        var t := list[i];
        assert t in list;
        if WeightAt(clip.tracks[t], scene.frameCurrent) > 0.0 {
          list := RemoveFirst(list, t);
        }
        i := i + 1;
      }
      assert PassFrom(clip.tracks, list, i, f) == list;
      f := f + 1;
    }
    scene.frameCurrent := currentFrame;
  }

  // ----- clear_weight_animation -----

  /** The weight keys outside the frames lo..hi (both included). */
  function KeysOutside(keys: map<int, real>, lo: int, hi: int): map<int, real>
  {
    map g | g in keys && !(lo <= g <= hi) :: keys[g]
  }

  /** One listed track after clear_weight_animation: its weight keys on
      frameStart..frameEnd are gone and it takes the weight w unless it was
      found zero-weighted. */
  function ClearOne(t: Track, fs: int, fe: int, zeroWeighted: bool, w: real): Track
  {
    t.(weightKeys := KeysOutside(t.weightKeys, fs, fe), weight := if zeroWeighted then t.weight else w)
  }

  /** The tracks after clear_weight_animation: every listed track is cleared,
      the other tracks are unchanged. */
  function Cleared(tracks: seq<Track>, list: seq<nat>, fs: int, fe: int, zero: seq<nat>, w: real): (r: seq<Track>)
    ensures |r| == |tracks|
  {
    seq(|tracks|, j requires 0 <= j < |tracks| =>
      if j in list then ClearOne(tracks[j], fs, fe, j in zero, w) else tracks[j])
  }

  /** Clearing a track twice is clearing it once. */
  lemma ClearOneIdempotent(t: Track, fs: int, fe: int, zeroWeighted: bool, w: real)
    ensures ClearOne(ClearOne(t, fs, fe, zeroWeighted, w), fs, fe, zeroWeighted, w) == ClearOne(t, fs, fe, zeroWeighted, w)
  {
    var once := ClearOne(t, fs, fe, zeroWeighted, w);
    assert KeysOutside(once.weightKeys, fs, fe) == once.weightKeys;
  }

  /** Clearing one more listed track, whatever the order. */
  lemma ClearedSnoc(tracks: seq<Track>, list: seq<nat>, t: nat, fs: int, fe: int, zero: seq<nat>, w: real)
    requires t < |tracks|
    ensures var before := Cleared(tracks, list, fs, fe, zero, w);
      Cleared(tracks, list + [t], fs, fe, zero, w) == before[t := ClearOne(before[t], fs, fe, t in zero, w)]
  {
    var before := Cleared(tracks, list, fs, fe, zero, w);
    if t in list {
      ClearOneIdempotent(tracks[t], fs, fe, t in zero, w);
    }
  }

  /** After clearing, no listed track keeps a key on frameStart..frameEnd, every
      listed track outside `zero` weighs w on each of those frames, keys outside
      the range and unlisted tracks are untouched, and markers never change. */
  lemma ClearedMeaning(tracks: seq<Track>, list: seq<nat>, fs: int, fe: int, zero: seq<nat>, w: real)
    ensures forall j :: 0 <= j < |tracks| ==>
      var r := Cleared(tracks, list, fs, fe, zero, w)[j];
      r.markers == tracks[j].markers && r.select == tracks[j].select &&
      (j !in list ==> r == tracks[j]) &&
      (j in list ==> forall g :: fs <= g <= fe ==> g !in r.weightKeys) &&
      (j in list && j !in zero ==> forall g :: fs <= g <= fe ==> WeightAt(r, g) == w) &&
      (forall g :: !(fs <= g <= fe) ==> (g in r.weightKeys <==> g in tracks[j].weightKeys))
  {
  }

  /** clear_weight_animation with its loops: first the zero-weight search (as
      written), then for every listed track the keys on frameStart..frameEnd are
      deleted one frame at a time (a missing key is skipped, as the bare
      `except: pass` does) and the weight is set unless the track was found
      zero-weighted. */
  method ClearWeightAnimation(scene: Scene, clip: Clip, tracks: seq<nat>, weight: real)
    requires forall x :: x in tracks ==> x < |clip.tracks|
    modifies scene, clip
    ensures clip.tracks == Cleared(old(clip.tracks), tracks, old(scene.frameStart), old(scene.frameEnd),
      SweepFrom(old(clip.tracks), tracks, old(scene.frameStart), old(scene.frameEnd)), weight)
    ensures scene.frameCurrent == old(scene.frameCurrent)
    ensures scene.frameStart == old(scene.frameStart) && scene.frameEnd == old(scene.frameEnd)
  {
    var zeroWeighted := FindZeroWeightedTracks(scene, clip, tracks);
    var tracks0 := clip.tracks;
    var fs, fe := scene.frameStart, scene.frameEnd;
    // The cleared tracks are gathered in cur and written back to the clip at
    // the end; nothing reads the clip's tracks in between.
    var cur := tracks0;
    assert Cleared(tracks0, tracks[..0], fs, fe, zeroWeighted, weight) == tracks0;
    var k := 0;
    while k < |tracks|
      invariant 0 <= k <= |tracks| && |cur| == |tracks0|
      invariant cur == Cleared(tracks0, tracks[..k], fs, fe, zeroWeighted, weight)
      invariant scene.frameCurrent == old(scene.frameCurrent)
      invariant scene.frameStart == old(scene.frameStart) && scene.frameEnd == old(scene.frameEnd)
    {
      var t := tracks[k];
      assert t in tracks;
      var track := ClearTrack(cur[t], fs, fe, t in zeroWeighted, weight);
      cur := cur[t := track];
      assert tracks[..k + 1] == tracks[..k] + [t];
      ClearedSnoc(tracks0, tracks[..k], t, fs, fe, zeroWeighted, weight);
      k := k + 1;
    }
    assert tracks[..k] == tracks;
    clip.tracks := cur;
  }

  /** The body of the track loop of clear_weight_animation: the keys on
      frameStart..frameEnd are deleted one frame at a time, then the weight
      is set unless the track was found zero-weighted. */
  method ClearTrack(track: Track, fs: int, fe: int, zeroWeighted: bool, weight: real) returns (t: Track)
    ensures t == ClearOne(track, fs, fe, zeroWeighted, weight)
  {
    var keys := track.weightKeys;
    assert keys == KeysOutside(track.weightKeys, fs, fs - 1);
    var i := fs;
    while i < fe + 1
      invariant fs <= i && (i <= fe + 1 || i == fs)
      invariant keys == KeysOutside(track.weightKeys, fs, i - 1)
    {
      if i in keys {
        keys := keys - {i};
      }
      assert keys == KeysOutside(track.weightKeys, fs, i);
      i := i + 1;
    }
    t := track.(weightKeys := keys);
    if !zeroWeighted {
      t := t.(weight := weight);
    }
  }

  // ----- insert_keyframe and the weight_fade operator -----

  /** insert_keyframe: the shared keying loop; the scene's frame is not touched.
      It reports whether it ran to the end (False: IndexError on a list of
      fewer than two frames, after keying the tracks before it). */
  method InsertKeyframe(scene: Scene, clip: Clip, fadeTime: nat, dict: map<nat, seq<int>>) returns (ok: bool)
    requires forall i :: i in dict ==> i < |clip.tracks|
    modifies clip
    ensures ok == FirstShortList(dict, 0, |old(clip.tracks)|).None?
    ensures clip.tracks == FadeTracksBelow(old(clip.tracks), dict, scene.frameStart, scene.frameEnd, fadeTime,
      KeyingStop(dict, |old(clip.tracks)|))
  {
    var lastFrame;
    ok, lastFrame := InsertWeightKeys(clip, scene.frameStart, scene.frameEnd, fadeTime, dict);
  }

  /** The valid-track dictionary of weight_fade without its short tracks: only
      tracks with at least 2 * fadeTime valid frames stay. */
  function DropShort(valid: map<nat, seq<int>>, fadeTime: nat): (r: map<nat, seq<int>>)
    ensures forall i :: i in r <==> i in valid && |valid[i]| >= 2 * fadeTime
    ensures forall i :: i in r ==> r[i] == valid[i]
  {
    map i | i in valid && |valid[i]| >= 2 * fadeTime :: valid[i]
  }

  /** With fadeTime >= 1 every list left after dropping the short tracks holds
      at least two frames, so the keying loop of weight_fade never raises. */
  lemma WeightFadeNeverShort(valid: map<nat, seq<int>>, fadeTime: nat, n: nat)
    requires fadeTime >= 1
    ensures FirstShortList(DropShort(valid, fadeTime), 0, n).None?
  {
    NoShortList(DropShort(valid, fadeTime), 0, n);
  }

  /** The state weight_fade produces from `tracks`: the visible selected tracks
      are cleared to weight 1, their valid-frame lists are taken on the cleared
      tracks, the short ones are dropped and the rest keyed. */
  function WeightFadeDict(tracks: seq<Track>, fs: int, fe: int, fadeTime: nat): (r: map<nat, seq<int>>)
    ensures forall i :: i in r ==> i < |tracks|
  {
    var ids := VisibleSelected(tracks);
    var cleared := Cleared(tracks, ids, fs, fe, SweepFrom(tracks, ids, fs, fe), 1.0);
    DropShort(ValidTrackMap(cleared, ids, fs, fe), fadeTime)
  }

  /** The `short` list of weight_fade and its deletions from the dictionary. */
  method DropShortTracks(valid: map<nat, seq<int>>, n: nat, fadeTime: nat) returns (r: map<nat, seq<int>>)
    requires forall i :: i in valid ==> i < n
    ensures r == DropShort(valid, fadeTime)
  {
    var short: seq<nat> := [];
    var k := 0;
    while k < n
      invariant 0 <= k <= n
      invariant forall x :: x in short <==> 0 <= x < k && x in valid && |valid[x]| < 2 * fadeTime
    {
      if k in valid && |valid[k]| < fadeTime * 2 {
        short := short + [k];
      }
      k := k + 1;
    }
    r := valid;
    var m := 0;
    while m < |short|
      invariant 0 <= m <= |short|
      invariant r == map i | i in valid && i !in short[..m] :: valid[i]
    {
      assert short[..m + 1] == short[..m] + [short[m]];
      r := r - {short[m]};
      m := m + 1;
    }
    assert short[..m] == short;
  }

  /** CLIP_OT_weight_fade.execute. */
  method WeightFade(scene: Scene, clip: Clip, fadeTime: nat) returns (ok: bool)
    modifies scene, clip
    ensures scene.frameCurrent == old(scene.frameCurrent)
    ensures scene.frameStart == old(scene.frameStart) && scene.frameEnd == old(scene.frameEnd)
    ensures var ids := VisibleSelected(old(clip.tracks));
      var cleared := Cleared(old(clip.tracks), ids, scene.frameStart, scene.frameEnd,
        SweepFrom(old(clip.tracks), ids, scene.frameStart, scene.frameEnd), 1.0);
      var dict := WeightFadeDict(old(clip.tracks), scene.frameStart, scene.frameEnd, fadeTime);
      ok == FirstShortList(dict, 0, |cleared|).None? &&
      clip.tracks == FadeTracksBelow(cleared, dict, scene.frameStart, scene.frameEnd, fadeTime, KeyingStop(dict, |cleared|))
  {
    var tracks := VisibleSelected(clip.tracks);
    assert forall k :: 0 <= k < |tracks| ==> tracks[k] in tracks;
    ClearWeightAnimation(scene, clip, tracks, 1.0);
    var validTracks := GetValidTracks(clip.tracks, tracks, scene.frameStart, scene.frameEnd);
    validTracks := DropShortTracks(validTracks, |clip.tracks|, fadeTime);
    ok := InsertKeyframe(scene, clip, fadeTime, validTracks);
  }

  /** CLIP_OT_clear_weight_animation.execute: the visible selected tracks are
      cleared to weight 1. */
  method ClearWeightAnimationOperator(scene: Scene, clip: Clip)
    modifies scene, clip
    ensures var ids := VisibleSelected(old(clip.tracks));
      clip.tracks == Cleared(old(clip.tracks), ids, old(scene.frameStart), old(scene.frameEnd),
        SweepFrom(old(clip.tracks), ids, old(scene.frameStart), old(scene.frameEnd)), 1.0)
    ensures scene.frameCurrent == old(scene.frameCurrent)
  {
    var tracks := VisibleSelected(clip.tracks);
    ClearWeightAnimation(scene, clip, tracks, 1.0);
  }

  /** The tracks of `list` that are not in `drop`, in order. */
  function Without(list: seq<nat>, drop: seq<nat>): (r: seq<nat>)
    ensures forall y :: y in r <==> y in list && y !in drop
    decreases |list|
  {
    if list == [] then []
    else
      var rest := Without(list[1..], drop);
      assert forall y :: y in list <==> y == list[0] || y in list[1..];
      if list[0] in drop then rest else [list[0]] + rest
  }

  /** CLIP_OT_create_zero_weighted_tracks.execute: the visible selected tracks
      not reported by invisible_selected are cleared to weight 0. With
      show_disabled off those are the ones showing a marker on the current
      frame; with it on, invisible_selected reports none and all of them are
      cleared. */
  method CreateZeroWeightedTracks(scene: Scene, clip: Clip, showDisabled: bool)
    modifies scene, clip
    ensures var invisibles := InvisibleIds(old(clip.tracks), old(scene.frameCurrent), showDisabled);
      var ids := Without(VisibleSelected(old(clip.tracks)), invisibles);
      clip.tracks == Cleared(old(clip.tracks), ids, old(scene.frameStart), old(scene.frameEnd),
        SweepFrom(old(clip.tracks), ids, old(scene.frameStart), old(scene.frameEnd)), 0.0)
    ensures scene.frameCurrent == old(scene.frameCurrent)
  {
    var allTracks := VisibleSelected(clip.tracks);
    var invisibles := InvisibleSelected(clip.tracks, scene.frameCurrent, showDisabled);
    var tracks := Without(allTracks, invisibles);
    assert forall k :: 0 <= k < |tracks| ==> tracks[k] in tracks;
    ClearWeightAnimation(scene, clip, tracks, 0.0);
  }

  // ----- filter_track_ends -----

  /** CLIP_OT_filter_track_ends.filter_track_ends: the decision loop with the
      explicitly summed window mean, then the muting loop. It returns whether it
      finished (False: it raised, before muting anything) and the number of
      muted track ends. */
  method FilterTrackEnds(scene: Scene, clip: Clip, threshold: int, evalTime: nat) returns (ok: bool, count: nat)
    modifies clip
    ensures var tracks := old(clip.tracks);
      var valid := ValidTrackMap(tracks, AllIds(|tracks|), scene.frameStart, scene.frameEnd);
      var scan := EndSpikeScanFrom({}, tracks, valid, 0, evalTime, threshold, clip.width, clip.height);
      ok == scan.Some? &&
      (scan.Some? ==> clip.tracks == MuteEnds(tracks, valid, scan.value) && count == |scan.value|) &&
      (scan.None? ==> clip.tracks == tracks)
  {
    var tracks := clip.tracks;
    var w, h := clip.width, clip.height;
    var validTracks := GetValidTracks(tracks, AllIds(|tracks|), scene.frameStart, scene.frameEnd);
    var toClean: set<nat> := {};
    var i := 0;
    while i < |tracks|
      invariant 0 <= i <= |tracks| && clip.tracks == tracks
      invariant EndSpikeScanFrom(toClean, tracks, validTracks, i, evalTime, threshold, w, h) ==
        EndSpikeScanFrom({}, tracks, validTracks, 0, evalTime, threshold, w, h)
    {
      if i in validTracks {
        var spike := DecideEndSpike(tracks[i], validTracks[i], evalTime, threshold, w, h);
        if spike.None? {
          return false, 0;
        }
        if spike.value {
          toClean := toClean + {i};
        }
      }
      i := i + 1;
    }
    MuteLastFrames(clip, validTracks, toClean);
    count := |toClean|;
    ok := true;
  }

  // ----- select_foreground -----

  /** CLIP_OT_select_foreground.select_foreground: the cohort of a track is
      every track of the clip other than itself that passes the window check at
      the track's last valid frame. The chosen tracks are selected only after
      the loop, so a raise leaves every selection as it was. */
  method SelectForeground(scene: Scene, clip: Clip, evalTime: nat, threshold: int) returns (ok: bool)
    modifies clip
    ensures var tracks := old(clip.tracks);
      var valid := ValidTrackMap(tracks, AllIds(|tracks|), scene.frameStart, scene.frameEnd);
      var scan := ForegroundScanFrom({}, tracks, valid, AllIds(|tracks|), 0, evalTime, threshold, clip.width, clip.height);
      ok == scan.Some? &&
      clip.tracks == if scan.Some? then SelectAll(tracks, scan.value) else tracks
  {
    var tracks := clip.tracks;
    var all := AllIds(|tracks|);
    var validTracks := GetValidTracks(tracks, all, scene.frameStart, scene.frameEnd);
    var foreground := ChooseForeground(tracks, validTracks, all, evalTime, threshold, clip.width, clip.height);
    if foreground.None? {
      return false;
    }
    SelectListed(clip, foreground.value);
    ghost var scan := ForegroundScanFrom({}, tracks, validTracks, all, 0, evalTime, threshold, clip.width, clip.height);
    assert (set x | x in foreground.value) == scan.value;
    ok := true;
  }

  // ----- the remaining operators -----

  /** CLIP_OT_select_zero_weighted_tracks.execute: every track the as-written
      search returns gets selected; the frame cursor ends where it started. */
  method SelectZeroWeightedTracks(scene: Scene, clip: Clip)
    modifies scene, clip
    ensures var zero := SweepFrom(old(clip.tracks), AllIds(|old(clip.tracks)|), old(scene.frameStart), old(scene.frameEnd));
      clip.tracks == SelectAll(old(clip.tracks), set x | x in zero)
    ensures scene.frameCurrent == old(scene.frameCurrent)
  {
    var all := AllIds(|clip.tracks|);
    var zeroWeighted := FindZeroWeightedTracks(scene, clip, all);
    assert forall k :: 0 <= k < |zeroWeighted| ==> zeroWeighted[k] in zeroWeighted;
    SelectListed(clip, zeroWeighted);
  }

  /** The number of tracks with a marker (muted or not) on frame f. */
  function TrackedAt(f: int): Track -> bool
  {
    (t: Track) => Tracked(t, f)
  }

  function MarkerCount(tracks: seq<Track>, f: int): nat
  {
    |IdsWhere(tracks, TrackedAt(f))|
  }

  /** The first frame of [lo, hi) on which fewer than 8 tracks have a marker. */
  function FirstSparseFrame(tracks: seq<Track>, lo: int, hi: int): (r: Option<int>)
    ensures r.Some? ==> lo <= r.value < hi && MarkerCount(tracks, r.value) < 8
    ensures r.Some? ==> forall g :: lo <= g < r.value ==> MarkerCount(tracks, g) >= 8
    ensures r.None? ==> forall g :: lo <= g < hi ==> MarkerCount(tracks, g) >= 8
    decreases hi - lo
  {
    if lo >= hi then None
    else if MarkerCount(tracks, lo) < 8 then Some(lo)
    else FirstSparseFrame(tracks, lo + 1, hi)
  }

  /** CLIP_OT_goto_next_marker_gap.execute: the cursor goes to the frame before
      the first sparse frame, or onto it when it is frameStart; with no sparse
      frame it stays. */
  method GotoNextMarkerGap(scene: Scene, clip: Clip)
    modifies scene
    ensures scene.frameStart == old(scene.frameStart) && scene.frameEnd == old(scene.frameEnd)
    ensures match FirstSparseFrame(clip.tracks, scene.frameStart, scene.frameEnd)
      case None => scene.frameCurrent == old(scene.frameCurrent)
      case Some(f) => scene.frameCurrent == if f == scene.frameStart then f else f - 1
  {
    var f := scene.frameStart;
    while f < scene.frameEnd
      invariant scene.frameStart <= f && (f <= scene.frameEnd || f == scene.frameStart)
      invariant FirstSparseFrame(clip.tracks, f, scene.frameEnd) == FirstSparseFrame(clip.tracks, scene.frameStart, scene.frameEnd)
      invariant scene.frameCurrent == old(scene.frameCurrent)
    {
      var markerList := IdsWhere(clip.tracks, TrackedAt(f));
      if |markerList| < 8 {
        if f != scene.frameStart {
          scene.frameCurrent := f - 1;
        } else {
          scene.frameCurrent := f;
        }
        return;
      }
      f := f + 1;
    }
  }
}
