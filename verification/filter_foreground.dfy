/** filter_foreground.py: the earlier revision of the end-spike filter and of
    the foreground selection. Its helpers (check_evaluation_time,
    get_valid_tracks, get_slope, get_difference, get_average_slope) are the
    ones of the Tracking module; what differs is that filter_track_ends
    deselects the tracks it looks at, that the foreground cohort is drawn from
    the valid tracks only, and relevant_tracks. */
module FilterForeground {
  import opened Wrappers
  import opened Tracking
  import opened TrackingTools

  // ----- relevant_tracks -----

  /** The loop of relevant_tracks from track k on: the `return` sits inside the
      loop, so it answers with the first track other than track i that has
      unmuted markers on `frame` and `frame - 1`, or falls off the end (None). */
  function RelevantFrom(tracks: seq<Track>, frame: int, i: nat, k: nat): (r: Option<seq<nat>>)
    ensures r.Some? ==>
      |r.value| == 1 && k <= r.value[0] < |tracks| && r.value[0] != i && UsablePair(tracks[r.value[0]], frame) &&
      forall j :: k <= j < r.value[0] && j != i ==> !UsablePair(tracks[j], frame)
    ensures r.None? <==> forall j :: k <= j < |tracks| && j != i ==> !UsablePair(tracks[j], frame)
    decreases |tracks| - k
  {
    if k >= |tracks| then None
    else if UsablePair(tracks[k], frame) && k != i then Some([k])
    else RelevantFrom(tracks, frame, i, k + 1)
  }

  /** relevant_tracks, with its loop and its `continue`s. */
  method RelevantTracks(tracks: seq<Track>, frame: int, i: nat) returns (r: Option<seq<nat>>)
    ensures r == RelevantFrom(tracks, frame, i, 0)
  {
    var list: seq<nat> := [];
    var k := 0;
    while k < |tracks|
      invariant 0 <= k <= |tracks| && list == []
      invariant RelevantFrom(tracks, frame, i, k) == RelevantFrom(tracks, frame, i, 0)
    {
      var t := tracks[k];
      if !Tracked(t, frame) || !Tracked(t, frame - 1) {
        k := k + 1;
        continue;
      }
      if t.markers[frame].mute || t.markers[frame - 1].mute {
        k := k + 1;
        continue;
      }
      if k == i {
        k := k + 1;
        continue;
      }
      assert UsablePair(t, frame);
      assert RelevantFrom(tracks, frame, i, k) == Some([k]);
      list := list + [k];
      assert list == [k];
      return Some(list);
    }
    return None;
  }

  /** The test relevant_tracks applies to each track. */
  function UsableAt(frame: int): Track -> bool
  {
    (t: Track) => UsablePair(t, frame)
  }

  /** What the comment on relevant_tracks describes: every track other than
      track i with unmuted markers on `frame` and `frame - 1`, in track order. */
  function AllRelevant(tracks: seq<Track>, frame: int, i: nat): (r: seq<nat>)
    ensures forall j :: j in r <==> 0 <= j < |tracks| && j != i && UsablePair(tracks[j], frame)
    ensures Increasing(r)
  {
    var usable := IdsWhere(tracks, UsableAt(frame));
    WithoutIncreasing(usable, [i]);
    Without(usable, [i])
  }

  lemma {:induction false} WithoutIncreasing(list: seq<nat>, drop: seq<nat>)
    requires Increasing(list)
    ensures Increasing(Without(list, drop))
    decreases |list|
  {
    if list != [] {
      var tail := list[1..];
      assert Increasing(tail) by {
        forall i, j | 0 <= i < j < |tail|
          ensures tail[i] < tail[j]
        {
          assert tail[i] == list[i + 1] && tail[j] == list[j + 1];
        }
      }
      WithoutIncreasing(tail, drop);
      var rest := Without(tail, drop);
      if list[0] !in drop {
        var r := [list[0]] + rest;
        assert Without(list, drop) == r;
        forall k | 0 <= k < |rest|
          ensures list[0] < rest[k]
        {
          assert rest[k] in rest;
          var m :| 0 <= m < |tail| && tail[m] == rest[k];
          assert tail[m] == list[m + 1];
        }
        forall i, j | 0 <= i < j < |r|
          ensures r[i] < r[j]
        {
          assert r[j] == rest[j - 1];
          if i > 0 {
            assert r[i] == rest[i - 1];
          }
        }
      }
    }
  }

  /** The as-written relevant_tracks only ever reports one track: the first
      track of the intended list, if there is one. */
  lemma RelevantIsFirstOfAll(tracks: seq<Track>, frame: int, i: nat)
    ensures var all := AllRelevant(tracks, frame, i);
      RelevantFrom(tracks, frame, i, 0) == if all == [] then None else Some([all[0]])
  {
    var all := AllRelevant(tracks, frame, i);
    var r := RelevantFrom(tracks, frame, i, 0);
    if all != [] {
      var first := all[0];
      assert first in all;
      assert r.Some?;
      var j := r.value[0];
      assert j in all;
      FirstIsLeast(all, j);
      assert r.value == [j];
    }
  }

  /** The first element of an increasing list is at most each of its members. */
  lemma FirstIsLeast(s: seq<nat>, x: nat)
    requires Increasing(s) && x in s
    ensures s[0] <= x
  {
    var k :| 0 <= k < |s| && s[k] == x;
    if k > 0 {
      assert s[0] < s[k];
    }
  }

  /** An increasing list whose members all lie in [lo, hi) has at most
      hi - lo members. */
  lemma {:induction false} IncreasingWithin(s: seq<nat>, lo: int, hi: int)
    requires Increasing(s) && forall x :: x in s ==> lo <= x < hi
    ensures |s| <= if lo <= hi then hi - lo else 0
  {
    if s != [] {
      var rest := s[1..];
      assert s[0] in s;
      forall x | x in rest
        ensures s[0] + 1 <= x < hi
      {
        var k :| 0 <= k < |rest| && rest[k] == x;
        assert s[k + 1] == x && s[k + 1] in s;
      }
      assert Increasing(rest) by {
        forall i, j | 0 <= i < j < |rest|
          ensures rest[i] < rest[j]
        {
          assert rest[i] == s[i + 1] && rest[j] == s[j + 1];
        }
      }
      IncreasingWithin(rest, s[0] + 1, hi);
    }
  }

  /** For any track with unmuted markers on frames 0 and 1, three copies of it:
      for track 0 the as-written function reports [1] while the intended list
      is [1, 2]. */
  lemma StopsEarlyFor(t: Track)
    requires UsablePair(t, 1)
    ensures RelevantFrom([t, t, t], 1, 0, 0) == Some([1]) && AllRelevant([t, t, t], 1, 0) == [1, 2]
  {
    var ts := [t, t, t];
    var r := AllRelevant(ts, 1, 0);
    assert forall j :: j in r <==> j == 1 || j == 2 by {
      assert forall j :: 0 <= j < 3 ==> ts[j] == t;
    }
    IncreasingWithin(r, 1, 3);
    assert 1 in r && 2 in r;
    var k1 :| 0 <= k1 < |r| && r[k1] == 1;
    var k2 :| 0 <= k2 < |r| && r[k2] == 2;
    assert |r| == 2;
    assert r[0] < r[1];
    assert r[0] in r && r[1] in r;
    assert r == [1, 2];
    var s := RelevantFrom(ts, 1, 0, 0);
    assert s.Some?;
    assert s.value[0] == 1;
  }

  /** Three tracks with unmuted markers on frames 0 and 1: for track 0 the
      as-written function reports [1] while the intended list is [1, 2]. */
  lemma RelevantTracksStopsEarly()
    ensures var m := Marker(0.0, 0.0, false);
      var t := Track("t", map[0 := m, 1 := m], false, false, 1.0, map[]);
      RelevantFrom([t, t, t], 1, 0, 0) == Some([1]) && AllRelevant([t, t, t], 1, 0) == [1, 2]
  {
    var m := Marker(0.0, 0.0, false);
    var t := Track("t", map[0 := m, 1 := m], false, false, 1.0, map[]);
    assert UsablePair(t, 1);
    StopsEarlyFor(t);
  }

  // ----- filter_track_ends -----

  /** The tracks with every track of the dictionary below index n deselected. */
  function DeselectBelow(tracks: seq<Track>, valid: map<nat, seq<int>>, n: nat): (r: seq<Track>)
    ensures |r| == |tracks|
    ensures forall j :: 0 <= j < |tracks| ==>
      r[j] == if j in valid && j < n then tracks[j].(select := false) else tracks[j]
  {
    seq(|tracks|, j requires 0 <= j < |tracks| => if j in valid && j < n then tracks[j].(select := false) else tracks[j])
  }

  /** Raising the bound by one deselects one more track when it is in the
      dictionary and changes nothing otherwise. */
  lemma DeselectStep(tracks: seq<Track>, valid: map<nat, seq<int>>, i: nat)
    requires i < |tracks|
    ensures DeselectBelow(tracks, valid, i + 1) ==
      if i in valid then DeselectBelow(tracks, valid, i)[i := tracks[i].(select := false)]
      else DeselectBelow(tracks, valid, i)
  {
    var a := DeselectBelow(tracks, valid, i);
    var b := DeselectBelow(tracks, valid, i + 1);
    var c := if i in valid then a[i := tracks[i].(select := false)] else a;
    assert |b| == |c|;
    forall j | 0 <= j < |b|
      ensures b[j] == c[j]
    {
    }
  }

  /** The first track of the dictionary from index i on whose end-spike
      decision raises, in dictionary order. */
  function RaiseIndexFrom(tracks: seq<Track>, valid: map<nat, seq<int>>, i: nat,
                          e: nat, threshold: int, width: nat, height: nat): Option<nat>
    requires WellFormed(tracks, valid)
    decreases |tracks| - i
  {
    if i >= |tracks| then None
    else if i in valid && EndSpike(tracks[i], valid[i], e, threshold, width, height).None? then Some(i)
    else RaiseIndexFrom(tracks, valid, i + 1, e, threshold, width, height)
  }

  /** The raise index is a track of the dictionary whose decision raises, and
      every decision before it (or every decision, when there is none) is
      defined. */
  lemma {:induction false} RaiseIndexMeaning(tracks: seq<Track>, valid: map<nat, seq<int>>, i: nat,
                                             e: nat, threshold: int, width: nat, height: nat)
    requires WellFormed(tracks, valid)
    ensures var r := RaiseIndexFrom(tracks, valid, i, e, threshold, width, height);
      r.Some? ==>
        i <= r.value < |tracks| && r.value in valid && EndSpike(tracks[r.value], valid[r.value], e, threshold, width, height).None? &&
        forall j :: i <= j < r.value && j in valid ==> EndSpike(tracks[j], valid[j], e, threshold, width, height).Some?
    ensures RaiseIndexFrom(tracks, valid, i, e, threshold, width, height).None? ==>
      forall j :: i <= j < |tracks| && j in valid ==> EndSpike(tracks[j], valid[j], e, threshold, width, height).Some?
    decreases |tracks| - i
  {
    if i < |tracks| && !(i in valid && EndSpike(tracks[i], valid[i], e, threshold, width, height).None?) {
      RaiseIndexMeaning(tracks, valid, i + 1, e, threshold, width, height);
    }
  }

  /** A track outside the dictionary is skipped by both scans. */
  lemma ScanSkip(acc: set<nat>, tracks: seq<Track>, valid: map<nat, seq<int>>, i: nat,
                 e: nat, threshold: int, width: nat, height: nat)
    requires WellFormed(tracks, valid) && i < |tracks| && i !in valid
    ensures EndSpikeScanFrom(acc, tracks, valid, i, e, threshold, width, height) ==
      EndSpikeScanFrom(acc, tracks, valid, i + 1, e, threshold, width, height)
    ensures RaiseIndexFrom(tracks, valid, i, e, threshold, width, height) ==
      RaiseIndexFrom(tracks, valid, i + 1, e, threshold, width, height)
  {
  }

  /** A track of the dictionary whose decision is b: the scan goes on with b's
      choice added, and the raise index lies further on. */
  lemma ScanDecided(acc: set<nat>, tracks: seq<Track>, valid: map<nat, seq<int>>, i: nat,
                    e: nat, threshold: int, width: nat, height: nat, b: bool)
    requires WellFormed(tracks, valid) && i < |tracks| && i in valid
    requires EndSpike(tracks[i], valid[i], e, threshold, width, height) == Some(b)
    ensures EndSpikeScanFrom(acc, tracks, valid, i, e, threshold, width, height) ==
      EndSpikeScanFrom(if b then acc + {i} else acc, tracks, valid, i + 1, e, threshold, width, height)
    ensures RaiseIndexFrom(tracks, valid, i, e, threshold, width, height) ==
      RaiseIndexFrom(tracks, valid, i + 1, e, threshold, width, height)
  {
  }

  /** The scan of the decision loop completes exactly when no decision raises. */
  lemma {:induction false} RaiseIndexScan(acc: set<nat>, tracks: seq<Track>, valid: map<nat, seq<int>>, i: nat,
                                          e: nat, threshold: int, width: nat, height: nat)
    requires WellFormed(tracks, valid)
    ensures RaiseIndexFrom(tracks, valid, i, e, threshold, width, height).None? <==>
      EndSpikeScanFrom(acc, tracks, valid, i, e, threshold, width, height).Some?
    decreases |tracks| - i
  {
    if i < |tracks| {
      if i !in valid {
        RaiseIndexScan(acc, tracks, valid, i + 1, e, threshold, width, height);
      } else {
        match EndSpike(tracks[i], valid[i], e, threshold, width, height)
        case None =>
        case Some(b) =>
          RaiseIndexScan(if b then acc + {i} else acc, tracks, valid, i + 1, e, threshold, width, height);
      }
    }
  }

  /** One pass of the decision loop of filter_track_ends over track i: a track
      of the dictionary is deselected, then decided; a positive decision adds
      it to the tracks to clean. `raised` is whether the decision raised. */
  method EndSpikeStep(tracks: seq<Track>, valid: map<nat, seq<int>>, i: nat, toClean: set<nat>, cur: seq<Track>,
                      e: nat, threshold: int, width: nat, height: nat)
    returns (raised: bool, nextClean: set<nat>, next: seq<Track>)
    requires WellFormed(tracks, valid) && i < |tracks| && cur == DeselectBelow(tracks, valid, i)
    ensures next == DeselectBelow(tracks, valid, i + 1)
    ensures raised ==> RaiseIndexFrom(tracks, valid, i, e, threshold, width, height) == Some(i)
    ensures !raised ==>
      EndSpikeScanFrom(toClean, tracks, valid, i, e, threshold, width, height) ==
        EndSpikeScanFrom(nextClean, tracks, valid, i + 1, e, threshold, width, height) &&
      RaiseIndexFrom(tracks, valid, i, e, threshold, width, height) ==
        RaiseIndexFrom(tracks, valid, i + 1, e, threshold, width, height)
  {
    DeselectStep(tracks, valid, i);
    raised, nextClean, next := false, toClean, cur;
    if i in valid {
      next := cur[i := tracks[i].(select := false)];
      var spike := DecideEndSpike(tracks[i], valid[i], e, threshold, width, height);
      if spike.None? {
        raised := true;
        return;
      }
      ScanDecided(toClean, tracks, valid, i, e, threshold, width, height, spike.value);
      if spike.value {
        nextClean := toClean + {i};
      }
    } else {
      ScanSkip(toClean, tracks, valid, i, e, threshold, width, height);
    }
  }

  /** filter_track_ends of filter_foreground.py: each track of the dictionary is
      deselected before its decision; the muting loop runs after the decision
      loop. When a decision raises, the tracks up to and including the raising
      one are deselected and nothing is muted. */
  method FilterTrackEnds(clip: Clip, valid: map<nat, seq<int>>, threshold: int, evalTime: nat) returns (ok: bool)
    requires WellFormed(clip.tracks, valid)
    modifies clip
    ensures var tracks := old(clip.tracks);
      var scan := EndSpikeScanFrom({}, tracks, valid, 0, evalTime, threshold, clip.width, clip.height);
      var raise := RaiseIndexFrom(tracks, valid, 0, evalTime, threshold, clip.width, clip.height);
      ok == scan.Some? &&
      (ok ==> clip.tracks == MuteEnds(DeselectBelow(tracks, valid, |tracks|), valid, scan.value)) &&
      (!ok ==> raise.Some? && clip.tracks == DeselectBelow(tracks, valid, raise.value + 1))
  {
    var tracks := clip.tracks;
    var w, h := clip.width, clip.height;
    RaiseIndexScan({}, tracks, valid, 0, evalTime, threshold, w, h);
    var toClean: set<nat> := {};
    var i := 0;
    // The deselections are gathered in cur and written to the clip at each
    // exit; nothing reads the clip's tracks in between.
    var cur := tracks;
    ghost var scan := EndSpikeScanFrom({}, tracks, valid, 0, evalTime, threshold, w, h);
    ghost var raise := RaiseIndexFrom(tracks, valid, 0, evalTime, threshold, w, h);
    while i < |tracks|
      invariant 0 <= i <= |tracks|
      invariant cur == DeselectBelow(tracks, valid, i)
      invariant EndSpikeScanFrom(toClean, tracks, valid, i, evalTime, threshold, w, h) == scan
      invariant RaiseIndexFrom(tracks, valid, i, evalTime, threshold, w, h) == raise
    {
      var raised;
      raised, toClean, cur := EndSpikeStep(tracks, valid, i, toClean, cur, evalTime, threshold, w, h);
      if raised {
        clip.tracks := cur;
        return false;
      }
      i := i + 1;
    }
    RaiseIndexScan(toClean, tracks, valid, i, evalTime, threshold, w, h);
    clip.tracks := cur;
    MuteLastFrames(clip, valid, toClean);
    ok := true;
  }

  /** After a completed filter_track_ends every track of the dictionary is
      deselected, the tracks outside it keep their selection, and only the
      chosen tracks lose a marker, the one on their last valid frame. */
  lemma FilterTrackEndsEffect(tracks: seq<Track>, valid: map<nat, seq<int>>, clean: set<nat>)
    requires WellFormed(tracks, valid)
    ensures var r := MuteEnds(DeselectBelow(tracks, valid, |tracks|), valid, clean);
      forall j :: 0 <= j < |tracks| ==>
        r[j].select == (tracks[j].select && j !in valid) &&
        r[j].markers.Keys == tracks[j].markers.Keys &&
        (forall g :: g in tracks[j].markers && r[j].markers[g] != tracks[j].markers[g] ==>
           j in clean && j in valid && g == Last(valid[j]))
  {
    var d := DeselectBelow(tracks, valid, |tracks|);
    assert WellFormed(d, valid);
    var r := MuteEnds(d, valid, clean);
    forall j | 0 <= j < |tracks|
      ensures r[j].select == (tracks[j].select && j !in valid)
      ensures r[j].markers.Keys == tracks[j].markers.Keys
      ensures forall g :: g in tracks[j].markers && r[j].markers[g] != tracks[j].markers[g] ==>
           j in clean && j in valid && g == Last(valid[j])
    {
      assert d[j].markers == tracks[j].markers;
    }
  }

  // ----- filter_foreground -----

  /** The keys of the valid-track dictionary below n in dictionary order, which
      is track order. */
  function ValidKeys(valid: map<nat, seq<int>>, n: nat): (keys: seq<nat>)
    ensures forall j :: j in keys <==> j < n && j in valid
    ensures forall k :: 0 <= k < |keys| ==> keys[k] < n
    ensures Increasing(keys)
  {
    if n == 0 then []
    else
      var rest := ValidKeys(valid, n - 1);
      assert forall k :: 0 <= k < |rest| ==> rest[k] in rest;
      rest + if n - 1 in valid then [n - 1] else []
  }

  /** The cohort of filter_foreground: `tracks` has been replaced by the
      valid-track dictionary, so the cohort of track i at frame f holds the
      other tracks with a valid frame that pass the window check at f. */
  lemma FilterForegroundCohort(tracks: seq<Track>, i: nat, f: int, e: nat, fs: int, fe: int)
    ensures var cands := ValidKeys(ValidTrackMap(tracks, AllIds(|tracks|), fs, fe), |tracks|);
      forall j :: j in Cohort(tracks, cands, i, f, e) <==>
        0 <= j < |tracks| && j != i && Frames(tracks[j], ValidFrame, fs, fe) != [] && CheckEvalTime(tracks[j], f, e)
  {
    var valid := ValidTrackMap(tracks, AllIds(|tracks|), fs, fe);
    forall j | 0 <= j < |tracks|
      ensures j in valid <==> Frames(tracks[j], ValidFrame, fs, fe) != []
    {
      assert AllIds(|tracks|)[j] == j;
    }
  }

  /** filter_foreground: the loop over the dictionary it is given, with the
      cohort drawn from the recomputed valid tracks; the chosen tracks are
      selected after the loop, so a raise changes nothing. */
  method FilterForeground(scene: Scene, clip: Clip, valid: map<nat, seq<int>>, evalTime: nat, threshold: int)
    returns (ok: bool)
    requires WellFormed(clip.tracks, valid)
    modifies clip
    ensures var tracks := old(clip.tracks);
      var cands := ValidKeys(ValidTrackMap(tracks, AllIds(|tracks|), scene.frameStart, scene.frameEnd), |tracks|);
      var scan := ForegroundScanFrom({}, tracks, valid, cands, 0, evalTime, threshold, clip.width, clip.height);
      ok == scan.Some? &&
      clip.tracks == if scan.Some? then SelectAll(tracks, scan.value) else tracks
  {
    var tracks := clip.tracks;
    var validAgain := GetValidTracks(tracks, AllIds(|tracks|), scene.frameStart, scene.frameEnd);
    var cands := ValidKeys(validAgain, |tracks|);
    var foreground := ChooseForeground(tracks, valid, cands, evalTime, threshold, clip.width, clip.height);
    if foreground.None? {
      return false;
    }
    SelectListed(clip, foreground.value);
    ghost var scan := ForegroundScanFrom({}, tracks, valid, cands, 0, evalTime, threshold, clip.width, clip.height);
    assert (set x | x in foreground.value) == scan.value;
    ok := true;
  }

  // ----- the operators -----

  /** CLIP_OT_filter_track_ends.execute: the valid tracks of the whole clip,
      then filter_track_ends on them; when a decision raises, the tracks up to
      the raising one stay deselected. */
  method FilterTrackEndsOperator(scene: Scene, clip: Clip, threshold: int, evalTime: nat) returns (ok: bool)
    modifies clip
    ensures var tracks := old(clip.tracks);
      var valid := ValidTrackMap(tracks, AllIds(|tracks|), scene.frameStart, scene.frameEnd);
      var scan := EndSpikeScanFrom({}, tracks, valid, 0, evalTime, threshold, clip.width, clip.height);
      var raise := RaiseIndexFrom(tracks, valid, 0, evalTime, threshold, clip.width, clip.height);
      ok == scan.Some? &&
      (ok ==> clip.tracks == MuteEnds(DeselectBelow(tracks, valid, |tracks|), valid, scan.value)) &&
      (!ok ==> raise.Some? && clip.tracks == DeselectBelow(tracks, valid, raise.value + 1))
  {
    var valid := GetValidTracks(clip.tracks, AllIds(|clip.tracks|), scene.frameStart, scene.frameEnd);
    ok := FilterTrackEnds(clip, valid, threshold, evalTime);
  }

  /** CLIP_OT_filter_foreground.execute. */
  method FilterForegroundOperator(scene: Scene, clip: Clip, evalTime: nat, threshold: int) returns (ok: bool)
    modifies clip
    ensures var tracks := old(clip.tracks);
      var valid := ValidTrackMap(tracks, AllIds(|tracks|), scene.frameStart, scene.frameEnd);
      var scan := ForegroundScanFrom({}, tracks, valid, ValidKeys(valid, |tracks|), 0, evalTime, threshold,
        clip.width, clip.height);
      ok == scan.Some? &&
      clip.tracks == if scan.Some? then SelectAll(tracks, scan.value) else tracks
  {
    var valid := GetValidTracks(clip.tracks, AllIds(|clip.tracks|), scene.frameStart, scene.frameEnd);
    ok := FilterForeground(scene, clip, valid, evalTime, threshold);
  }
}
