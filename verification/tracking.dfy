/** The motion-tracking data shared by the tracking add-ons (tracking_tools,
    filter_foreground, marker_weight, tracking_pies): markers, tracks, the scene's
    frame range and the per-frame tests, slopes, window checks and weight keys
    that those near-duplicate files compute in the same way.

    A track is identified by its index in `Clip.tracks`: the Python code compares
    tracks by identity, so two tracks holding equal data are still two tracks. */
module Tracking {
  import opened Wrappers

  /** One marker of a track: its position in normalised clip coordinates and its
      mute ("disabled") flag. */
  datatype Marker = Marker(x: real, y: real, mute: bool)

  /** A track: its markers by frame, its UI flags, the weight it stores and the
      keyframes of its animated weight (frame to value). */
  datatype Track = Track(
    name: string,
    markers: map<int, Marker>,
    select: bool,
    hide: bool,
    weight: real,
    weightKeys: map<int, real>)

  /** A 2D vector in pixel units. */
  datatype Vec2 = Vec2(x: real, y: real)

  /** The scene's frame range [frameStart, frameEnd] and its frame cursor. */
  class Scene {
    var frameStart: int
    var frameEnd: int
    var frameCurrent: int

    constructor (start: int, end: int, current: int)
      ensures frameStart == start && frameEnd == end && frameCurrent == current
    {
      frameStart, frameEnd, frameCurrent := start, end, current;
    }
  }

  /** The movie clip: its size in pixels and its list of tracks. */
  class Clip {
    const width: nat
    const height: nat
    var tracks: seq<Track>

    constructor (w: nat, h: nat, ts: seq<Track>)
      ensures width == w && height == h && tracks == ts
    {
      width, height, tracks := w, h, ts;
    }
  }

  // ----- vectors -----

  const Zero := Vec2(0.0, 0.0)

  function Add(a: Vec2, b: Vec2): Vec2 { Vec2(a.x + b.x, a.y + b.y) }

  function Sub(a: Vec2, b: Vec2): Vec2 { Vec2(a.x - b.x, a.y - b.y) }

  function Div(a: Vec2, k: real): Vec2
    requires k != 0.0
  {
    Vec2(a.x / k, a.y / k)
  }

  function Component(v: Vec2, axis: nat): real
    requires axis < 2
  {
    if axis == 0 then v.x else v.y
  }

  function Abs(r: real): real { if r < 0.0 then -r else r }

  /** get_difference: the absolute difference of two vectors along one axis. */
  function Difference(a: Vec2, b: Vec2, axis: nat): (d: real)
    requires axis < 2
    ensures d >= 0.0
    ensures d == 0.0 <==> Component(a, axis) == Component(b, axis)
  {
    Abs(Component(a, axis) - Component(b, axis))
  }

  lemma DifferenceSymmetric(a: Vec2, b: Vec2, axis: nat)
    requires axis < 2
    ensures Difference(a, b, axis) == Difference(b, a, axis)
  {
  }

  // ----- markers and frames -----

  /** `track.markers.find_frame(f)` is truthy: a marker, muted or not, sits on frame f. */
  predicate Tracked(t: Track, f: int) { f in t.markers }

  /** A marker sits on frame f and it is not muted. */
  predicate Enabled(t: Track, f: int) { f in t.markers && !t.markers[f].mute }

  /** The condition check_eval_time tests at each frame g of its window:
      unmuted markers at g and at g - 1. */
  predicate UsablePair(t: Track, g: int) { Enabled(t, g) && Enabled(t, g - 1) }

  /** The track with the marker on frame f muted (and unchanged when there is none). */
  function MuteAt(t: Track, f: int): Track
  {
    if f in t.markers then t.(markers := t.markers[f := t.markers[f].(mute := true)]) else t
  }

  /** The number of frames g in [lo, hi) with UsablePair(t, g), counted in the
      order the loop of check_eval_time appends them. */
  function UsableCount(t: Track, lo: int, hi: int): nat
    decreases hi - lo
  {
    if hi <= lo then 0
    else UsableCount(t, lo, hi - 1) + (if UsablePair(t, hi - 1) then 1 else 0)
  }

  /** check_eval_time / check_evaluation_time: the frames of the window
      [f - e, f) that pass are collected, and the result is truthy exactly when
      there are e of them. */
  predicate CheckEvalTime(t: Track, f: int, e: nat)
  {
    UsableCount(t, f - e, f) == e
  }

  lemma {:induction false} UsableCountAll(t: Track, lo: int, hi: int)
    requires lo <= hi
    ensures UsableCount(t, lo, hi) <= hi - lo
    ensures UsableCount(t, lo, hi) == hi - lo <==> forall g :: lo <= g < hi ==> UsablePair(t, g)
    decreases hi - lo
  {
    if lo < hi {
      UsableCountAll(t, lo, hi - 1);
    }
  }

  /** The window check holds exactly when every frame of [f - e, f) has unmuted
      markers at g and at g - 1: counting the passing frames tolerates no gap. */
  lemma CheckEvalTimeWindow(t: Track, f: int, e: nat)
    ensures CheckEvalTime(t, f, e) <==> forall g :: f - e <= g < f ==> UsablePair(t, g)
  {
    UsableCountAll(t, f - e, f);
  }

  /** Muting any one marker that the window [f - e, f) or its frame f - e - 1
      relies on makes the window check fail. */
  lemma CheckEvalTimeMuteBreaks(t: Track, f: int, e: nat, g: int)
    requires e >= 1 && f - e - 1 <= g < f && g in t.markers
    ensures !CheckEvalTime(MuteAt(t, g), f, e)
  {
    CheckEvalTimeWindow(MuteAt(t, g), f, e);
    if g >= f - e {
      assert !UsablePair(MuteAt(t, g), g);
    } else {
      assert !UsablePair(MuteAt(t, g), g + 1);
    }
  }

  /** The two per-frame tests the tracking code filters a frame range by. */
  datatype FrameTest =
    | ValidFrame    // get_valid_tracks: an unmuted marker on f and any marker on f - 1
    | TrackedFrame  // get_marker_list: any marker on f

  predicate Passes(t: Track, test: FrameTest, f: int)
  {
    match test
    case ValidFrame => Enabled(t, f) && Tracked(t, f - 1)
    case TrackedFrame => Tracked(t, f)
  }

  /** The frames of [lo, hi) that pass `test`, appended in increasing order as
      the `for f in range(lo, hi)` loops do. */
  function Frames(t: Track, test: FrameTest, lo: int, hi: int): seq<int>
    decreases hi - lo
  {
    if hi <= lo then []
    else Frames(t, test, lo, hi - 1) + (if Passes(t, test, hi - 1) then [hi - 1] else [])
  }

  predicate Increasing(s: seq<int>)
  {
    forall i, j :: 0 <= i < j < |s| ==> s[i] < s[j]
  }

  /** A frame list is strictly increasing, lies in [lo, hi) and holds exactly the
      frames that pass the test. */
  lemma {:induction false} FramesMeaning(t: Track, test: FrameTest, lo: int, hi: int)
    ensures Increasing(Frames(t, test, lo, hi))
    ensures forall f :: f in Frames(t, test, lo, hi) <==> lo <= f < hi && Passes(t, test, f)
    decreases hi - lo
  {
    if lo < hi {
      FramesMeaning(t, test, lo, hi - 1);
      var p := Frames(t, test, lo, hi - 1);
      assert forall k :: 0 <= k < |p| ==> p[k] in p;
    }
  }

  /** The indices 0 .. n - 1, the order in which the tracks are iterated. */
  function AllIds(n: nat): (ids: seq<nat>)
    ensures |ids| == n && forall k :: 0 <= k < n ==> ids[k] == k
    ensures forall x :: x in ids <==> 0 <= x < n
  {
    var ids: seq<nat> := seq(n, i => i);
    assert forall x :: 0 <= x < n ==> x in ids by {
      forall x | 0 <= x < n
        ensures x in ids
      {
        assert ids[x] == x;
      }
    }
    assert forall x :: x in ids ==> x < n by {
      forall x | x in ids
        ensures x < n
      {
        var k :| 0 <= k < |ids| && ids[k] == x;
      }
    }
    ids
  }

  /** get_valid_tracks: each listed track that has at least one valid frame in
      [frameStart, frameEnd), mapped to the increasing list of its valid frames. */
  function ValidTrackMap(tracks: seq<Track>, ids: seq<nat>, frameStart: int, frameEnd: int): (valid: map<nat, seq<int>>)
    ensures WellFormed(tracks, valid)
  {
    map i | i in ids && i < |tracks| && Frames(tracks[i], ValidFrame, frameStart, frameEnd) != []
      :: Frames(tracks[i], ValidFrame, frameStart, frameEnd)
  }

  /** Every key of a track dictionary is a track, with a non-empty frame list. */
  predicate WellFormed(tracks: seq<Track>, dict: map<nat, seq<int>>)
  {
    forall i :: i in dict ==> i < |tracks| && dict[i] != []
  }

  function Last(s: seq<int>): int
    requires s != []
  {
    s[|s| - 1]
  }

  /** The dictionary of get_valid_tracks only holds tracks of the list, each with
      the increasing list of exactly its valid frames; its last frame is one. */
  lemma ValidTrackMapMeaning(tracks: seq<Track>, ids: seq<nat>, fs: int, fe: int)
    ensures WellFormed(tracks, ValidTrackMap(tracks, ids, fs, fe))
    ensures forall i :: i in ValidTrackMap(tracks, ids, fs, fe) ==>
      i in ids && Increasing(ValidTrackMap(tracks, ids, fs, fe)[i]) &&
      fs <= Last(ValidTrackMap(tracks, ids, fs, fe)[i]) < fe &&
      Passes(tracks[i], ValidFrame, Last(ValidTrackMap(tracks, ids, fs, fe)[i]))
    ensures forall i :: i in ids && i < |tracks| ==>
      (i in ValidTrackMap(tracks, ids, fs, fe) <==> exists f :: fs <= f < fe && Passes(tracks[i], ValidFrame, f))
  {
    var m := ValidTrackMap(tracks, ids, fs, fe);
    forall i | i in ids && i < |tracks|
      ensures Increasing(Frames(tracks[i], ValidFrame, fs, fe))
      ensures Frames(tracks[i], ValidFrame, fs, fe) != [] ==>
        var l := Frames(tracks[i], ValidFrame, fs, fe);
        fs <= Last(l) < fe && Passes(tracks[i], ValidFrame, Last(l))
      ensures i in m <==> exists f :: fs <= f < fe && Passes(tracks[i], ValidFrame, f)
    {
      FramesMeaning(tracks[i], ValidFrame, fs, fe);
      var l := Frames(tracks[i], ValidFrame, fs, fe);
      if l != [] {
        assert Last(l) in l;
      }
      if exists f :: fs <= f < fe && Passes(tracks[i], ValidFrame, f) {
        var f :| fs <= f < fe && Passes(tracks[i], ValidFrame, f);
        assert f in l;
      }
    }
  }

  lemma ValidTrackMapSnoc(tracks: seq<Track>, ids: seq<nat>, t: nat, fs: int, fe: int)
    requires t < |tracks|
    ensures var l := Frames(tracks[t], ValidFrame, fs, fe);
      ValidTrackMap(tracks, ids + [t], fs, fe) ==
        if l != [] then ValidTrackMap(tracks, ids, fs, fe)[t := l] else ValidTrackMap(tracks, ids, fs, fe)
  {
    var l := Frames(tracks[t], ValidFrame, fs, fe);
    var a := ValidTrackMap(tracks, ids + [t], fs, fe);
    var b := if l != [] then ValidTrackMap(tracks, ids, fs, fe)[t := l] else ValidTrackMap(tracks, ids, fs, fe);
    forall i ensures i in a <==> i in b {
      assert i in ids + [t] <==> i in ids || i == t;
    }
    assert a.Keys == b.Keys;
  }

  /** get_valid_tracks, with the dictionary entry of a track re-assigned after
      every frame appended to its list, as the Python does. */
  method GetValidTracks(tracks: seq<Track>, ids: seq<nat>, frameStart: int, frameEnd: int)
    returns (valid: map<nat, seq<int>>)
    requires forall k :: 0 <= k < |ids| ==> ids[k] < |tracks|
    ensures valid == ValidTrackMap(tracks, ids, frameStart, frameEnd)
  {
    valid := map[];
    var k := 0;
    while k < |ids|
      invariant 0 <= k <= |ids|
      invariant valid == ValidTrackMap(tracks, ids[..k], frameStart, frameEnd)
    {
      var t := ids[k];
      var before := valid;
      var list: seq<int> := [];
      var f := frameStart;
      while f < frameEnd
        invariant frameStart <= f && (f <= frameEnd || f == frameStart)
        invariant list == Frames(tracks[t], ValidFrame, frameStart, f)
        invariant valid == if list != [] then before[t := list] else before
      {
        if !Tracked(tracks[t], f) {
          f := f + 1;
          continue;
        }
        if tracks[t].markers[f].mute {
          f := f + 1;
          continue;
        }
        if !Tracked(tracks[t], f - 1) {
          f := f + 1;
          continue;
        }
        list := list + [f];
        valid := valid[t := list];
        f := f + 1;
      }
      assert list == Frames(tracks[t], ValidFrame, frameStart, frameEnd);
      assert ids[..k + 1] == ids[..k] + [t];
      ValidTrackMapSnoc(tracks, ids[..k], t, frameStart, frameEnd);
      k := k + 1;
    }
    assert ids[..k] == ids;
  }

  // ----- positions, velocities and slopes -----

  /** get_marker_coordinates_in_pixels: the marker on frame f scaled by the clip
      size; None when there is no marker there (`marker.co` on None raises). */
  function PixelPos(t: Track, f: int, width: nat, height: nat): Option<Vec2>
  {
    if f in t.markers then Some(Vec2(t.markers[f].x * width as real, t.markers[f].y * height as real))
    else None
  }

  /** marker_velocity: position on f minus position on f - 1; None when the code raises. */
  function Velocity(t: Track, f: int, width: nat, height: nat): Option<Vec2>
  {
    match (PixelPos(t, f, width, height), PixelPos(t, f - 1, width, height))
    case (Some(a), Some(b)) => Some(Sub(a, b))
    case _ => None
  }

  /** get_slope: velocity on f minus velocity on f - 1; None when the code raises. */
  function Slope(t: Track, f: int, width: nat, height: nat): Option<Vec2>
  {
    match (Velocity(t, f, width, height), Velocity(t, f - 1, width, height))
    case (Some(a), Some(b)) => Some(Sub(a, b))
    case _ => None
  }

  /** The slope is the second difference p(f) - 2 p(f - 1) + p(f - 2) of the pixel
      positions, and it exists exactly when the three markers do. */
  lemma SlopeIsSecondDifference(t: Track, f: int, width: nat, height: nat)
    ensures Slope(t, f, width, height).Some? <==> Tracked(t, f) && Tracked(t, f - 1) && Tracked(t, f - 2)
    ensures Slope(t, f, width, height).Some? ==>
      var p0 := PixelPos(t, f, width, height).value;
      var p1 := PixelPos(t, f - 1, width, height).value;
      var p2 := PixelPos(t, f - 2, width, height).value;
      Slope(t, f, width, height).value == Vec2(p0.x - 2.0 * p1.x + p2.x, p0.y - 2.0 * p1.y + p2.y)
  {
  }

  /** The track with every marker moved by (dx, dy) in normalised coordinates. */
  function Shift(t: Track, dx: real, dy: real): Track
  {
    t.(markers := map f | f in t.markers :: t.markers[f].(x := t.markers[f].x + dx, y := t.markers[f].y + dy))
  }

  lemma ShiftedPixelPos(t: Track, f: int, dx: real, dy: real, width: nat, height: nat)
    requires f in t.markers
    ensures PixelPos(Shift(t, dx, dy), f, width, height).value ==
      Add(PixelPos(t, f, width, height).value, Vec2(dx * width as real, dy * height as real))
  {
    var m := t.markers[f];
    assert (m.x + dx) * width as real == m.x * width as real + dx * width as real;
    assert (m.y + dy) * height as real == m.y * height as real + dy * height as real;
  }

  /** Slopes are translation invariant: moving every marker of a track by the
      same offset leaves every slope unchanged. */
  lemma SlopeShiftInvariant(t: Track, f: int, dx: real, dy: real, width: nat, height: nat)
    ensures Slope(Shift(t, dx, dy), f, width, height) == Slope(t, f, width, height)
  {
    var s := Shift(t, dx, dy);
    SlopeIsSecondDifference(t, f, width, height);
    SlopeIsSecondDifference(s, f, width, height);
    if Tracked(t, f) && Tracked(t, f - 1) && Tracked(t, f - 2) {
      ShiftedPixelPos(t, f, dx, dy, width, height);
      ShiftedPixelPos(t, f - 1, dx, dy, width, height);
      ShiftedPixelPos(t, f - 2, dx, dy, width, height);
    }
  }

  // ----- window sums and averages -----

  /** The explicit window loop of filter_track_ends: `acc` plus the slopes of
      [lo, hi), added from lo upwards; None when a slope needs a missing marker. */
  function SlopeSumFrom(acc: Vec2, t: Track, lo: int, hi: int, width: nat, height: nat): Option<Vec2>
    decreases hi - lo
  {
    if hi <= lo then Some(acc)
    else match Slope(t, lo, width, height)
      case None => None
      case Some(s) => SlopeSumFrom(Add(acc, s), t, lo + 1, hi, width, height)
  }

  /** The window mean filter_track_ends compares a track's last slope with: the
      slopes of [f - e, f) summed and divided by e. None when the code raises:
      a slope needs a missing marker, or e is 0 (the vector division by zero). */
  function WindowMean(t: Track, f: int, e: nat, width: nat, height: nat): Option<Vec2>
  {
    match SlopeSumFrom(Zero, t, f - e, f, width, height)
    case None => None
    case Some(sum) => if e == 0 then None else Some(Div(sum, e as real))
  }

  lemma {:induction false} SlopeSumConstant(acc: Vec2, t: Track, lo: int, hi: int, c: Vec2, width: nat, height: nat)
    requires lo <= hi
    requires forall g :: lo <= g < hi ==> Slope(t, g, width, height) == Some(c)
    ensures SlopeSumFrom(acc, t, lo, hi, width, height).Some?
    ensures SlopeSumFrom(acc, t, lo, hi, width, height).value.x == acc.x + ((hi - lo) as real) * c.x
    ensures SlopeSumFrom(acc, t, lo, hi, width, height).value.y == acc.y + ((hi - lo) as real) * c.y
    decreases hi - lo
  {
    if lo < hi {
      SlopeSumConstant(Add(acc, c), t, lo + 1, hi, c, width, height);
    }
  }

  /** The window mean is a mean: when every slope of the window is c, it is c. */
  lemma WindowMeanOfConstant(t: Track, f: int, e: nat, c: Vec2, width: nat, height: nat)
    requires e >= 1
    requires forall g :: f - e <= g < f ==> Slope(t, g, width, height) == Some(c)
    ensures WindowMean(t, f, e, width, height).Some?
    ensures WindowMean(t, f, e, width, height).value == c
  {
    SlopeSumConstant(Zero, t, f - e, f, c, width, height);
    var sum := SlopeSumFrom(Zero, t, f - e, f, width, height).value;
    MeanOfScaled(sum, e as real, c);
  }

  /** n copies of c summed and divided by n give back c. */
  lemma MeanOfScaled(sum: Vec2, n: real, c: Vec2)
    requires n != 0.0
    requires sum.x == 0.0 + n * c.x && sum.y == 0.0 + n * c.y
    ensures Div(sum, n) == c
  {
    assert (n * c.x) / n == c.x;
    assert (n * c.y) / n == c.y;
  }

  /** The loop of get_average_slope as written: each step overwrites the
      accumulator with slope(g) and then adds it to itself. */
  function OverwriteFrom(acc: Vec2, t: Track, lo: int, hi: int, width: nat, height: nat): Option<Vec2>
    decreases hi - lo
  {
    if hi <= lo then Some(acc)
    else match Slope(t, lo, width, height)
      case None => None
      case Some(s) => OverwriteFrom(Add(s, s), t, lo + 1, hi, width, height)
  }

  /** get_average_slope as written, the accumulator loop divided by e; None when
      the code raises (a missing marker, or e == 0). */
  function AverageSlopeAsWritten(t: Track, f: int, e: nat, width: nat, height: nat): Option<Vec2>
  {
    match OverwriteFrom(Zero, t, f - e, f, width, height)
    case None => None
    case Some(a) => if e == 0 then None else Some(Div(a, e as real))
  }

  lemma {:induction false} OverwriteKeepsLast(a: Vec2, b: Vec2, t: Track, lo: int, hi: int, width: nat, height: nat)
    requires lo < hi
    ensures OverwriteFrom(a, t, lo, hi, width, height).Some? <==> SlopeSumFrom(b, t, lo, hi, width, height).Some?
    ensures OverwriteFrom(a, t, lo, hi, width, height).Some? ==>
      Slope(t, hi - 1, width, height).Some? &&
      OverwriteFrom(a, t, lo, hi, width, height).value ==
        Add(Slope(t, hi - 1, width, height).value, Slope(t, hi - 1, width, height).value)
    decreases hi - lo
  {
    match Slope(t, lo, width, height)
    case None =>
    case Some(s) =>
      if lo + 1 < hi {
        OverwriteKeepsLast(Add(s, s), Add(b, s), t, lo + 1, hi, width, height);
      }
  }

  /** The accumulator overwrite of get_average_slope: it raises exactly when the
      window mean does, and otherwise returns 2 * slope(f - 1) / e, whatever the
      other slopes of the window are. */
  lemma AverageSlopeOverwrites(t: Track, f: int, e: nat, width: nat, height: nat)
    ensures AverageSlopeAsWritten(t, f, e, width, height).Some? <==> WindowMean(t, f, e, width, height).Some?
    ensures AverageSlopeAsWritten(t, f, e, width, height).Some? ==>
      e >= 1 && Slope(t, f - 1, width, height).Some? &&
      AverageSlopeAsWritten(t, f, e, width, height).value ==
        Div(Add(Slope(t, f - 1, width, height).value, Slope(t, f - 1, width, height).value), e as real)
  {
    if e >= 1 {
      OverwriteKeepsLast(Zero, Zero, t, f - e, f, width, height);
    }
  }

  /** A track on which the two differ: x positions 0, 0, 0, 1 on frames 0..3. */
  function SampleTrack(): Track
  {
    Track("t", map[0 := Marker(0.0, 0.0, false), 1 := Marker(0.0, 0.0, false),
                   2 := Marker(0.0, 0.0, false), 3 := Marker(1.0, 0.0, false)],
          false, false, 1.0, map[])
  }

  /** On the window [2, 4) of SampleTrack the slopes are 0 and 1, so the mean is
      1/2 while the accumulator loop gives 2 * 1 / 2 = 1. */
  lemma AverageSlopeIsNotTheMean()
    ensures WindowMean(SampleTrack(), 4, 2, 1, 1) == Some(Vec2(0.5, 0.0))
    ensures AverageSlopeAsWritten(SampleTrack(), 4, 2, 1, 1) == Some(Vec2(1.0, 0.0))
  {
    var t := SampleTrack();
    SamplePositions();
    SlopeIsSecondDifference(t, 2, 1, 1);
    SlopeIsSecondDifference(t, 3, 1, 1);
    SlopesZeroThenOne(t);
  }

  /** The pixel positions of SampleTrack in a 1 x 1 clip. */
  lemma SamplePositions()
    ensures var t := SampleTrack();
      PixelPos(t, 0, 1, 1) == Some(Vec2(0.0, 0.0)) && PixelPos(t, 1, 1, 1) == Some(Vec2(0.0, 0.0)) &&
      PixelPos(t, 2, 1, 1) == Some(Vec2(0.0, 0.0)) && PixelPos(t, 3, 1, 1) == Some(Vec2(1.0, 0.0))
  {
  }

  /** Any track whose slopes on frames 2 and 3 are 0 and 1 (in x): over the
      window [2, 4) the mean is 1/2 and the accumulator loop gives 1. */
  lemma SlopesZeroThenOne(t: Track)
    requires Slope(t, 2, 1, 1) == Some(Vec2(0.0, 0.0)) && Slope(t, 3, 1, 1) == Some(Vec2(1.0, 0.0))
    ensures WindowMean(t, 4, 2, 1, 1) == Some(Vec2(0.5, 0.0))
    ensures AverageSlopeAsWritten(t, 4, 2, 1, 1) == Some(Vec2(1.0, 0.0))
  {
    assert SlopeSumFrom(Zero, t, 2, 4, 1, 1) == Some(Vec2(1.0, 0.0));
    assert OverwriteFrom(Zero, t, 2, 4, 1, 1) == Some(Vec2(2.0, 0.0));
  }

  /** get_average_slope with its loop, as the Python runs it. */
  method GetAverageSlope(t: Track, f: int, e: nat, width: nat, height: nat) returns (r: Option<Vec2>)
    ensures r == AverageSlopeAsWritten(t, f, e, width, height)
  {
    var average := Zero;
    var g := f - e;
    while g < f
      invariant f - e <= g <= f
      invariant OverwriteFrom(average, t, g, f, width, height) == OverwriteFrom(Zero, t, f - e, f, width, height)
    {
      var s := Slope(t, g, width, height);
      if s.None? {
        return None;
      }
      average := s.value;
      average := Add(average, average);
      g := g + 1;
    }
    if e == 0 {
      return None;
    }
    r := Some(Div(average, e as real));
  }

  // ----- the end-spike decision shared by both filter_track_ends -----

  /** The decision filter_track_ends takes for one valid track whose valid frames
      are `frames`, at its last valid frame f: Some(true) when the window check
      holds at f and the slope at f differs from the window mean by more than the
      threshold on some axis, Some(false) otherwise, None when the code raises
      (the slope at f or a window slope needs a missing marker, or e is 0). */
  function EndSpike(t: Track, frames: seq<int>, e: nat, threshold: int, width: nat, height: nat): Option<bool>
    requires frames != []
  {
    var f := Last(frames);
    match Slope(t, f, width, height)
    case None => None
    case Some(s) =>
      if !CheckEvalTime(t, f, e) then Some(false)
      else match WindowMean(t, f, e, width, height)
        case None => None
        case Some(m) => Some(Difference(s, m, 0) > threshold as real || Difference(s, m, 1) > threshold as real)
  }

  /** The first loop of filter_track_ends from track i on, with `acc` the tracks
      already marked for cleaning: the set of tracks whose last valid frame gets
      muted, or None when one of the decisions raises. */
  function EndSpikeScanFrom(acc: set<nat>, tracks: seq<Track>, valid: map<nat, seq<int>>, i: nat,
                            e: nat, threshold: int, width: nat, height: nat): Option<set<nat>>
    requires WellFormed(tracks, valid)
    decreases |tracks| - i
  {
    if i >= |tracks| then Some(acc)
    else if i !in valid then EndSpikeScanFrom(acc, tracks, valid, i + 1, e, threshold, width, height)
    else match EndSpike(tracks[i], valid[i], e, threshold, width, height)
      case None => None
      case Some(b) =>
        EndSpikeScanFrom(if b then acc + {i} else acc, tracks, valid, i + 1, e, threshold, width, height)
  }

  lemma {:induction false} EndSpikeScanSound(acc: set<nat>, tracks: seq<Track>, valid: map<nat, seq<int>>, i: nat,
                                             e: nat, threshold: int, width: nat, height: nat)
    requires WellFormed(tracks, valid)
    ensures var r := EndSpikeScanFrom(acc, tracks, valid, i, e, threshold, width, height);
      r.Some? ==> (acc <= r.value &&
        forall j :: j in r.value && j !in acc ==>
          (i <= j < |tracks| && j in valid && EndSpike(tracks[j], valid[j], e, threshold, width, height) == Some(true)))
    ensures var r := EndSpikeScanFrom(acc, tracks, valid, i, e, threshold, width, height);
      r.Some? ==> forall j :: (i <= j < |tracks| && j in valid &&
        EndSpike(tracks[j], valid[j], e, threshold, width, height) == Some(true)) ==> j in r.value
    decreases |tracks| - i
  {
    if i < |tracks| {
      if i !in valid {
        EndSpikeScanSound(acc, tracks, valid, i + 1, e, threshold, width, height);
      } else {
        match EndSpike(tracks[i], valid[i], e, threshold, width, height)
        case None =>
        case Some(b) =>
          EndSpikeScanSound(if b then acc + {i} else acc, tracks, valid, i + 1, e, threshold, width, height);
      }
    }
  }

  /** The scan of filter_track_ends marks exactly the valid tracks whose decision
      is to mute; a marked track always passed the window check at its last
      valid frame and deviated there by more than the threshold on some axis. */
  lemma EndSpikeScanMeaning(tracks: seq<Track>, valid: map<nat, seq<int>>, e: nat, threshold: int, width: nat, height: nat)
    requires WellFormed(tracks, valid)
    ensures var r := EndSpikeScanFrom({}, tracks, valid, 0, e, threshold, width, height);
      r.Some? ==> forall j :: j in r.value <==>
        j < |tracks| && j in valid && EndSpike(tracks[j], valid[j], e, threshold, width, height) == Some(true)
    ensures var r := EndSpikeScanFrom({}, tracks, valid, 0, e, threshold, width, height);
      r.Some? ==> forall j :: j in r.value ==>
        var f := Last(valid[j]);
        CheckEvalTime(tracks[j], f, e) && Slope(tracks[j], f, width, height).Some? &&
        WindowMean(tracks[j], f, e, width, height).Some? &&
        var s := Slope(tracks[j], f, width, height).value;
        var m := WindowMean(tracks[j], f, e, width, height).value;
        (Difference(s, m, 0) > threshold as real || Difference(s, m, 1) > threshold as real)
  {
    EndSpikeScanSound({}, tracks, valid, 0, e, threshold, width, height);
  }

  /** The second loop of filter_track_ends: the last valid frame of every
      marked track muted, every other track unchanged. */
  function MuteEnds(tracks: seq<Track>, valid: map<nat, seq<int>>, clean: set<nat>): (r: seq<Track>)
    requires WellFormed(tracks, valid)
    ensures |r| == |tracks|
  {
    seq(|tracks|, j requires 0 <= j < |tracks| =>
      if j in clean && j in valid then MuteAt(tracks[j], Last(valid[j])) else tracks[j])
  }

  /** filter_track_ends mutes at most one marker per track, always the one on its
      last valid frame, and changes nothing else. */
  lemma MuteEndsOneMarkerPerTrack(tracks: seq<Track>, valid: map<nat, seq<int>>, clean: set<nat>)
    requires WellFormed(tracks, valid)
    ensures forall j :: 0 <= j < |tracks| ==>
      var r := MuteEnds(tracks, valid, clean)[j];
      r.name == tracks[j].name && r.select == tracks[j].select && r.weightKeys == tracks[j].weightKeys &&
      r.markers.Keys == tracks[j].markers.Keys &&
      forall g :: g in tracks[j].markers && r.markers[g] != tracks[j].markers[g] ==>
        j in clean && g == Last(valid[j]) && r.markers[g] == tracks[j].markers[g].(mute := true)
  {
  }

  // ----- track lists and marker dictionaries -----

  /** The indices of the tracks satisfying p, in track order, as the list
      comprehensions and filtering loops over the track collection build them. */
  function IdsWhere(tracks: seq<Track>, p: Track -> bool): (ids: seq<nat>)
    ensures forall i :: i in ids <==> 0 <= i < |tracks| && p(tracks[i])
    ensures Increasing(ids)
    decreases |tracks|
  {
    if tracks == [] then []
    else
      var prefix := tracks[..|tracks| - 1];
      assert forall i :: 0 <= i < |prefix| ==> prefix[i] == tracks[i];
      var rest := IdsWhere(prefix, p);
      assert forall k :: 0 <= k < |rest| ==> rest[k] in rest;
      rest + (if p(tracks[|tracks| - 1]) then [|tracks| - 1] else [])
  }

  /** The dictionary the get_marker_list functions build: each track passing
      `keep` with more than minLen tracked frames in [fs, fe), mapped to the
      list of those frames. */
  function MarkerMap(tracks: seq<Track>, keep: Track -> bool, fs: int, fe: int, minLen: int): map<nat, seq<int>>
  {
    map i | i in AllIds(|tracks|) && keep(tracks[i]) && |Frames(tracks[i], TrackedFrame, fs, fe)| > minLen
      :: Frames(tracks[i], TrackedFrame, fs, fe)
  }

  /** A marker dictionary holds exactly the including tracks with more than
      minLen tracked frames, each with the increasing list of exactly its
      tracked frames in [fs, fe). */
  lemma MarkerMapMeaning(tracks: seq<Track>, keep: Track -> bool, fs: int, fe: int, minLen: int)
    ensures var m := MarkerMap(tracks, keep, fs, fe, minLen);
      forall i :: i in m <==> 0 <= i < |tracks| && keep(tracks[i]) && |Frames(tracks[i], TrackedFrame, fs, fe)| > minLen
    ensures var m := MarkerMap(tracks, keep, fs, fe, minLen);
      forall i :: i in m ==> Increasing(m[i]) && forall f :: f in m[i] <==> fs <= f < fe && Tracked(tracks[i], f)
  {
    var m := MarkerMap(tracks, keep, fs, fe, minLen);
    forall i | 0 <= i < |tracks|
      ensures i in AllIds(|tracks|)
    {
      assert AllIds(|tracks|)[i] == i;
    }
    forall i | i in m
      ensures Increasing(m[i]) && forall f :: f in m[i] <==> fs <= f < fe && Tracked(tracks[i], f)
    {
      FramesMeaning(tracks[i], TrackedFrame, fs, fe);
    }
  }

  /** The loops of get_marker_list: for each track in order, the tracked frames
      of [fs, fe) are appended to a list, which is stored under the track when
      it holds more than minLen frames. */
  method CollectMarkerLists(tracks: seq<Track>, keep: Track -> bool, fs: int, fe: int, minLen: int)
    returns (dict: map<nat, seq<int>>)
    ensures dict == MarkerMap(tracks, keep, fs, fe, minLen)
  {
    dict := map[];
    var t := 0;
    while t < |tracks|
      invariant 0 <= t <= |tracks|
      invariant dict == MarkerMap(tracks[..t], keep, fs, fe, minLen)
    {
      if keep(tracks[t]) {
        var list: seq<int> := [];
        var f := fs;
        while f < fe
          invariant fs <= f && (f <= fe || f == fs)
          invariant list == Frames(tracks[t], TrackedFrame, fs, f)
        {
          if Tracked(tracks[t], f) {
            list := list + [f];
          }
          f := f + 1;
        }
        if |list| > minLen {
          dict := dict[t := list];
        }
      }
      MarkerMapSnoc(tracks, t, keep, fs, fe, minLen);
      t := t + 1;
    }
    assert tracks[..t] == tracks;
  }

  lemma MarkerMapSnoc(tracks: seq<Track>, t: nat, keep: Track -> bool, fs: int, fe: int, minLen: int)
    requires t < |tracks|
    ensures var l := Frames(tracks[t], TrackedFrame, fs, fe);
      MarkerMap(tracks[..t + 1], keep, fs, fe, minLen) ==
        if keep(tracks[t]) && |l| > minLen then MarkerMap(tracks[..t], keep, fs, fe, minLen)[t := l]
        else MarkerMap(tracks[..t], keep, fs, fe, minLen)
  {
    var l := Frames(tracks[t], TrackedFrame, fs, fe);
    var a := MarkerMap(tracks[..t + 1], keep, fs, fe, minLen);
    var b := if keep(tracks[t]) && |l| > minLen then MarkerMap(tracks[..t], keep, fs, fe, minLen)[t := l]
             else MarkerMap(tracks[..t], keep, fs, fe, minLen);
    forall i ensures i in a <==> i in b {
      if 0 <= i <= t {
        assert AllIds(t + 1)[i] == i;
      }
      if 0 <= i < t {
        assert AllIds(t)[i] == i;
      }
    }
    assert a.Keys == b.Keys;
  }

  // ----- foreground selection shared by select_foreground and filter_foreground -----

  /** The comparison cohort for track i at frame f: the candidates, in order,
      that are not i and pass the window check at f. */
  function Cohort(tracks: seq<Track>, cands: seq<nat>, i: nat, f: int, e: nat): (r: seq<nat>)
    requires forall k :: 0 <= k < |cands| ==> cands[k] < |tracks|
    ensures forall j :: j in r <==> j in cands && j != i && CheckEvalTime(tracks[j], f, e)
    ensures forall k :: 0 <= k < |r| ==> r[k] < |tracks|
    decreases |cands|
  {
    if cands == [] then []
    else
      var c := cands[|cands| - 1];
      Cohort(tracks, cands[..|cands| - 1], i, f, e) + (if CheckEvalTime(tracks[c], f, e) && c != i then [c] else [])
  }

  /** `acc` plus the average slopes of the cohort members, added in cohort
      order; None when one of them raises. */
  function CohortSumFrom(acc: Vec2, tracks: seq<Track>, cohort: seq<nat>, f: int, e: nat, width: nat, height: nat): Option<Vec2>
    requires forall k :: 0 <= k < |cohort| ==> cohort[k] < |tracks|
    decreases |cohort|
  {
    if cohort == [] then Some(acc)
    else match AverageSlopeAsWritten(tracks[cohort[0]], f, e, width, height)
      case None => None
      case Some(a) => CohortSumFrom(Add(acc, a), tracks, cohort[1..], f, e, width, height)
  }

  /** The foreground test for track i with valid frames `frames`, at its last
      valid frame f: Some(true) when the track passes the window check at f and
      its average slope differs from the cohort's mean average slope, times e,
      by more than the threshold on some axis; Some(false) when it does not;
      None when the code raises (a missing marker, e == 0, or an empty cohort). */
  function ForegroundDecision(tracks: seq<Track>, cands: seq<nat>, i: nat, frames: seq<int>,
                              e: nat, threshold: int, width: nat, height: nat): Option<bool>
    requires i < |tracks| && frames != []
    requires forall k :: 0 <= k < |cands| ==> cands[k] < |tracks|
  {
    var f := Last(frames);
    if !CheckEvalTime(tracks[i], f, e) then Some(false)
    else match AverageSlopeAsWritten(tracks[i], f, e, width, height)
      case None => None
      case Some(own) =>
        var cohort := Cohort(tracks, cands, i, f, e);
        match CohortSumFrom(Zero, tracks, cohort, f, e, width, height)
        case None => None
        case Some(sum) =>
          if |cohort| == 0 then None
          else
            Some(Deviates(own, Div(sum, |cohort| as real), e, threshold))
  }

  /** The main loop of the foreground selection from track i on, over the valid
      tracks in dictionary order; `acc` holds the tracks already chosen. None
      when a decision raises. */
  function ForegroundScanFrom(acc: set<nat>, tracks: seq<Track>, valid: map<nat, seq<int>>, cands: seq<nat>, i: nat,
                              e: nat, threshold: int, width: nat, height: nat): Option<set<nat>>
    requires WellFormed(tracks, valid)
    requires forall k :: 0 <= k < |cands| ==> cands[k] < |tracks|
    decreases |tracks| - i
  {
    if i >= |tracks| then Some(acc)
    else if i !in valid then ForegroundScanFrom(acc, tracks, valid, cands, i + 1, e, threshold, width, height)
    else match ForegroundDecision(tracks, cands, i, valid[i], e, threshold, width, height)
      case None => None
      case Some(b) =>
        ForegroundScanFrom(if b then acc + {i} else acc, tracks, valid, cands, i + 1, e, threshold, width, height)
  }

  lemma {:induction false} ForegroundScanSound(acc: set<nat>, tracks: seq<Track>, valid: map<nat, seq<int>>, cands: seq<nat>, i: nat,
                                               e: nat, threshold: int, width: nat, height: nat)
    requires WellFormed(tracks, valid)
    requires forall k :: 0 <= k < |cands| ==> cands[k] < |tracks|
    ensures var r := ForegroundScanFrom(acc, tracks, valid, cands, i, e, threshold, width, height);
      r.Some? ==> (acc <= r.value &&
        forall j :: j in r.value && j !in acc ==>
          (i <= j < |tracks| && j in valid && ForegroundDecision(tracks, cands, j, valid[j], e, threshold, width, height) == Some(true)))
    decreases |tracks| - i
  {
    if i < |tracks| {
      if i !in valid {
        ForegroundScanSound(acc, tracks, valid, cands, i + 1, e, threshold, width, height);
      } else {
        match ForegroundDecision(tracks, cands, i, valid[i], e, threshold, width, height)
        case None =>
        case Some(b) =>
          ForegroundScanSound(if b then acc + {i} else acc, tracks, valid, cands, i + 1, e, threshold, width, height);
      }
    }
  }

  lemma {:induction false} ForegroundScanComplete(acc: set<nat>, tracks: seq<Track>, valid: map<nat, seq<int>>, cands: seq<nat>, i: nat,
                                                  e: nat, threshold: int, width: nat, height: nat)
    requires WellFormed(tracks, valid)
    requires forall k :: 0 <= k < |cands| ==> cands[k] < |tracks|
    ensures var r := ForegroundScanFrom(acc, tracks, valid, cands, i, e, threshold, width, height);
      r.Some? ==> forall j :: (i <= j < |tracks| && j in valid &&
        ForegroundDecision(tracks, cands, j, valid[j], e, threshold, width, height) == Some(true)) ==> j in r.value
    decreases |tracks| - i
  {
    if i < |tracks| {
      if i !in valid {
        ForegroundScanComplete(acc, tracks, valid, cands, i + 1, e, threshold, width, height);
      } else {
        match ForegroundDecision(tracks, cands, i, valid[i], e, threshold, width, height)
        case None =>
        case Some(b) =>
          ForegroundScanComplete(if b then acc + {i} else acc, tracks, valid, cands, i + 1, e, threshold, width, height);
          ForegroundScanSound(if b then acc + {i} else acc, tracks, valid, cands, i + 1, e, threshold, width, height);
      }
    }
  }

  /** The foreground scan chooses exactly the valid tracks whose decision is
      positive. */
  lemma ForegroundScanMeaning(tracks: seq<Track>, valid: map<nat, seq<int>>, cands: seq<nat>,
                              e: nat, threshold: int, width: nat, height: nat)
    requires WellFormed(tracks, valid)
    requires forall k :: 0 <= k < |cands| ==> cands[k] < |tracks|
    ensures var r := ForegroundScanFrom({}, tracks, valid, cands, 0, e, threshold, width, height);
      r.Some? ==> forall j :: j in r.value <==>
        j < |tracks| && j in valid && ForegroundDecision(tracks, cands, j, valid[j], e, threshold, width, height) == Some(true)
  {
    ForegroundScanSound({}, tracks, valid, cands, 0, e, threshold, width, height);
    ForegroundScanComplete({}, tracks, valid, cands, 0, e, threshold, width, height);
  }

  /** The per-axis foreground test: |own - mean| * e above the threshold on some axis. */
  predicate Deviates(own: Vec2, mean: Vec2, e: nat, threshold: int)
  {
    Difference(own, mean, 0) * e as real > threshold as real || Difference(own, mean, 1) * e as real > threshold as real
  }

  /** A positive foreground decision means the track passed the window check
      at its last valid frame, had a non-empty cohort, and its average slope
      deviated from the cohort mean, times e, by more than the threshold on
      some axis. */
  lemma ForegroundDecisionMeaning(tracks: seq<Track>, cands: seq<nat>, i: nat, frames: seq<int>,
                                  e: nat, threshold: int, width: nat, height: nat)
    requires i < |tracks| && frames != []
    requires forall k :: 0 <= k < |cands| ==> cands[k] < |tracks|
    requires ForegroundDecision(tracks, cands, i, frames, e, threshold, width, height) == Some(true)
    ensures CheckEvalTime(tracks[i], Last(frames), e)
    ensures AverageSlopeAsWritten(tracks[i], Last(frames), e, width, height).Some?
    ensures |Cohort(tracks, cands, i, Last(frames), e)| > 0
    ensures CohortSumFrom(Zero, tracks, Cohort(tracks, cands, i, Last(frames), e), Last(frames), e, width, height).Some?
    ensures Deviates(AverageSlopeAsWritten(tracks[i], Last(frames), e, width, height).value,
                     Div(CohortSumFrom(Zero, tracks, Cohort(tracks, cands, i, Last(frames), e), Last(frames), e, width, height).value,
                         |Cohort(tracks, cands, i, Last(frames), e)| as real),
                     e, threshold)
  {
  }

  /** With no other candidate passing the window check, the division by the
      cohort size raises: a track that passes its own check and has an average
      slope makes the decision raise. */
  lemma EmptyCohortRaises(tracks: seq<Track>, cands: seq<nat>, i: nat, frames: seq<int>,
                          e: nat, threshold: int, width: nat, height: nat)
    requires i < |tracks| && frames != []
    requires forall k :: 0 <= k < |cands| ==> cands[k] < |tracks|
    requires CheckEvalTime(tracks[i], Last(frames), e)
    requires AverageSlopeAsWritten(tracks[i], Last(frames), e, width, height).Some?
    requires forall k :: 0 <= k < |cands| && cands[k] != i ==> !CheckEvalTime(tracks[cands[k]], Last(frames), e)
    ensures ForegroundDecision(tracks, cands, i, frames, e, threshold, width, height) == None
  {
    CohortEmpty(tracks, cands, i, Last(frames), e);
  }

  lemma {:induction false} CohortEmpty(tracks: seq<Track>, cands: seq<nat>, i: nat, f: int, e: nat)
    requires forall k :: 0 <= k < |cands| ==> cands[k] < |tracks|
    requires forall k :: 0 <= k < |cands| && cands[k] != i ==> !CheckEvalTime(tracks[cands[k]], f, e)
    ensures Cohort(tracks, cands, i, f, e) == []
    decreases |cands|
  {
    if cands != [] {
      CohortEmpty(tracks, cands[..|cands| - 1], i, f, e);
    }
  }

  /** The last loop of the foreground selection: every chosen track gets
      select = True. */
  function SelectAll(tracks: seq<Track>, chosen: set<nat>): (r: seq<Track>)
    ensures |r| == |tracks|
  {
    seq(|tracks|, j requires 0 <= j < |tracks| => if j in chosen then tracks[j].(select := true) else tracks[j])
  }

  /** Selecting never deselects, selects every chosen track and changes nothing
      but the select flag. */
  lemma SelectAllOnlySelects(tracks: seq<Track>, chosen: set<nat>)
    ensures forall j :: 0 <= j < |tracks| ==>
      var r := SelectAll(tracks, chosen)[j];
      (r.select <==> tracks[j].select || j in chosen) && r == tracks[j].(select := r.select)
  {
  }

  // ----- the per-track steps of the filter loops -----

  /** The body of the decision loop of filter_track_ends for one valid track:
      the slope at its last valid frame, the window check, the window loop that
      sums the slopes, the division, and the two per-axis tests. */
  method DecideEndSpike(t: Track, frames: seq<int>, evalTime: nat, threshold: int, width: nat, height: nat)
    returns (d: Option<bool>)
    requires frames != []
    ensures d == EndSpike(t, frames, evalTime, threshold, width, height)
  {
    var f := frames[|frames| - 1];
    var trackSlope := Slope(t, f, width, height);
    if trackSlope.None? {
      return None;
    }
    if !CheckEvalTime(t, f, evalTime) {
      return Some(false);
    }
    var averageSlope := Zero;
    var g := f - evalTime;
    while g < f
      invariant f - evalTime <= g <= f
      invariant SlopeSumFrom(averageSlope, t, g, f, width, height) == SlopeSumFrom(Zero, t, f - evalTime, f, width, height)
    {
      var avSlope := Slope(t, g, width, height);
      if avSlope.None? {
        return None;
      }
      averageSlope := Add(averageSlope, avSlope.value);
      g := g + 1;
    }
    if evalTime == 0 {
      return None;
    }
    averageSlope := Div(averageSlope, evalTime as real);
    var clean := false;
    if !clean && Difference(trackSlope.value, averageSlope, 0) > threshold as real {
      clean := true;
    }
    if !clean && Difference(trackSlope.value, averageSlope, 1) > threshold as real {
      clean := true;
    }
    d := Some(clean);
  }

  /** The muting loop of filter_track_ends: the marker on the last valid frame
      of every marked track is muted. */
  method MuteLastFrames(clip: Clip, valid: map<nat, seq<int>>, toClean: set<nat>)
    requires WellFormed(clip.tracks, valid)
    modifies clip
    ensures clip.tracks == MuteEnds(old(clip.tracks), valid, toClean)
  {
    ghost var tracks0 := clip.tracks;
    var j := 0;
    while j < |clip.tracks|
      invariant 0 <= j <= |clip.tracks| && |clip.tracks| == |tracks0|
      invariant clip.tracks == MuteEnds(tracks0, valid, set x | x in toClean && x < j)
    {
      if j in toClean && j in valid {
        clip.tracks := clip.tracks[j := MuteAt(clip.tracks[j], Last(valid[j]))];
      }
      j := j + 1;
    }
    assert (set x | x in toClean && x < j) == (set x | x in toClean && x < |tracks0|);
    assert MuteEnds(tracks0, valid, set x | x in toClean && x < |tracks0|) == MuteEnds(tracks0, valid, toClean);
  }

  /** The cohort loop of the foreground selection: the candidates other than i
      that pass the window check at f, in order. */
  method CollectCohort(tracks: seq<Track>, cands: seq<nat>, i: nat, f: int, evalTime: nat) returns (cohort: seq<nat>)
    requires forall k :: 0 <= k < |cands| ==> cands[k] < |tracks|
    ensures cohort == Cohort(tracks, cands, i, f, evalTime)
  {
    cohort := [];
    var c := 0;
    while c < |cands|
      invariant 0 <= c <= |cands|
      invariant cohort == Cohort(tracks, cands[..c], i, f, evalTime)
    {
      assert cands[..c + 1][..c] == cands[..c];
      if CheckEvalTime(tracks[cands[c]], f, evalTime) && cands[c] != i {
        cohort := cohort + [cands[c]];
      }
      c := c + 1;
    }
    assert cands[..c] == cands;
  }

  /** The loop adding up the average slopes of the cohort. */
  method SumCohort(tracks: seq<Track>, cohort: seq<nat>, f: int, evalTime: nat, width: nat, height: nat)
    returns (sum: Option<Vec2>)
    requires forall k :: 0 <= k < |cohort| ==> cohort[k] < |tracks|
    ensures sum == CohortSumFrom(Zero, tracks, cohort, f, evalTime, width, height)
  {
    var globalAverage := Zero;
    var k := 0;
    while k < |cohort|
      invariant 0 <= k <= |cohort|
      invariant CohortSumFrom(globalAverage, tracks, cohort[k..], f, evalTime, width, height) ==
        CohortSumFrom(Zero, tracks, cohort, f, evalTime, width, height)
    {
      assert cohort[k..][0] == cohort[k];
      assert cohort[k..][1..] == cohort[k + 1..];
      var otherAverage := GetAverageSlope(tracks[cohort[k]], f, evalTime, width, height);
      if otherAverage.None? {
        return None;
      }
      globalAverage := Add(globalAverage, otherAverage.value);
      k := k + 1;
    }
    assert cohort[k..] == [];
    sum := Some(globalAverage);
  }

  /** The foreground decision of a track that passed the window check, in
      terms of its own average, its cohort and their sum. */
  lemma ForegroundDecisionUnfold(tracks: seq<Track>, cands: seq<nat>, i: nat, frames: seq<int>,
                                 evalTime: nat, threshold: int, width: nat, height: nat)
    requires i < |tracks| && frames != []
    requires forall k :: 0 <= k < |cands| ==> cands[k] < |tracks|
    requires CheckEvalTime(tracks[i], Last(frames), evalTime)
    ensures var f := Last(frames);
      var own := AverageSlopeAsWritten(tracks[i], f, evalTime, width, height);
      var cohort := Cohort(tracks, cands, i, f, evalTime);
      var sum := CohortSumFrom(Zero, tracks, cohort, f, evalTime, width, height);
      ForegroundDecision(tracks, cands, i, frames, evalTime, threshold, width, height) ==
        if own.None? || sum.None? || |cohort| == 0 then None
        else Some(Deviates(own.value, Div(sum.value, |cohort| as real), evalTime, threshold))
  {
  }

  /** The body of the foreground loop for one valid track i that passed the
      window check: its own average slope, the cohort, the sum of the cohort's
      average slopes, the division by the cohort size and the two per-axis
      tests. */
  method DecideForeground(tracks: seq<Track>, cands: seq<nat>, i: nat, frames: seq<int>,
                          evalTime: nat, threshold: int, width: nat, height: nat) returns (d: Option<bool>)
    requires i < |tracks| && frames != []
    requires forall k :: 0 <= k < |cands| ==> cands[k] < |tracks|
    requires CheckEvalTime(tracks[i], Last(frames), evalTime)
    ensures d == ForegroundDecision(tracks, cands, i, frames, evalTime, threshold, width, height)
  {
    ForegroundDecisionUnfold(tracks, cands, i, frames, evalTime, threshold, width, height);
    var f := frames[|frames| - 1];
    var trackAverage := GetAverageSlope(tracks[i], f, evalTime, width, height);
    if trackAverage.None? {
      return None;
    }
    var currentlyValid := CollectCohort(tracks, cands, i, f, evalTime);
    var sum := SumCohort(tracks, currentlyValid, f, evalTime, width, height);
    if sum.None? {
      return None;
    }
    if |currentlyValid| == 0 {
      return None;
    }
    var globalAverage := Div(sum.value, |currentlyValid| as real);
    var chosen := Deviates(trackAverage.value, globalAverage, evalTime, threshold);
    d := Some(chosen);
  }

  /** The decision loop of the foreground selection over the valid tracks in
      dictionary order, appending each chosen track to the `foreground` list;
      None when a decision raises. */
  method ChooseForeground(tracks: seq<Track>, valid: map<nat, seq<int>>, cands: seq<nat>,
                          evalTime: nat, threshold: int, width: nat, height: nat) returns (r: Option<seq<nat>>)
    requires WellFormed(tracks, valid)
    requires forall k :: 0 <= k < |cands| ==> cands[k] < |tracks|
    ensures var scan := ForegroundScanFrom({}, tracks, valid, cands, 0, evalTime, threshold, width, height);
      r.Some? == scan.Some? &&
      (r.Some? ==> (forall x :: x in r.value <==> x in scan.value) && forall k :: 0 <= k < |r.value| ==> r.value[k] < |tracks|)
  {
    var foreground: seq<nat> := [];
    ghost var chosenSet: set<nat> := {};
    var i := 0;
    while i < |tracks|
      invariant 0 <= i <= |tracks|
      invariant forall k :: 0 <= k < |foreground| ==> foreground[k] < i
      invariant forall x :: x in chosenSet <==> x in foreground
      invariant ForegroundScanFrom(chosenSet, tracks, valid, cands, i, evalTime, threshold, width, height) ==
        ForegroundScanFrom({}, tracks, valid, cands, 0, evalTime, threshold, width, height)
    {
      if i in valid {
        var f := valid[i][|valid[i]| - 1];
        if CheckEvalTime(tracks[i], f, evalTime) && i !in foreground {
          var chosen := DecideForeground(tracks, cands, i, valid[i], evalTime, threshold, width, height);
          if chosen.None? {
            return None;
          }
          if chosen.value {
            foreground := foreground + [i];
            chosenSet := chosenSet + {i};
          }
        } else {
          assert i !in foreground;
        }
      }
      i := i + 1;
    }
    r := Some(foreground);
  }

  /** `for t in list: t.select = True`. */
  method SelectListed(clip: Clip, list: seq<nat>)
    requires forall k :: 0 <= k < |list| ==> list[k] < |clip.tracks|
    modifies clip
    ensures clip.tracks == SelectAll(old(clip.tracks), set x | x in list)
  {
    ghost var tracks0 := clip.tracks;
    var k := 0;
    while k < |list|
      invariant 0 <= k <= |list| && |clip.tracks| == |tracks0|
      invariant clip.tracks == SelectAll(tracks0, set x | x in list[..k])
    {
      assert list[..k + 1] == list[..k] + [list[k]];
      clip.tracks := clip.tracks[list[k] := clip.tracks[list[k]].(select := true)];
      k := k + 1;
    }
    assert list[..k] == list;
  }


  // ----- weights -----

  /** The value the animated weight of a track has on frame f: the keyframe on f
      when there is one, the stored weight otherwise. */
  function WeightAt(t: Track, f: int): real
  {
    if f in t.weightKeys then t.weightKeys[f] else t.weight
  }

  /** A zero-weighted track: its weight is at most 0 on every frame of [fs, fe). */
  predicate ZeroWeighted(t: Track, fs: int, fe: int)
  {
    forall f :: fs <= f < fe ==> WeightAt(t, f) <= 0.0
  }

  /** The keys insert_keyframe sets on one track whose frame list is `frames`:
      with f1 = frames[0] and f4 = frames[-2], weight 0 on f1 and 1 on f1 + T when
      f1 - frameStart > T, then the weight the track holds on f4 - T and 0 on f4
      when frameEnd - f4 + 1 > T; the track keeps the last weight assigned. */
  function FadeTrack(t: Track, frames: seq<int>, frameStart: int, frameEnd: int, fadeTime: nat): Track
    requires |frames| >= 2
  {
    var f1 := frames[0];
    var f4 := frames[|frames| - 2];
    var started :=
      if f1 - frameStart > fadeTime
      then t.(weight := 1.0, weightKeys := t.weightKeys[f1 := 0.0][f1 + fadeTime := 1.0])
      else t;
    if frameEnd - f4 + 1 > fadeTime
    then started.(weight := 0.0, weightKeys := started.weightKeys[f4 - fadeTime := started.weight][f4 := 0.0])
    else started
  }

  /** The frame the marker_weight variant leaves the scene on after keying one
      track: f4 when the end was keyed, else f1 + T when the start was. */
  function FadeLastFrame(frames: seq<int>, frameStart: int, frameEnd: int, fadeTime: nat): Option<int>
    requires |frames| >= 2
  {
    var f1 := frames[0];
    var f4 := frames[|frames| - 2];
    if frameEnd - f4 + 1 > fadeTime then Some(f4)
    else if f1 - frameStart > fadeTime then Some(f1 + fadeTime)
    else None
  }

  /** Keying touches only the weight and the keys on f1, f1 + T, f4 - T and f4;
      a track keyed at neither end is unchanged. */
  lemma FadeTrackFrame(t: Track, frames: seq<int>, fs: int, fe: int, fadeTime: nat)
    requires |frames| >= 2
    ensures var r := FadeTrack(t, frames, fs, fe, fadeTime);
      var f1 := frames[0];
      var f4 := frames[|frames| - 2];
      r.markers == t.markers && r.select == t.select && r.hide == t.hide && r.name == t.name &&
      (forall g :: g != f1 && g != f1 + fadeTime && g != f4 - fadeTime && g != f4 ==>
         WeightAt(r, g) == WeightAt(t, g) || (g !in t.weightKeys && r.weight != t.weight)) &&
      (forall g :: g != f1 && g != f1 + fadeTime && g != f4 - fadeTime && g != f4 ==>
         (g in r.weightKeys <==> g in t.weightKeys) && (g in t.weightKeys ==> r.weightKeys[g] == t.weightKeys[g])) &&
      (!(f1 - fs > fadeTime) && !(fe - f4 + 1 > fadeTime) ==> r == t)
  {
  }

  /** The trapezoid: when both ends are keyed, T >= 1 and the fade-in ends before
      the fade-out starts, the keys are 0, 1, 1, 0 on f1, f1 + T, f4 - T, f4 and the
      track ends with weight 0. */
  lemma FadeTrackTrapezoid(t: Track, frames: seq<int>, fs: int, fe: int, fadeTime: nat)
    requires |frames| >= 2 && fadeTime >= 1
    requires frames[0] - fs > fadeTime && fe - frames[|frames| - 2] + 1 > fadeTime
    requires frames[0] + fadeTime < frames[|frames| - 2] - fadeTime
    ensures var r := FadeTrack(t, frames, fs, fe, fadeTime);
      var f1 := frames[0];
      var f4 := frames[|frames| - 2];
      r.weightKeys[f1] == 0.0 && r.weightKeys[f1 + fadeTime] == 1.0 &&
      r.weightKeys[f4 - fadeTime] == 1.0 && r.weightKeys[f4] == 0.0 && r.weight == 0.0
  {
  }

  /** Keying only the end holds the track's own weight on f4 - T before dropping
      to 0 on f4. */
  lemma FadeTrackEndOnly(t: Track, frames: seq<int>, fs: int, fe: int, fadeTime: nat)
    requires |frames| >= 2 && fadeTime >= 1
    requires !(frames[0] - fs > fadeTime) && fe - frames[|frames| - 2] + 1 > fadeTime
    ensures var r := FadeTrack(t, frames, fs, fe, fadeTime);
      var f4 := frames[|frames| - 2];
      r.weightKeys[f4 - fadeTime] == t.weight && r.weightKeys[f4] == 0.0 && r.weight == 0.0
  {
  }

  /** Where the insert_keyframe loop stops over n tracks: at the first short
      list, or after the last track. */
  function KeyingStop(dict: map<nat, seq<int>>, n: nat): (k: nat)
    ensures k <= n
  {
    match FirstShortList(dict, 0, n)
    case Some(j) => j
    case None => n
  }

  /** The first track of [i, n) in the dictionary whose list is too short for
      `list[-2]`: the insert_keyframe loop raises IndexError there. */
  function FirstShortList(dict: map<nat, seq<int>>, i: nat, n: nat): (r: Option<nat>)
    ensures r.Some? ==> i <= r.value < n && r.value in dict && |dict[r.value]| < 2
    ensures r.Some? ==> forall j :: i <= j < r.value && j in dict ==> |dict[j]| >= 2
    ensures r.None? ==> forall j :: i <= j < n && j in dict ==> |dict[j]| >= 2
    decreases n - i
  {
    if i >= n then None
    else if i in dict && |dict[i]| < 2 then Some(i)
    else FirstShortList(dict, i + 1, n)
  }

  /** A dictionary whose every list holds two frames or more never stops the
      keying loop. */
  lemma {:induction false} NoShortList(dict: map<nat, seq<int>>, i: nat, n: nat)
    requires forall j :: j in dict ==> |dict[j]| >= 2
    ensures FirstShortList(dict, i, n).None?
    decreases n - i
  {
    if i < n {
      NoShortList(dict, i + 1, n);
    }
  }

  /** The tracks after insert_keyframe has keyed every dictionary track below k. */
  function FadeTracksBelow(tracks: seq<Track>, dict: map<nat, seq<int>>, fs: int, fe: int, fadeTime: nat, k: nat): (r: seq<Track>)
    ensures |r| == |tracks|
  {
    seq(|tracks|, j requires 0 <= j < |tracks| =>
      if j < k && j in dict && |dict[j]| >= 2 then FadeTrack(tracks[j], dict[j], fs, fe, fadeTime) else tracks[j])
  }

  /** The last frame the marker_weight variant assigns while keying the
      dictionary tracks below k (None: it assigns none). */
  function LastFadeFrameBelow(dict: map<nat, seq<int>>, fs: int, fe: int, fadeTime: nat, k: nat): Option<int>
  {
    if k == 0 then None
    else if k - 1 in dict && |dict[k - 1]| >= 2 && FadeLastFrame(dict[k - 1], fs, fe, fadeTime).Some?
    then FadeLastFrame(dict[k - 1], fs, fe, fadeTime)
    else LastFadeFrameBelow(dict, fs, fe, fadeTime, k - 1)
  }

  /** Keying one more track: the track below the new bound is faded when its
      list is in the dictionary and long enough, and nothing else changes. */
  lemma FadeTracksStep(tracks: seq<Track>, dict: map<nat, seq<int>>, fs: int, fe: int, fadeTime: nat, i: nat)
    requires i < |tracks|
    ensures FadeTracksBelow(tracks, dict, fs, fe, fadeTime, i + 1) ==
      if i in dict && |dict[i]| >= 2
      then FadeTracksBelow(tracks, dict, fs, fe, fadeTime, i)[i := FadeTrack(tracks[i], dict[i], fs, fe, fadeTime)]
      else FadeTracksBelow(tracks, dict, fs, fe, fadeTime, i)
  {
    var a := FadeTracksBelow(tracks, dict, fs, fe, fadeTime, i);
    var b := FadeTracksBelow(tracks, dict, fs, fe, fadeTime, i + 1);
    var c := if i in dict && |dict[i]| >= 2 then a[i := FadeTrack(tracks[i], dict[i], fs, fe, fadeTime)] else a;
    forall j | 0 <= j < |b|
      ensures b[j] == c[j]
    {
    }
  }

  /** The body of the keying loop for one track whose list has at least two
      frames: set the weight, insert a key recording it, and so on. `last` is
      the frame the marker_weight variant leaves the scene on, if any. */
  method KeyFade(track: Track, list: seq<int>, frameStart: int, frameEnd: int, fadeTime: nat)
    returns (t: Track, last: Option<int>)
    requires |list| >= 2
    ensures t == FadeTrack(track, list, frameStart, frameEnd, fadeTime)
    ensures last == FadeLastFrame(list, frameStart, frameEnd, fadeTime)
  {
    t := track;
    last := None;
    var f1 := list[0];
    var f2 := list[0] + fadeTime;
    var f3 := list[|list| - 2] - fadeTime;
    var f4 := list[|list| - 2];
    if f1 - frameStart > fadeTime {
      t := t.(weight := 0.0);
      t := t.(weightKeys := t.weightKeys[f1 := t.weight]);
      t := t.(weight := 1.0);
      t := t.(weightKeys := t.weightKeys[f2 := t.weight]);
      last := Some(f2);
    }
    if frameEnd - f4 + 1 > fadeTime {
      t := t.(weightKeys := t.weightKeys[f3 := t.weight]);
      t := t.(weight := 0.0);
      t := t.(weightKeys := t.weightKeys[f4 := t.weight]);
      last := Some(f4);
    }
  }

  /** The keying loop shared by the three insert_keyframe functions, step by
      step: it sets the weight, inserts a key recording it, and so on, in
      dictionary order; it stops (IndexError) at the first list shorter than two
      frames, after keying the tracks before it. `lastFrame` is the last frame
      that the marker_weight variant assigns to the scene on the way. */
  method InsertWeightKeys(clip: Clip, frameStart: int, frameEnd: int, fadeTime: nat, dict: map<nat, seq<int>>)
    returns (ok: bool, lastFrame: Option<int>)
    requires forall i :: i in dict ==> i < |clip.tracks|
    modifies clip
    ensures ok == FirstShortList(dict, 0, |old(clip.tracks)|).None?
    ensures clip.tracks ==
      FadeTracksBelow(old(clip.tracks), dict, frameStart, frameEnd, fadeTime, KeyingStop(dict, |old(clip.tracks)|))
    ensures lastFrame == LastFadeFrameBelow(dict, frameStart, frameEnd, fadeTime, KeyingStop(dict, |old(clip.tracks)|))
  {
    var n := |clip.tracks|;
    var tracks := clip.tracks;
    // The keyed tracks are gathered in cur and written back to the clip at
    // each exit; nothing reads the clip's tracks in between.
    var cur := tracks;
    lastFrame := None;
    var i := 0;
    while i < n
      invariant 0 <= i <= n && |cur| == n
      invariant FirstShortList(dict, 0, n) == FirstShortList(dict, i, n)
      invariant cur == FadeTracksBelow(tracks, dict, frameStart, frameEnd, fadeTime, i)
      invariant lastFrame == LastFadeFrameBelow(dict, frameStart, frameEnd, fadeTime, i)
    {
      FadeTracksStep(tracks, dict, frameStart, frameEnd, fadeTime, i);
      if i in dict {
        var list := dict[i];
        if |list| < 2 {
          clip.tracks := cur;
          return false, lastFrame;
        }
        var t, last := KeyFade(cur[i], list, frameStart, frameEnd, fadeTime);
        if last.Some? {
          lastFrame := last;
        }
        cur := cur[i := t];
      }
      i := i + 1;
    }
    clip.tracks := cur;
    ok := true;
  }
}
