/** vrais_tools.py: the string and number rules around the VR cubemap stripe and
    its upload: the output path, the names of the twelve cubemap tiles, the
    horizontal offsets at which the tiles are placed, the render settings of the
    temporary scene and the checks the uploader makes before uploading. */
module VraisTools {
  import opened Wrappers
  import opened PyStr

  // ----- os.path.join and the cubemap path -----

  /** POSIX os.path.join of two parts: an absolute second part replaces the
      first; otherwise a "/" is inserted unless the first part is empty or
      already ends with one. */
  function PathJoin(a: string, b: string): (r: string)
    ensures |b| > 0 && b[0] == '/' ==> r == b
    ensures !(|b| > 0 && b[0] == '/') ==> (r == a + b || r == a + "/" + b)
  {
    if |b| > 0 && b[0] == '/' then b
    else if a == [] || a[|a| - 1] == '/' then a + b
    else a + "/" + b
  }

  /** The joined path always ends with its second part. */
  lemma PathJoinEndsWith(a: string, b: string)
    ensures var r := PathJoin(a, b); |r| >= |b| && r[|r| - |b|..] == b
  {
    var r := PathJoin(a, b);
    if !(|b| > 0 && b[0] == '/') {
      if r == a + b {
        assert r[|a|..] == b;
      } else {
        assert r[|a| + 1..] == b;
      }
    }
  }

  /** A string ending with name ends with every tail of name. */
  lemma EndsWithTail(r: string, name: string, k: nat)
    requires |r| >= |name| >= k && r[|r| - |name|..] == name
    ensures r[|r| - k..] == name[|name| - k..]
  {
    assert r[|r| - k..] == r[|r| - |name|..][|name| - k..];
  }

  /** The joined path of a file name with ".jpg" appended ends with ".jpg",
      and is the directory, a "/" and the name in the usual case. */
  lemma JoinedJpg(cubeFilepath: string, filename: string)
    ensures var r := PathJoin(cubeFilepath, filename + ".jpg");
      |r| >= 4 && r[|r| - 4..] == ".jpg" &&
      (cubeFilepath != [] && cubeFilepath[|cubeFilepath| - 1] != '/' && !(|filename| > 0 && filename[0] == '/') ==>
        r == cubeFilepath + "/" + (filename + ".jpg"))
  {
    var name := filename + ".jpg";
    PathJoinEndsWith(cubeFilepath, name);
    assert name[|name| - 4..] == ".jpg";
    EndsWithTail(PathJoin(cubeFilepath, name), name, 4);
    if |filename| > 0 {
      assert name[0] == filename[0];
    }
  }

  /** configure_vrais_cubemap_path: join(cube_filepath, filename + ".jpg"). */
  function CubemapPath(cubeFilepath: string, filename: string): (r: string)
    ensures |r| >= 4 && r[|r| - 4..] == ".jpg"
    ensures cubeFilepath != [] && cubeFilepath[|cubeFilepath| - 1] != '/' && !(|filename| > 0 && filename[0] == '/') ==>
      r == cubeFilepath + "/" + (filename + ".jpg")
  {
    JoinedJpg(cubeFilepath, filename);
    PathJoin(cubeFilepath, filename + ".jpg")
  }

  // ----- decimal frame tags -----

  /** The frame tag of the tile names: str(frame_current).zfill(4). */
  function FrameTag(frame: int): string
  {
    ZFill(IntString(frame), 4)
  }

  /** The tag of a non-negative frame: at least four digits spelling it. */
  lemma FrameTagOfNat(n: nat)
    ensures var tag := FrameTag(n);
      |tag| >= 4 && (forall j :: 0 <= j < |tag| ==> IsDigit(tag[j])) && DecimalValue(tag) == n
  {
    NatDigitsValue(n);
    ZFillDigits(NatDigits(n), 4);
  }

  /** A tag made of a minus sign and then digits spelling m, at least four
      characters in all. */
  predicate SignedTagOf(tag: string, m: nat)
  {
    |tag| >= 4 && tag[0] == '-' && (forall j :: 1 <= j < |tag| ==> IsDigit(tag[j])) &&
    DecimalValue(tag[1..]) == m
  }

  /** zfill(4) of a minus sign and digits: the sign, then digits spelling the
      same number. */
  lemma SignedTag(s: string)
    requires |s| >= 1 && forall j :: 0 <= j < |s| ==> IsDigit(s[j])
    ensures SignedTagOf(ZFill(['-'] + s, 4), DecimalValue(s))
  {
    ZFillNegative(s, 4);
    ZFillDigits(s, 3);
    var tag := ZFill(['-'] + s, 4);
    assert tag[1..] == ZFill(s, 3);
    SignThenDigits(tag);
  }

  /** The tag of a negative frame: the sign, then digits spelling its magnitude. */
  lemma FrameTagOfNegative(frame: int)
    requires frame < 0
    ensures SignedTagOf(FrameTag(frame), -frame)
  {
    var s := NatDigits(-frame);
    NatDigitsValue(-frame);
    assert IntString(frame) == ['-'] + s;
    SignedTag(s);
  }

  /** A string whose tail is all digits has a digit at every position after the first. */
  lemma SignThenDigits(tag: string)
    requires |tag| >= 1 && forall j :: 0 <= j < |tag[1..]| ==> IsDigit(tag[1..][j])
    ensures forall j :: 1 <= j < |tag| ==> IsDigit(tag[j])
  {
    forall j | 1 <= j < |tag|
      ensures IsDigit(tag[j])
    {
      assert tag[j] == tag[1..][j - 1];
    }
  }

  /** The frame tag of a non-negative frame is at least four digits long and
      spells the frame; a negative frame keeps its sign in front and the digits
      after it spell the frame's magnitude. */
  lemma FrameTagSpellsFrame(frame: int)
    ensures var tag := FrameTag(frame);
      |tag| >= 4 &&
      (frame >= 0 ==> (forall j :: 0 <= j < |tag| ==> IsDigit(tag[j])) && DecimalValue(tag) == frame) &&
      (frame < 0 ==> (tag[0] == '-' && (forall j :: 1 <= j < |tag| ==> IsDigit(tag[j])) &&
        DecimalValue(tag[1..]) == -frame))
  {
    if frame >= 0 {
      FrameTagOfNat(frame);
    } else {
      FrameTagOfNegative(frame);
    }
  }

  // ----- the tile suffix -----

  /** str.lower on ASCII capitals. */
  function Lower(s: string): (r: string)
    ensures |r| == |s|
    ensures forall k :: 0 <= k < |s| ==>
      r[k] == if 'A' <= s[k] <= 'Z' then (s[k] as int + 32) as char else s[k]
  {
    if s == [] then ""
    else [if 'A' <= s[0] <= 'Z' then (s[0] as int + 32) as char else s[0]] + Lower(s[1..])
  }

  /** The file extension of the tiles: the lower-cased output format, with
      "jpeg" spelled "jpg" so that it matches what the renderer writes. */
  function TileSuffix(fileFormat: string): (r: string)
    ensures forall k :: 0 <= k < |r| ==> !('A' <= r[k] <= 'Z')
    ensures Lower(fileFormat) == "jpeg" ==> r == "jpg"
    ensures Lower(fileFormat) != "jpeg" ==> r == Lower(fileFormat)
  {
    var lower := Lower(fileFormat);
    if lower == "jpeg" then "jpg" else lower
  }

  // ----- img_dict -----

  /** The keys of img_dict in the order they are written, tile k + 1 at k:
      the right-eye views east, west, zenith, nadir, north, south, then the
      left-eye views in the same order. */
  function TileNames(tag: string): (r: seq<string>)
    ensures |r| == 12
  {
    ["EAST_" + tag + "_R", "WEST_" + tag + "_R", "ZENITH_" + tag + "_R",
     "NADIR_" + tag + "_R", "NORTH_" + tag + "_R", "SOUTH_" + tag + "_R",
     "EAST_" + tag + "_L", "WEST_" + tag + "_L", "ZENITH_" + tag + "_L",
     "NADIR_" + tag + "_L", "NORTH_" + tag + "_L", "SOUTH_" + tag + "_L"]
  }

  /** The first two letters and the last letter of a tile name tell the
      twelve apart. */
  function NameKey(name: string): (char, char, char)
    requires |name| >= 2
  {
    (name[0], name[1], name[|name| - 1])
  }

  lemma {:induction false} TileNamesDistinct(tag: string)
    ensures forall i, j :: 0 <= i < 12 && 0 <= j < 12 && TileNames(tag)[i] == TileNames(tag)[j] ==> i == j
  {
    var names := TileNames(tag);
    var keys := [('E', 'A', 'R'), ('W', 'E', 'R'), ('Z', 'E', 'R'), ('N', 'A', 'R'), ('N', 'O', 'R'), ('S', 'O', 'R'),
                 ('E', 'A', 'L'), ('W', 'E', 'L'), ('Z', 'E', 'L'), ('N', 'A', 'L'), ('N', 'O', 'L'), ('S', 'O', 'L')];
    forall k | 0 <= k < 12
      ensures |names[k]| >= 2 && NameKey(names[k]) == keys[k]
    {
    }
    forall i, j | 0 <= i < 12 && 0 <= j < 12 && names[i] == names[j]
      ensures i == j
    {
      assert keys[i] == keys[j];
    }
  }

  /** img_dict: tile name to tile index, a bijection between the twelve names
      and 1..12. */
  function ImgDict(tag: string): (r: map<string, nat>)
    ensures forall k :: 0 <= k < 12 ==> TileNames(tag)[k] in r && r[TileNames(tag)[k]] == k + 1
  {
    var names := TileNames(tag);
    TileNamesDistinct(tag);
    map k | 0 <= k < 12 :: names[k] := k + 1
  }

  /** img_dict holds nothing but the twelve names, so it is a bijection onto
      1..12. */
  lemma ImgDictOnto(tag: string)
    ensures forall name :: name in ImgDict(tag) ==> (1 <= ImgDict(tag)[name] <= 12 &&
      TileNames(tag)[ImgDict(tag)[name] - 1] == name)
  {
    var names := TileNames(tag);
    var m := ImgDict(tag);
    forall name | name in m
      ensures 1 <= m[name] <= 12 && names[m[name] - 1] == name
    {
      var k :| 0 <= k < 12 && names[k] == name;
      assert m[name] == k + 1;
    }
  }

  // ----- img_node_creator -----

  /** An image node: its vertical position, and its name (the tile index)
      when its image loaded. */
  datatype ImageNode = ImageNode(y: int, index: Option<nat>)

  /** The file a tile is loaded from. */
  function TilePath(filepath: string, name: string, suffix: string): string
  {
    PathJoin(filepath, name + "." + suffix)
  }

  /** The image of tile k + 1 loads. */
  predicate TileLoads(filepath: string, tag: string, suffix: string, present: set<string>, k: nat)
    requires k < 12
  {
    TilePath(filepath, TileNames(tag)[k], suffix) in present
  }

  /** The loop of img_node_creator over the entries of img_dict, given their
      names in order and the file each name is loaded from: the k-th entry, of
      index k + 1, gets a node 300 units lower per index, named by its index
      when its image loads; the count is the length of testlist, the names
      whose image loaded. */
  method PlaceImageNodes(names: seq<string>, tilePath: string -> string, present: set<string>)
    returns (count: nat, nodes: seq<ImageNode>)
    ensures |nodes| == |names| && count <= |names|
    ensures count == |names| <==> forall k :: 0 <= k < |names| ==> tilePath(names[k]) in present
    ensures forall k :: 0 <= k < |names| ==> (nodes[k].y == -300 * (k + 1) &&
      (nodes[k].index.Some? <==> tilePath(names[k]) in present) &&
      (nodes[k].index.Some? ==> nodes[k].index.value == k + 1))
  {
    var testlist: seq<string> := [];
    nodes := [];
    var k := 0;
    while k < |names|
      invariant 0 <= k <= |names| && |nodes| == k
      invariant |testlist| <= k
      invariant |testlist| == k <==> forall j :: 0 <= j < k ==> tilePath(names[j]) in present
      invariant forall j :: 0 <= j < k ==> (nodes[j].y == -300 * (j + 1) &&
        (nodes[j].index.Some? <==> tilePath(names[j]) in present) &&
        (nodes[j].index.Some? ==> nodes[j].index.value == j + 1))
    {
      var img := names[k];
      var imgPath := tilePath(img);
      var imgIndex := k + 1;
      var loads := imgPath in present;
      var node := ImageNode((imgIndex as int) * -300, if loads then Some(imgIndex) else None);
      if loads {
        testlist := testlist + [img];
      }
      nodes := nodes + [node];
      k := k + 1;
    }
    count := |testlist|;
  }

  /** img_node_creator: one image node per entry of img_dict, in the order the
      entries are written, 300 units lower per index, named by its index when
      its image loads; True exactly when all twelve images loaded. The index
      img_dict[img] of the k-th entry is k + 1 (ImgDict). Image loading is the
      set of files that exist. */
  method ImgNodeCreator(frameCurrent: int, fileFormat: string, filepath: string, present: set<string>)
    returns (pathcheck: bool, nodes: seq<ImageNode>)
    ensures var tag, suffix := FrameTag(frameCurrent), TileSuffix(fileFormat);
      (pathcheck <==> forall k :: 0 <= k < 12 ==> TileLoads(filepath, tag, suffix, present, k)) &&
      |nodes| == 12 &&
      forall k :: 0 <= k < 12 ==> (nodes[k].y == -300 * (k + 1) &&
        (nodes[k].index.Some? <==> TileLoads(filepath, tag, suffix, present, k)) &&
        (nodes[k].index.Some? ==> nodes[k].index.value == k + 1))
  {
    var frame := FrameTag(frameCurrent);
    var suffix := TileSuffix(fileFormat);
    var names := TileNames(frame);
    var count;
    var tilePath := (name: string) => TilePath(filepath, name, suffix);
    count, nodes := PlaceImageNodes(names, tilePath, present);
    assert forall k :: 0 <= k < 12 ==>
      (TileLoads(filepath, frame, suffix, present, k) <==> tilePath(names[k]) in present);
    pathcheck := count == 12;
  }

  // ----- connector -----

  /** The horizontal shift connector gives tile k + 1: the offset becomes
      offset / 100 * resolution_percentage, the first tile sits at
      -5.5 times it and each next tile one offset further right. */
  method Connector(offset: real, percentage: real) returns (xs: seq<real>)
    ensures |xs| == 12
    ensures var step := offset / 100.0 * percentage;
      xs[0] == -5.5 * step &&
      (forall k :: 0 <= k < 11 ==> xs[k + 1] - xs[k] == step) &&
      (forall k :: 0 <= k < 12 ==> xs[k] + xs[11 - k] == 0.0)
  {
    var step := offset / 100.0 * percentage;
    var center := -(step * 5.0) - step / 2.0;
    xs := [center];
    var i := 1;
    while i < 12
      invariant 1 <= i <= 12 && |xs| == i
      invariant forall k :: 0 <= k < i ==> xs[k] == center + step * k as real
    {
      xs := xs + [center + step * i as real];
      i := i + 1;
    }
  }

  // ----- create_new_scene -----

  /** The render settings create_new_scene reads and writes. */
  class RenderSettings {
    var resolutionX: int
    var resolutionY: int
    var percentage: int
    var fileFormat: string
    var filepath: string

    constructor(resolutionX: int, resolutionY: int, percentage: int, fileFormat: string, filepath: string)
      ensures this.resolutionX == resolutionX && this.resolutionY == resolutionY
      ensures this.percentage == percentage && this.fileFormat == fileFormat && this.filepath == filepath
    {
      this.resolutionX := resolutionX;
      this.resolutionY := resolutionY;
      this.percentage := percentage;
      this.fileFormat := fileFormat;
      this.filepath := filepath;
    }

    /** The render fields create_new_scene gives the temporary scene: a strip
        twelve source heights wide and one high, the source percentage, JPEG
        output to the cubemap path. */
    method SetupStrip(source: RenderSettings, cubeFilepath: string, filename: string)
      requires source != this
      modifies this
      ensures resolutionX == 12 * source.resolutionY && resolutionY == source.resolutionY
      ensures percentage == source.percentage
      ensures fileFormat == "JPEG" && filepath == CubemapPath(cubeFilepath, filename)
    {
      var size := source.resolutionY;
      var res := source.percentage;
      resolutionX := size * 12;
      resolutionY := size;
      percentage := res;
      fileFormat := "JPEG";
      filepath := CubemapPath(cubeFilepath, filename);
    }
  }

  // ----- VRAIS_OT_uploader.execute and vr_uploader's headers -----

  datatype VraisMode = Cube | Equirectangular

  /** Why the uploader cancelled, in the order it checks. */
  datatype UploadProblem = NoSphericalStereo | NoDescription | NoTitle | NoApiKey

  datatype UploadResult = Cancelled(problem: UploadProblem) | Finished(path: string)

  /** The file the uploader sends, before it is made absolute: the cubemap
      path in cube mode, the panorama path otherwise. */
  function UploadPath(mode: VraisMode, cubeFilepath: string, filename: string, equiFilepath: string): string
  {
    if mode == Cube then CubemapPath(cubeFilepath, filename) else equiFilepath
  }

  /** VRAIS_OT_uploader.execute: cancels at the first failing check, in the
      order spherical stereo, description, title, API key of at least two
      characters; uploads only when all pass. The path sent is resolved by
      abspath, Blender's bpy.path.abspath (which expands a '//' prefix
      against the directory of the open .blend file), given as a parameter. */
  function Upload(mode: VraisMode, sphericalStereo: bool, description: string, title: string, apiKey: string,
                  cubeFilepath: string, filename: string, equiFilepath: string,
                  abspath: string -> string): (r: UploadResult)
    ensures r.Finished? <==> sphericalStereo && |description| > 0 && |title| > 0 && |apiKey| >= 2
    ensures r.Finished? ==> r.path == abspath(UploadPath(mode, cubeFilepath, filename, equiFilepath))
    ensures r == Cancelled(NoSphericalStereo) <==> !sphericalStereo
    ensures r == Cancelled(NoDescription) <==> sphericalStereo && |description| == 0
    ensures r == Cancelled(NoTitle) <==> sphericalStereo && |description| > 0 && |title| == 0
    ensures r == Cancelled(NoApiKey) <==> sphericalStereo && |description| > 0 && |title| > 0 && |apiKey| < 2
  {
    var path := abspath(UploadPath(mode, cubeFilepath, filename, equiFilepath));
    if !sphericalStereo then Cancelled(NoSphericalStereo)
    else if |description| == 0 then Cancelled(NoDescription)
    else if |title| == 0 then Cancelled(NoTitle)
    else if |apiKey| < 2 then Cancelled(NoApiKey)
    else Finished(path)
  }

  /** The IsCubemap header of vr_uploader. */
  function IsCubemapHeader(mode: VraisMode): (r: string)
    ensures r == "1" <==> mode == Cube
    ensures r == "0" <==> mode != Cube
  {
    if mode == Cube then "1" else "0"
  }
}
