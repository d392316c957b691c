/**
  The camera configuration the teleoperation and recording services pass to
  `lerobot` as `--robot.cameras=<json>`: every requested camera becomes an
  entry of a dictionary keyed by its name, with defaults for the fields the
  request leaves out. The dictionary is the modelled value; its JSON text is
  an opaque serialisation of it.
 */
module Cameras {
  import opened Text

  /** `index_or_path`: a device index or a device path. */
  datatype IndexOrPath = Index(i: int) | Path(p: string)

  /** One requested camera; an absent key is `None`. */
  datatype CameraSpec = CameraSpec(
    name: Option<string>,
    kind: Option<string>,
    index: Option<IndexOrPath>,
    width: Option<int>,
    height: Option<int>,
    fps: Option<int>)

  /** The value stored under a camera's name. */
  datatype CameraEntry = CameraEntry(kind: string, indexOrPath: IndexOrPath, width: int, height: int, fps: int)

  /** A Python dictionary from names to entries: its items in insertion order. */
  type CameraConfig = seq<(string, CameraEntry)>

  /** A command-line argument: plain text, or the camera dictionary serialised as JSON. */
  datatype Arg = Plain(text: string) | CamerasJson(config: CameraConfig)

  function Get<T>(o: Option<T>, default: T): (v: T)
    ensures o.Some? ==> v == o.value
    ensures o.None? ==> v == default
  {
    if o.Some? then o.value else default
  }

  /** `camera.get('name', f'camera_{i}')`. */
  function CameraName(spec: CameraSpec, i: nat): string {
    Get(spec.name, "camera_" + NatToString(i))
  }

  /** The entry of a camera: type "opencv", index 0, 1920x1080 and 30 fps unless the request says otherwise. */
  function EntryOf(spec: CameraSpec): CameraEntry {
    CameraEntry(Get(spec.kind, "opencv"), Get(spec.index, Index(0)), Get(spec.width, 1920), Get(spec.height, 1080), Get(spec.fps, 30))
  }

  /** The names of a dictionary's items, in order. */
  function Keys(d: CameraConfig): (ks: seq<string>)
    ensures |ks| == |d|
    ensures forall k :: 0 <= k < |d| ==> ks[k] == d[k].0
  {
    seq(|d|, k requires 0 <= k < |d| => d[k].0)
  }

  /** No name occurs twice. */
  predicate DistinctKeys(d: CameraConfig) {
    forall j, k :: 0 <= j < k < |d| ==> d[j].0 != d[k].0
  }

  /** Looking a name up. */
  function Lookup(d: CameraConfig, name: string): Option<CameraEntry> {
    if d == [] then None
    else if d[|d| - 1].0 == name then Some(d[|d| - 1].1)
    else Lookup(d[..|d| - 1], name)
  }

  /** Position of `name` among the items, or -1. */
  function KeyIndex(d: CameraConfig, name: string): (k: int)
    ensures -1 <= k < |d|
    ensures k >= 0 ==> d[k].0 == name
    ensures k == -1 <==> name !in Keys(d)
    decreases |d|
  {
    if d == [] then -1
    else if d[|d| - 1].0 == name then |d| - 1
    else
      var k := KeyIndex(d[..|d| - 1], name);
      assert Keys(d[..|d| - 1]) == Keys(d)[..|d| - 1];
      k
  }

  /** `d[name] = entry`: a new name goes last, an existing name keeps its place and takes the new entry. */
  function Put(d: CameraConfig, name: string, entry: CameraEntry): (r: CameraConfig)
    ensures |r| == |d| || |r| == |d| + 1
    ensures name in Keys(r)
  {
    var k := KeyIndex(d, name);
    if k >= 0 then
      assert Keys(d[k := (name, entry)])[k] == name;
      d[k := (name, entry)]
    else
      assert Keys(d + [(name, entry)])[|d|] == name;
      d + [(name, entry)]
  }

  /** The dictionary the loop over `enumerate(cameras)` builds. */
  function ConfigOf(cams: seq<CameraSpec>): CameraConfig
    decreases |cams|
  {
    if cams == [] then []
    else
      var n := |cams| - 1;
      Put(ConfigOf(cams[..n]), CameraName(cams[n], n), EntryOf(cams[n]))
  }

  /** The `for i, camera in enumerate(cameras)` loop that fills `camera_config`. */
  method BuildConfig(cams: seq<CameraSpec>) returns (config: CameraConfig)
    ensures config == ConfigOf(cams)
  {
    config := [];
    var i := 0;
    while i < |cams|
      invariant 0 <= i <= |cams|
      invariant config == ConfigOf(cams[..i])
    {
      assert cams[..i + 1][..i] == cams[..i];
      config := Put(config, CameraName(cams[i], i), EntryOf(cams[i]));
      i := i + 1;
    }
    assert cams[..i] == cams;
  }

  /** Looking a name up in a dictionary whose names are distinct finds its entry. */
  lemma {:induction false} LookupDistinct(d: CameraConfig, k: int)
    requires DistinctKeys(d) && 0 <= k < |d|
    ensures Lookup(d, d[k].0) == Some(d[k].1)
    decreases |d|
  {
    if k != |d| - 1 {
      LookupDistinct(d[..|d| - 1], k);
    }
  }

  /** A name absent from a dictionary is not found. */
  lemma {:induction false} LookupAbsent(d: CameraConfig, name: string)
    requires name !in Keys(d)
    ensures Lookup(d, name) == None
    decreases |d|
  {
    if d != [] {
      assert Keys(d[..|d| - 1]) == Keys(d)[..|d| - 1];
      LookupAbsent(d[..|d| - 1], name);
    }
  }

  /** Assignment keeps names distinct, makes the name map to the new entry, and leaves every other name alone. */
  lemma PutSpec(d: CameraConfig, name: string, entry: CameraEntry)
    requires DistinctKeys(d)
    ensures DistinctKeys(Put(d, name, entry))
    ensures Lookup(Put(d, name, entry), name) == Some(entry)
    ensures forall other :: other != name ==> Lookup(Put(d, name, entry), other) == Lookup(d, other)
  {
    var r := Put(d, name, entry);
    var i := KeyIndex(d, name);
    var p := if i >= 0 then i else |d|;
    assert r[p] == (name, entry);
    assert forall j :: 0 <= j < |r| && j != p ==> j < |d| && r[j] == d[j] && d[j].0 != name;
    assert DistinctKeys(r);
    LookupDistinct(r, p);
    forall other | other != name
      ensures Lookup(r, other) == Lookup(d, other)
    {
      var j := KeyIndex(d, other);
      if j >= 0 {
        LookupDistinct(d, j);
        LookupDistinct(r, j);
      } else {
        LookupAbsent(d, other);
        assert forall m :: 0 <= m < |r| ==> Keys(r)[m] != other;
        LookupAbsent(r, other);
      }
    }
  }

  /** The index of the last requested camera named `name`, if any. */
  function LastNamed(cams: seq<CameraSpec>, name: string): (r: Option<nat>)
    ensures r.Some? ==> r.value < |cams| && CameraName(cams[r.value], r.value) == name
    ensures r.Some? ==> forall j :: r.value < j < |cams| ==> CameraName(cams[j], j) != name
    decreases |cams|
  {
    if cams == [] then None
    else
      var n := |cams| - 1;
      if CameraName(cams[n], n) == name then Some(n) else LastNamed(cams[..n], name)
  }

  /**
    The built dictionary has one item per distinct name, and a name maps to the
    entry of the LAST requested camera carrying it (a later camera with the same
    name replaces an earlier one); a name no camera carries is absent.
   */
  lemma {:induction false} ConfigOfSpec(cams: seq<CameraSpec>, name: string)
    ensures DistinctKeys(ConfigOf(cams))
    ensures var last := LastNamed(cams, name);
      && (last.Some? ==> Lookup(ConfigOf(cams), name) == Some(EntryOf(cams[last.value])))
      && (last.None? ==> Lookup(ConfigOf(cams), name) == None)
    decreases |cams|
  {
    if cams == [] {
    } else {
      var n := |cams| - 1;
      ConfigOfSpec(cams[..n], name);
      PutSpec(ConfigOf(cams[..n]), CameraName(cams[n], n), EntryOf(cams[n]));
    }
  }

  /** A camera request with no keys at all gets the name `camera_<i>` and every default. */
  lemma DefaultCamera(i: nat)
    ensures var spec := CameraSpec(None, None, None, None, None, None);
      CameraName(spec, i) == "camera_" + NatToString(i)
      && EntryOf(spec) == CameraEntry("opencv", Index(0), 1920, 1080, 30)
  {
  }

  /** The trailing camera arguments of the teleoperation and recording commands: none for an empty list. */
  function CameraArgs(cams: seq<CameraSpec>, displayData: bool): (args: seq<Arg>)
    ensures cams == [] ==> args == []
    ensures cams != [] ==> |args| >= 1 && args[0] == CamerasJson(ConfigOf(cams))
    ensures cams != [] ==> (Plain("--display_data=true") in args <==> displayData)
  {
    if cams == [] then []
    else [CamerasJson(ConfigOf(cams))] + (if displayData then [Plain("--display_data=true")] else [])
  }
}
