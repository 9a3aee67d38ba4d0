/**
 * The asset downloader script: the manifest of files the game needs under
 * `assets/`, the decision whether a local file is kept, restored or
 * replaced (a small Git LFS pointer file stands in for a missing asset),
 * and the tally of outcomes with the script's exit code.
 *
 * The file system and the network are external: what the script finds on
 * disk and what a download yields are given as `LocalFile` and `Fetch`
 * values. File contents are the text Python reads back (UTF-8, undecodable
 * bytes dropped).
 */
module AssetDownloader {
  import opened Wrappers
  import opened Text

  // The manifest, as the script lists it.

  /** The fonts and main resources. */
  const CoreFiles: seq<string> := [
    "assets/SpaceMono-Regular.ttf", "assets/font_awesome_solid_900.otf",
    "assets/crates_architecture.jpg", "assets/paris_54000.txt"
  ]

  const Screenshots: seq<string> := [
    "assets/screen1.jpg", "assets/screen2.jpg", "assets/screen3.jpg", "assets/screen5.jpg"
  ]

  const UiImages: seq<string> := [
    "assets/ui/housebrush.png", "assets/ui/curved.png", "assets/ui/buildings.png", "assets/ui/road.png",
    "assets/ui/road_edit_old.png", "assets/ui/terraform.png", "assets/ui/trainstation.png",
    "assets/ui/traintool.png", "assets/ui/bulldozer_old.png"
  ]

  const Translations: seq<string> := [
    "assets/i18n/en.json", "assets/i18n/ru.json"
  ]

  /** The files listed with their full path. */
  const BaseFiles: seq<string> := CoreFiles + Screenshots + UiImages + Translations

  const UiIcons: seq<string> := [
    "roadedit_auto.png", "roadedit_back_turn.png", "roadedit_crosswalk.png",
    "roadedit_forbidden.png", "roadedit_left_turn.png", "roadedit_light.png",
    "roadedit_no_light.png", "roadedit_roundabout.png", "roadedit_stop_sign.png",
    "roadtypes_avenue.png", "roadtypes_avenue_1way.png", "roadtypes_drive.png",
    "roadtypes_drive_1way.png", "roadtypes_highway.png", "roadtypes_highway_1way.png",
    "roadtypes_rail.png", "roadtypes_rail_1way.png", "roadtypes_street.png",
    "roadtypes_street_1way.png", "select_triangle_under.png", "snap_angle.png", "snap_grid.png",
    "snap_notting.png", "terraforming_erode.png", "terraforming_level.png",
    "terraforming_radius_large.png", "terraforming_radius_medium.png",
    "terraforming_radius_small.png", "terraforming_raise_lower.png", "terraforming_slope.png",
    "terraforming_smooth.png", "terraforming_speed_large.png", "terraforming_speed_low.png",
    "terraforming_speed_medium.png", "toolbar_bulldozer.png", "toolbar_companies.png",
    "toolbar_curved_road.png", "toolbar_housetool.png", "toolbar_road_edit.png",
    "toolbar_straight_road.png", "toolbar_terraform.png", "toolbar_train.png",
    "height_reference_decline.png", "height_reference_ground.png", "height_reference_incline.png",
    "height_reference_start.png", "no_power.png", "bread.jpg", "carcass.jpg", "cereal.jpg",
    "flour.jpg", "flower.jpg", "gold.jpg", "meat.jpg", "metal.jpg", "tree-log.jpg",
    "vegetable.jpg", "wood-plank.jpg", "wool.jpg"
  ]

  const Shaders: seq<string> := [
    "alpha_discard.frag.wgsl", "atmosphere.wgsl", "atmosphere_cubemap.frag.wgsl",
    "background.wgsl", "dither.wgsl", "fog.wgsl", "instanced_mesh.vert.wgsl", "lit_mesh.vert.wgsl",
    "mipmap.wgsl", "pixel.frag.wgsl", "render_params.wgsl", "shadow.wgsl",
    "shadow_depth_write.frag.wgsl", "spritebatch.vert.wgsl", "ssao.wgsl", "to_cubemap.vert.wgsl",
    "tonemap.wgsl", "ui_blur.wgsl", "water.frag.wgsl", "compute/texture_write.wgsl",
    "heightmap/calc_normals.wgsl", "heightmap/heightmap.frag.wgsl",
    "heightmap/heightmap.vert.wgsl", "heightmap/resample.wgsl", "heightmap/unpack.wgsl",
    "pbr/brdf_convolution.wgsl", "pbr/convolute_diffuse_irradiance.frag.wgsl",
    "pbr/equirectangular_to_cubemap.frag.wgsl", "pbr/render.wgsl", "pbr/sample.wgsl",
    "pbr/specular_prefilter.frag.wgsl"
  ]

  const Sprites: seq<string> := [
    "animal_farm.png", "arrow_one_way.png", "blue_noise_512.png", "cement.jpg", "cereal_farm.png",
    "cliff.jpg", "cloth_factory.png", "clothes_store.png", "crosswalk.png", "dirt.jpg",
    "florist.png", "foundry.png", "furniture_store.png", "grass.jpg", "hightech_facility.png",
    "hightech_store.png", "horticulturalist.png", "iron_mine.png", "lumber_yard.png",
    "meat_facility.png", "noise.png", "oil_pump.png", "palette.png", "path_not_found.png",
    "petrol_refinery.png", "polyester_refinery.png", "rare_metal_mine.png", "slaughterhouse.png",
    "starfield.png", "supermarket.png", "textile_processing_facility.png", "vegetable_farm.png",
    "wavy.jpeg", "woodmill.png", "wool_farm.png"
  ]

  const Sounds: seq<string> := [
    "calm_wind.ogg", "car_engine.ogg", "car_loop.ogg", "forest.ogg", "music1.ogg", "music2.ogg",
    "road_lay.ogg"
  ]

  const Models: seq<string> := [
    "bakery.glb", "cinema.glb", "coal_power_plant.glb", "external_trading.glb",
    "flour_factory.glb", "passenger-emu-front.glb", "passenger-emu-middle.glb",
    "passenger-emu-rear.glb", "pedestrian.glb", "pine.glb", "rail_freight_station.glb",
    "roadedit_auto.glb", "salad.glb", "simple_car.glb", "solarpanel.glb", "sphere.glb",
    "stop_sign.glb", "streetlamp.glb", "traffic_light_green.glb", "traffic_light_orange.glb",
    "traffic_light_red.glb", "train.glb", "truck.glb", "wagon.glb", "wagon_freight.glb",
    "wheat_up.glb"
  ]

  /** Each name prefixed with its directory, in the same order. */
  function Prefixed(dir: string, names: seq<string>): (r: seq<string>)
    ensures |r| == |names|
    ensures forall i :: 0 <= i < |r| ==> r[i] == dir + names[i] && IsPrefix(dir, r[i])
  {
    seq(|names|, i requires 0 <= i < |names| => dir + names[i])
  }

  /** The list as the script builds it: the base files, then each directory's files. */
  function RawFiles(): seq<string>
  {
    BaseFiles
    + Prefixed("assets/ui/icons/", UiIcons)
    + Prefixed("assets/shaders/", Shaders)
    + Prefixed("assets/sprites/", Sprites)
    + Prefixed("assets/sounds/", Sounds)
    + Prefixed("assets/models/", Models)
  }

  /** Strictly ascending in code-point order, as `sorted(set(...))` returns. */
  predicate StrictlyAscending(s: seq<string>)
  {
    forall i, j :: 0 <= i < j < |s| ==> Less(s[i], s[j])
  }

  /** A strictly ascending list holds no name twice. */
  lemma AscendingUnique(s: seq<string>, i: nat, j: nat)
    requires StrictlyAscending(s)
    requires i < |s| && j < |s| && i != j
    ensures s[i] != s[j]
  {
    if i < j {
      LessIrreflexive(s[i]);
    } else {
      LessIrreflexive(s[j]);
    }
  }

  /** `x` added to a strictly ascending list, at its place, unless it is there already. */
  function Insert(s: seq<string>, x: string): (r: seq<string>)
    ensures forall y :: y in r <==> y in s || y == x
    decreases |s|
  {
    if s == [] then [x]
    else if x == s[0] then s
    else if Less(x, s[0]) then [x] + s
    else [s[0]] + Insert(s[1..], x)
  }

  lemma {:induction false} InsertAscending(s: seq<string>, x: string)
    requires StrictlyAscending(s)
    ensures StrictlyAscending(Insert(s, x))
    decreases |s|
  {
    if s != [] && x != s[0] && !Less(x, s[0]) {
      assert StrictlyAscending(s[1..]);
      InsertAscending(s[1..], x);
      LessTotal(x, s[0]);
      var r := Insert(s, x);
      assert r == [s[0]] + Insert(s[1..], x);
      forall j | 0 < j < |r|
        ensures Less(r[0], r[j])
      {
        assert r[j] in Insert(s[1..], x);
        if r[j] != x {
          var k :| 0 <= k < |s[1..]| && s[1..][k] == r[j];
          assert s[k + 1] == r[j];
        }
      }
    } else if s != [] && x != s[0] && Less(x, s[0]) {
      var r := Insert(s, x);
      forall i, j | 0 <= i < j < |r|
        ensures Less(r[i], r[j])
      {
        if i == 0 && j > 1 {
          LessTransitive(x, s[0], s[j - 1]);
        }
      }
    }
  }

  /** `sorted(set(xs))`: the distinct names of `xs`, strictly ascending. */
  function SortedSet(xs: seq<string>): (r: seq<string>)
    ensures StrictlyAscending(r)
    ensures forall y :: y in r <==> y in xs
    decreases |xs|
  {
    if xs == [] then []
    else
      var n := |xs| - 1;
      var r := Insert(SortedSet(xs[..n]), xs[n]);
      InsertAscending(SortedSet(xs[..n]), xs[n]);
      assert forall y :: y in xs <==> y in xs[..n] || y == xs[n] by {
        assert xs == xs[..n] + [xs[n]];
      }
      r
  }

  predicate AllUnderAssets(s: seq<string>)
  {
    forall i :: 0 <= i < |s| ==> IsPrefix("assets/", s[i])
  }

  /** Every base file lies under `assets/`. */
  lemma BaseFilesUnderAssets()
    ensures AllUnderAssets(BaseFiles)
  {
    ListedUnderAssets(CoreFiles);
    ListedUnderAssets(Screenshots);
    ListedUnderAssets(UiImages);
    ListedUnderAssets(Translations);
    ConcatUnderAssets(CoreFiles, Screenshots);
    ConcatUnderAssets(CoreFiles + Screenshots, UiImages);
    ConcatUnderAssets(CoreFiles + Screenshots + UiImages, Translations);
  }

  lemma ConcatUnderAssets(s: seq<string>, t: seq<string>)
    requires AllUnderAssets(s) && AllUnderAssets(t)
    ensures AllUnderAssets(s + t)
  {
    forall i | 0 <= i < |s + t|
      ensures IsPrefix("assets/", (s + t)[i])
    {
      if i >= |s| {
        assert (s + t)[i] == t[i - |s|];
      }
    }
  }

  /** A group of the base files, checked name by name. */
  lemma ListedUnderAssets(group: seq<string>)
    requires group == CoreFiles || group == Screenshots || group == UiImages || group == Translations
    ensures AllUnderAssets(group)
  {
    forall i | 0 <= i < |group|
      ensures IsPrefix("assets/", group[i])
    {
      assert group[i][..7] == "assets/";
    }
  }

  /** Names prefixed with a directory under `assets/` lie under `assets/`. */
  lemma PrefixedUnderAssets(dir: string, names: seq<string>)
    requires IsPrefix("assets/", dir)
    ensures AllUnderAssets(Prefixed(dir, names))
  {
    forall i | 0 <= i < |names|
      ensures IsPrefix("assets/", Prefixed(dir, names)[i])
    {
      var f := Prefixed(dir, names)[i];
      assert f == dir + names[i];
      assert forall k :: 0 <= k < 7 ==> f[k] == dir[k];
      assert f[..7] == dir[..7];
    }
  }

  lemma RawFilesUnderAssets()
    ensures AllUnderAssets(RawFiles())
  {
    var icons := Prefixed("assets/ui/icons/", UiIcons);
    var shaders := Prefixed("assets/shaders/", Shaders);
    var sprites := Prefixed("assets/sprites/", Sprites);
    var sounds := Prefixed("assets/sounds/", Sounds);
    var models := Prefixed("assets/models/", Models);
    BaseFilesUnderAssets();
    PrefixedUnderAssets("assets/ui/icons/", UiIcons);
    PrefixedUnderAssets("assets/shaders/", Shaders);
    PrefixedUnderAssets("assets/sprites/", Sprites);
    PrefixedUnderAssets("assets/sounds/", Sounds);
    PrefixedUnderAssets("assets/models/", Models);
    ConcatUnderAssets(BaseFiles, icons);
    ConcatUnderAssets(BaseFiles + icons, shaders);
    ConcatUnderAssets(BaseFiles + icons + shaders, sprites);
    ConcatUnderAssets(BaseFiles + icons + shaders + sprites, sounds);
    ConcatUnderAssets(BaseFiles + icons + shaders + sprites + sounds, models);
  }

  /**
   * `get_files_list`: the manifest, strictly ascending without duplicates,
   * holding exactly the listed files, every one under `assets/`.
   */
  function GetFilesList(): (r: seq<string>)
    ensures StrictlyAscending(r)
    ensures forall f :: f in r <==> f in RawFiles()
    ensures AllUnderAssets(r)
  {
    var r := SortedSet(RawFiles());
    RawFilesUnderAssets();
    forall i | 0 <= i < |r|
      ensures IsPrefix("assets/", r[i])
    {
      assert r[i] in RawFiles();
      var k :| 0 <= k < |RawFiles()| && RawFiles()[k] == r[i];
    }
    r
  }

  // Classifying one file.

  /** Reading a file as text: its contents, or an error (no permission, a directory, ...). */
  datatype ReadResult = Readable(text: string) | Unreadable

  /** What the script finds at a manifest path before downloading: nothing, or a file of some size. */
  datatype LocalFile = Missing | Present(size: nat, contents: ReadResult)

  /**
   * What a download attempt yields: the file written and read back, an
   * HTTP error status, or any other failure (connection, directory
   * creation, writing).
   */
  datatype Fetch = Downloaded(readBack: ReadResult) | HttpError(code: int) | OtherError(message: string)

  datatype Outcome = Ok | Skip | Failed

  /** The size below which a file may be a Git LFS pointer. */
  const PlaceholderMaxSize := 300

  /** The first line of a text, as Python's `readline` returns it (universal newlines: ends at `\n` or `\r`). */
  function FirstLine(text: string): (r: string)
    ensures IsPrefix(r, text)
    ensures forall k :: 0 <= k < |r| - 1 ==> r[k] != '\n' && r[k] != '\r'
    decreases |text|
  {
    if text == [] then []
    else if text[0] == '\n' || text[0] == '\r' then [text[0]]
    else [text[0]] + FirstLine(text[1..])
  }

  /** `is_lfs_placeholder`: the first line mentions "git-lfs"; a file that cannot be read is not one. */
  predicate IsLfsPlaceholder(contents: ReadResult)
  {
    match contents
    case Readable(text) => Contains(FirstLine(text), "git-lfs")
    case Unreadable => false
  }

  /** A local file that stands in for an asset: small, with "git-lfs" in its first line. */
  predicate SmallPlaceholder(local: LocalFile)
  {
    local.Present? && local.size < PlaceholderMaxSize && IsLfsPlaceholder(local.contents)
  }

  /**
   * `download_file`: a present file that is not a small placeholder is
   * kept; otherwise the file is fetched, and the download succeeds unless
   * it fails or yields a placeholder again.
   */
  function DownloadFile(local: LocalFile, fetch: Fetch): (r: Outcome)
    ensures r == Skip <==> local.Present? && !SmallPlaceholder(local)
    ensures r == Ok <==> (local.Missing? || SmallPlaceholder(local))
                         && fetch.Downloaded? && !IsLfsPlaceholder(fetch.readBack)
    ensures r == Failed <==> (local.Missing? || SmallPlaceholder(local))
                             && (!fetch.Downloaded? || IsLfsPlaceholder(fetch.readBack))
  {
    if local.Present? && !SmallPlaceholder(local) then Skip
    else
      match fetch
      case Downloaded(readBack) => if IsLfsPlaceholder(readBack) then Failed else Ok
      case HttpError(_) => Failed
      case OtherError(_) => Failed
  }

  /** A large file is never replaced, whatever its first line. */
  lemma LargeFilesKept(size: nat, contents: ReadResult, fetch: Fetch)
    requires size >= PlaceholderMaxSize
    ensures DownloadFile(Present(size, contents), fetch) == Skip
  {
  }

  /** An unreadable file is kept: it cannot be recognised as a placeholder. */
  lemma UnreadableFilesKept(size: nat, fetch: Fetch)
    ensures DownloadFile(Present(size, Unreadable), fetch) == Skip
  {
  }

  /** The first line of a text ends at its first line break, which it keeps. */
  lemma {:induction false} FirstLineStopsAtNewline(line: string, rest: string)
    requires forall k :: 0 <= k < |line| ==> line[k] != '\n' && line[k] != '\r'
    ensures FirstLine(line + "\n" + rest) == line + "\n"
    decreases |line|
  {
    if line != [] {
      assert (line + "\n" + rest)[1..] == line[1..] + "\n" + rest;
      FirstLineStopsAtNewline(line[1..], rest);
    }
  }

  /**
   * A file whose first line mentions "git-lfs" (as the version line of a
   * Git LFS pointer file does) is recognised as a placeholder.
   */
  lemma PointerRecognised(before: string, after: string, rest: string)
    requires forall k :: 0 <= k < |before + "git-lfs" + after| ==>
      (before + "git-lfs" + after)[k] != '\n' && (before + "git-lfs" + after)[k] != '\r'
    ensures IsLfsPlaceholder(Readable(before + "git-lfs" + after + "\n" + rest))
  {
    var line := before + "git-lfs" + after;
    FirstLineStopsAtNewline(line, rest);
    assert line + "\n" == before + "git-lfs" + (after + "\n");
    ContainsMiddle(before, "git-lfs", after + "\n");
  }

  // Tallying the outcomes.

  /** The outcome of one file, given what the file system and the network do for it. */
  function Classify(probe: string -> (LocalFile, Fetch), file: string): Outcome
  {
    var (local, fetch) := probe(file);
    DownloadFile(local, fetch)
  }

  /** The outcomes of the files, in manifest order. */
  function Outcomes(files: seq<string>, probe: string -> (LocalFile, Fetch)): (r: seq<Outcome>)
    ensures |r| == |files|
    ensures forall i :: 0 <= i < |files| ==> r[i] == Classify(probe, files[i])
  {
    seq(|files|, i requires 0 <= i < |files| => Classify(probe, files[i]))
  }

  function Count(outcomes: seq<Outcome>, o: Outcome): (n: nat)
    ensures n <= |outcomes|
    decreases |outcomes|
  {
    if outcomes == [] then 0
    else Count(outcomes[..|outcomes| - 1], o) + (if outcomes[|outcomes| - 1] == o then 1 else 0)
  }

  /** Counting one more outcome. */
  lemma CountSnoc(outcomes: seq<Outcome>, i: nat, o: Outcome)
    requires i < |outcomes|
    ensures Count(outcomes[..i + 1], o) == Count(outcomes[..i], o) + (if outcomes[i] == o then 1 else 0)
  {
    assert outcomes[..i + 1][..i] == outcomes[..i];
  }

  /** Every outcome is counted exactly once. */
  lemma {:induction false} CountsPartition(outcomes: seq<Outcome>)
    ensures Count(outcomes, Ok) + Count(outcomes, Skip) + Count(outcomes, Failed) == |outcomes|
    decreases |outcomes|
  {
    if outcomes != [] {
      CountsPartition(outcomes[..|outcomes| - 1]);
    }
  }

  /** The files whose outcome is `Failed`, in manifest order. */
  function FailedFiles(files: seq<string>, outcomes: seq<Outcome>): (r: seq<string>)
    requires |outcomes| == |files|
    ensures |r| == Count(outcomes, Failed)
    ensures forall f :: f in r ==> f in files
    decreases |files|
  {
    if files == [] then []
    else
      var n := |files| - 1;
      FailedFiles(files[..n], outcomes[..n]) + (if outcomes[n] == Failed then [files[n]] else [])
  }

  /** The result of a run: the counts, the failed files and the exit code. */
  datatype Summary = Summary(total: nat, success: nat, skipped: nat, failed: nat, failedFiles: seq<string>, exitCode: int)

  /**
   * The loop of `main`: every manifest file is classified in order and
   * counted; the exit code is 0 exactly when nothing failed.
   */
  method DownloadAll(files: seq<string>, probe: string -> (LocalFile, Fetch)) returns (s: Summary)
    ensures s.total == |files|
    ensures s.success + s.skipped + s.failed == s.total
    ensures s.success == Count(Outcomes(files, probe), Ok) && s.skipped == Count(Outcomes(files, probe), Skip)
    ensures s.failed == Count(Outcomes(files, probe), Failed)
    ensures s.failedFiles == FailedFiles(files, Outcomes(files, probe)) && |s.failedFiles| == s.failed
    ensures s.exitCode == (if s.failed == 0 then 0 else 1)
  {
    ghost var outcomes := Outcomes(files, probe);
    var success, skipped, failed := 0, 0, 0;
    var failedFiles := [];
    for i := 0 to |files|
      invariant success == Count(outcomes[..i], Ok) && skipped == Count(outcomes[..i], Skip)
      invariant failed == Count(outcomes[..i], Failed)
      invariant failedFiles == FailedFiles(files[..i], outcomes[..i])
    {
      var (local, fetch) := probe(files[i]);
      var result := DownloadFile(local, fetch);
      CountSnoc(outcomes, i, Ok);
      CountSnoc(outcomes, i, Skip);
      CountSnoc(outcomes, i, Failed);
      FailedFilesSnoc(files, outcomes, i);
      if result == Ok {
        success := success + 1;
      } else if result == Skip {
        skipped := skipped + 1;
      } else if result == Failed {
        failed := failed + 1;
        failedFiles := failedFiles + [files[i]];
      }
    }
    assert outcomes[..|files|] == outcomes && files[..|files|] == files;
    CountsPartition(outcomes);
    s := Summary(|files|, success, skipped, failed, failedFiles, if failed == 0 then 0 else 1);
  }

  /** Listing one more file. */
  lemma FailedFilesSnoc(files: seq<string>, outcomes: seq<Outcome>, i: nat)
    requires |outcomes| == |files| && i < |files|
    ensures FailedFiles(files[..i + 1], outcomes[..i + 1])
            == FailedFiles(files[..i], outcomes[..i]) + (if outcomes[i] == Failed then [files[i]] else [])
  {
    assert outcomes[..i + 1][..i] == outcomes[..i] && files[..i + 1][..i] == files[..i];
  }

  /** The list of failed files in the report: at most ten, then how many more there were. */
  function FailureReport(failedFiles: seq<string>): (r: (seq<string>, Option<nat>))
    ensures |r.0| == if |failedFiles| <= 10 then |failedFiles| else 10
    ensures IsPrefix(r.0, failedFiles)
    ensures r.1.Some? <==> |failedFiles| > 10
    ensures r.1.Some? ==> |r.0| + r.1.value == |failedFiles|
  {
    if |failedFiles| > 10 then (failedFiles[..10], Some(|failedFiles| - 10)) else (failedFiles, None)
  }
}
