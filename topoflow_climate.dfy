/** The TopoFlow climate writer: it turns a directory of GPM precipitation files into
    one RTS file of grids on the DEM's grid. The model keeps its geometry (bounding
    boxes from geotransforms, the disjointness test, the axis swap that repairs GPM
    rasters), the masking of nodata cells, the per-file bookkeeping of the RTS loop, and
    the string and lookup handling around it. Rasters, resampling and files are inputs. */
module TopoflowClimate {
  import opened Wrappers
  import opened Strings

  /** A bounding box, as the list `[xmin, ymin, xmax, ymax]`. */
  datatype Box = Box(xmin: real, ymin: real, xmax: real, ymax: real)

  predicate WellFormed(b: Box) {
    b.xmin <= b.xmax && b.ymin <= b.ymax
  }

  predicate InBox(b: Box, x: real, y: real) {
    b.xmin <= x <= b.xmax && b.ymin <= y <= b.ymax
  }

  /** `bounds_disjoint(bounds1, bounds2)`. */
  function BoundsDisjoint(b1: Box, b2: Box): bool {
    b2.xmin > b1.xmax || b2.xmax < b1.xmin || b2.ymax < b1.ymin || b2.ymin > b1.ymax
  }

  function Max(a: real, b: real): real {
    if b > a then b else a
  }

  /** Two well-formed boxes are disjoint iff no point lies in both. */
  lemma DisjointIffNoCommonPoint(b1: Box, b2: Box)
    requires WellFormed(b1) && WellFormed(b2)
    ensures BoundsDisjoint(b1, b2) <==> !exists x, y :: InBox(b1, x, y) && InBox(b2, x, y)
  {
    if !BoundsDisjoint(b1, b2) {
      var x, y := Max(b1.xmin, b2.xmin), Max(b1.ymin, b2.ymin);
      assert InBox(b1, x, y) && InBox(b2, x, y);
    }
  }

  lemma DisjointSymmetric(b1: Box, b2: Box)
    ensures BoundsDisjoint(b1, b2) == BoundsDisjoint(b2, b1)
  {
  }

  /** Boxes that share a point, even only on their edges, are not disjoint. */
  lemma TouchingNotDisjoint(b1: Box, b2: Box, x: real, y: real)
    requires InBox(b1, x, y) && InBox(b2, x, y)
    ensures !BoundsDisjoint(b1, b2)
  {
  }

  lemma SelfNotDisjoint(b: Box)
    requires WellFormed(b)
    ensures !BoundsDisjoint(b, b)
  {
  }

  /** A GDAL geotransform, in the order GDAL returns it. */
  datatype GeoTransform = GeoTransform(ulx: real, xres: real, xskew: real, uly: real, yskew: real, yres: real)

  /** `get_raster_bounds`: the upper-left corner plus the raster's extent. */
  function RasterBounds(gt: GeoTransform, ncols: nat, nrows: nat): Box {
    Box(gt.ulx, gt.uly + nrows as real * gt.yres, gt.ulx + ncols as real * gt.xres, gt.uly)
  }

  lemma MulNonNegative(a: real, b: real)
    requires a >= 0.0 && b >= 0.0
    ensures a * b >= 0.0
  {
  }

  /** A north-up raster (x resolution positive, y resolution negative) has well-formed
      bounds whose corners are the geotransform's upper-left corner and the opposite one. */
  lemma RasterBoundsNorthUp(gt: GeoTransform, ncols: nat, nrows: nat)
    requires gt.xres >= 0.0 && gt.yres <= 0.0
    ensures var b := RasterBounds(gt, ncols, nrows);
      && WellFormed(b)
      && b.xmin == gt.ulx && b.ymax == gt.uly
      && b.xmax - b.xmin == ncols as real * gt.xres
      && b.ymax - b.ymin == nrows as real * -gt.yres
  {
    MulNonNegative(ncols as real, gt.xres);
    MulNonNegative(nrows as real, -gt.yres);
  }

  /** The box with its x and y axes exchanged. */
  function SwapAxes(b: Box): Box {
    Box(b.ymin, b.xmin, b.ymax, b.xmax)
  }

  lemma SwapAxesInvolution(b: Box)
    ensures SwapAxes(SwapAxes(b)) == b
  {
  }

  lemma SwapAxesKeepsDisjoint(b1: Box, b2: Box)
    ensures BoundsDisjoint(SwapAxes(b1), SwapAxes(b2)) == BoundsDisjoint(b1, b2)
  {
  }

  /** The geotransform `fix_gpm_file_as_geotiff` writes for a raster with bounds `b`:
      origin at (ymin, xmax), resolutions negated and exchanged, rotations exchanged. */
  function GpmGeoTransform(gt: GeoTransform, b: Box): GeoTransform {
    GeoTransform(b.ymin, -gt.yres, gt.yskew, b.xmax, gt.xskew, -gt.xres)
  }

  /** The repaired raster, with columns and rows exchanged, covers the original box
      with its axes swapped: GPM files store (lat, lon) where GDAL expects (lon, lat). */
  lemma GpmBoundsSwapAxes(gt: GeoTransform, ncols: nat, nrows: nat)
    ensures var b := RasterBounds(gt, ncols, nrows);
      RasterBounds(GpmGeoTransform(gt, b), nrows, ncols) == SwapAxes(b)
  {
  }

  /** The value a cell has after `array2[array2 <= nodata] = out_nodata`. */
  function Masked(v: real, nodata: real, outNodata: real): real {
    if v <= nodata then outNodata else v
  }

  /** `np.rot90`: `a` turned a quarter counter-clockwise, so its rows are the columns of
      `a` read from the last one. NumPy returns a view sharing `a`'s storage; here the
      cells are copied into a new array. */
  method Rot90(a: array2<real>) returns (b: array2<real>)
    ensures fresh(b) && b.Length0 == a.Length1 && b.Length1 == a.Length0
    ensures forall i, j :: 0 <= i < b.Length0 && 0 <= j < b.Length1 ==> b[i, j] == a[j, a.Length1 - 1 - i]
  {
    b := new real[a.Length1, a.Length0];
    for i := 0 to b.Length0
      invariant forall i', j :: 0 <= i' < i && 0 <= j < b.Length1 ==> b[i', j] == a[j, a.Length1 - 1 - i']
    {
      for j := 0 to b.Length1
        invariant forall i', j' :: 0 <= i' < i && 0 <= j' < b.Length1 ==> b[i', j'] == a[j', a.Length1 - 1 - i']
        invariant forall j' :: 0 <= j' < j ==> b[i, j'] == a[j', a.Length1 - 1 - i]
      {
        b[i, j] := a[j, a.Length1 - 1 - i];
      }
    }
  }

  /** Replaces, in place, every cell at or below `nodata` by `outNodata`; afterwards no
      cell is at or below `nodata` unless it holds `outNodata`. */
  method MaskNodata(a: array2<real>, nodata: real, outNodata: real)
    modifies a
    ensures forall i, j :: 0 <= i < a.Length0 && 0 <= j < a.Length1 ==> a[i, j] == Masked(old(a[i, j]), nodata, outNodata)
    ensures forall i, j :: 0 <= i < a.Length0 && 0 <= j < a.Length1 ==> a[i, j] > nodata || a[i, j] == outNodata
  {
    for i := 0 to a.Length0
      invariant forall i', j :: 0 <= i' < i && 0 <= j < a.Length1 ==> a[i', j] == Masked(old(a[i', j]), nodata, outNodata)
      invariant forall i', j :: i <= i' < a.Length0 && 0 <= j < a.Length1 ==> a[i', j] == old(a[i', j])
    {
      for j := 0 to a.Length1
        invariant forall i', j' :: 0 <= i' < i && 0 <= j' < a.Length1 ==> a[i', j'] == Masked(old(a[i', j']), nodata, outNodata)
        invariant forall j' :: 0 <= j' < j ==> a[i, j'] == Masked(old(a[i, j']), nodata, outNodata)
        invariant forall i', j' :: i <= i' < a.Length0 && 0 <= j' < a.Length1 && (i' > i || j' >= j) ==> a[i', j'] == old(a[i', j'])
      {
        if a[i, j] <= nodata {
          a[i, j] := outNodata;
        }
      }
    }
  }

  /** The array-and-metadata part of `fix_gpm_file_as_geotiff`: the band, rotated and
      masked, with its column and row counts and the repaired geotransform. */
  method FixGpmRaster(a: array2<real>, gt: GeoTransform, nodata: real, outNodata: real)
    returns (b: array2<real>, ncols2: nat, nrows2: nat, gt2: GeoTransform)
    ensures fresh(b) && ncols2 == a.Length0 && nrows2 == a.Length1
    ensures b.Length0 == nrows2 && b.Length1 == ncols2
    ensures gt2 == GpmGeoTransform(gt, RasterBounds(gt, a.Length1, a.Length0))
    ensures forall i, j :: 0 <= i < b.Length0 && 0 <= j < b.Length1 ==>
      b[i, j] == Masked(a[j, a.Length1 - 1 - i], nodata, outNodata)
  {
    var bounds := RasterBounds(gt, a.Length1, a.Length0);
    b := Rot90(a);
    ncols2, nrows2 := a.Length0, a.Length1;
    MaskNodata(b, nodata, outNodata);
    gt2 := GpmGeoTransform(gt, bounds);
  }

  /** A grid of rows of cells, as written to the RTS file. */
  type Grid = seq<seq<real>>

  /** What the loop learns about one input file: the bounds of its repaired GeoTIFF,
      the largest cell of its band, and the grid resampling it to the DEM would give. */
  datatype NcFile = NcFile(bounds: Box, gridMax: real, resampled: Grid)

  /** The DEM grid the precipitation is resampled to. */
  datatype Dem = Dem(bounds: seq<real>, xres: real, yres: real, ncols: nat, nrows: nat)

  const RtsNodata: real := 0.0

  /** `np.zeros((nrows, ncols)) + value`. */
  function Fill(nrows: nat, ncols: nat, value: real): (g: Grid)
    ensures |g| == nrows && forall r :: r in g ==> |r| == ncols && forall k :: 0 <= k < ncols ==> r[k] == value
  {
    seq(nrows, _ => seq(ncols, _ => value))
  }

  /** The variables of the loop in `create_rts_from_nc_files`, with the grids written. */
  datatype RtsState = RtsState(count: nat, badCount: nat, badFile: bool, pmax: real, grids: seq<Grid>)

  /** One iteration of the loop, for one file. */
  function RtsStep(dem: Dem, demBox: Box, s: RtsState, f: NcFile): RtsState {
    var bad := BoundsDisjoint(f.bounds, demBox);
    var badFile := s.badFile || bad;
    var grid := if badFile then Fill(dem.nrows, dem.ncols, RtsNodata) else f.resampled;
    RtsState(s.count + 1, if bad then s.badCount + 1 else s.badCount, badFile, Max(s.pmax, f.gridMax), s.grids + [grid])
  }

  /** The loop's state after the files `files`. */
  function RtsRun(dem: Dem, demBox: Box, files: seq<NcFile>): RtsState
    decreases |files|
  {
    if files == [] then RtsState(0, 0, false, -1.0, [])
    else RtsStep(dem, demBox, RtsRun(dem, demBox, files[..|files| - 1]), files[|files| - 1])
  }

  lemma RtsRunStep(dem: Dem, demBox: Box, files: seq<NcFile>, i: nat)
    requires i < |files|
    ensures RtsRun(dem, demBox, files[..i + 1]) == RtsStep(dem, demBox, RtsRun(dem, demBox, files[..i]), files[i])
  {
    assert files[..i + 1][..i] == files[..i];
  }

  /** One grid is written per file. */
  lemma {:induction false} RtsCount(dem: Dem, demBox: Box, files: seq<NcFile>)
    ensures RtsRun(dem, demBox, files).count == |files|
    ensures |RtsRun(dem, demBox, files).grids| == |files|
    decreases |files|
  {
    if files != [] {
      RtsCount(dem, demBox, files[..|files| - 1]);
    }
  }

  /** The indices of the files whose bounds miss the DEM box. */
  function DisjointFiles(demBox: Box, files: seq<NcFile>): set<nat> {
    set i: nat | i < |files| && BoundsDisjoint(files[i].bounds, demBox)
  }

  lemma DisjointFilesSnoc(demBox: Box, files: seq<NcFile>)
    requires files != []
    ensures var init := files[..|files| - 1];
      DisjointFiles(demBox, files) ==
        DisjointFiles(demBox, init) + if BoundsDisjoint(files[|files| - 1].bounds, demBox) then {|files| - 1} else {}
  {
    var init := files[..|files| - 1];
    assert forall i :: 0 <= i < |init| ==> init[i] == files[i];
  }

  /** `bad_count` is the number of files whose bounds miss the DEM box. */
  lemma {:induction false} RtsBadCount(dem: Dem, demBox: Box, files: seq<NcFile>)
    ensures RtsRun(dem, demBox, files).badCount == |DisjointFiles(demBox, files)|
    decreases |files|
  {
    if files != [] {
      var init := files[..|files| - 1];
      RtsBadCount(dem, demBox, init);
      DisjointFilesSnoc(demBox, files);
      assert |files| - 1 !in DisjointFiles(demBox, init);
    }
  }

  /** Some file among the first `n` has bounds that miss the DEM box. */
  ghost predicate BadAmong(demBox: Box, files: seq<NcFile>, n: nat) {
    exists j :: 0 <= j < n && j < |files| && BoundsDisjoint(files[j].bounds, demBox)
  }

  lemma BadAmongSnoc(demBox: Box, files: seq<NcFile>, n: nat)
    requires files != [] && n <= |files| - 1
    ensures BadAmong(demBox, files[..|files| - 1], n) <==> BadAmong(demBox, files, n)
  {
    var init := files[..|files| - 1];
    if BadAmong(demBox, files, n) {
      var j :| 0 <= j < n && j < |files| && BoundsDisjoint(files[j].bounds, demBox);
      assert init[j] == files[j];
    }
  }

  /** `BAD_FILE` is set iff some file misses the DEM box, and from the first such file on
      every grid written is the DEM-sized nodata grid; before it, the resampled grid. */
  lemma {:induction false} RtsBadFile(dem: Dem, demBox: Box, files: seq<NcFile>)
    ensures var s := RtsRun(dem, demBox, files);
      && (s.badFile <==> BadAmong(demBox, files, |files|))
      && |s.grids| == |files|
      && forall i :: 0 <= i < |files| ==>
           s.grids[i] == if BadAmong(demBox, files, i + 1) then Fill(dem.nrows, dem.ncols, RtsNodata) else files[i].resampled
    decreases |files|
  {
    if files != [] {
      var n := |files| - 1;
      var init := files[..n];
      RtsBadFile(dem, demBox, init);
      var s := RtsRun(dem, demBox, files);
      forall k | 1 <= k <= n
        ensures BadAmong(demBox, init, k) <==> BadAmong(demBox, files, k)
      {
        BadAmongSnoc(demBox, files, k);
      }
      BadAmongSnoc(demBox, files, n);
      assert BadAmong(demBox, files, n + 1) <==> BadAmong(demBox, files, n) || BoundsDisjoint(files[n].bounds, demBox);
    }
  }

  /** `Pmax` is the largest of -1 and the files' maxima. */
  lemma {:induction false} RtsPmax(dem: Dem, demBox: Box, files: seq<NcFile>)
    ensures var p := RtsRun(dem, demBox, files).pmax;
      && p >= -1.0
      && (forall i :: 0 <= i < |files| ==> p >= files[i].gridMax)
      && (p == -1.0 || exists i :: 0 <= i < |files| && p == files[i].gridMax)
    decreases |files|
  {
    if files != [] {
      var init := files[..|files| - 1];
      RtsPmax(dem, demBox, init);
      assert forall i :: 0 <= i < |init| ==> init[i] == files[i];
    }
  }

  datatype RtsError = IndexError  // the DEM bounds list has fewer than four entries

  /** The DEM bounds list read as a box. */
  function DemBox(bounds: seq<real>): (r: Option<Box>)
    ensures r.Some? <==> |bounds| >= 4
    ensures r.Some? ==> r.value == Box(bounds[0], bounds[1], bounds[2], bounds[3])
  {
    if |bounds| < 4 then None else Some(Box(bounds[0], bounds[1], bounds[2], bounds[3]))
  }

  /** What `create_rts_from_nc_files` produces: the grids of the RTS file, the RTI file
      name and the counters it reports. */
  datatype RtsOutput = RtsOutput(grids: seq<Grid>, rtiFile: string, count: nat, badCount: nat, pmax: real)

  /** The loop of `create_rts_from_nc_files` over the sorted input files. The bounds
      test indexes the DEM bounds list, which fails on the first file if it is short. */
  method CreateRts(files: seq<NcFile>, rtsFile: string, dem: Dem) returns (r: Result<RtsOutput, RtsError>)
    ensures r.Err? <==> files != [] && |dem.bounds| < 4
    ensures r.Ok? && files != [] ==>
      var s := RtsRun(dem, DemBox(dem.bounds).value, files);
      r.value == RtsOutput(s.grids, RtiName(rtsFile), s.count, s.badCount, s.pmax)
    ensures r.Ok? && files == [] ==> r.value == RtsOutput([], RtiName(rtsFile), 0, 0, -1.0)
  {
    var box := DemBox(dem.bounds);
    if files != [] && box.None? {
      return Err(IndexError);
    }
    var count, badCount, badFile, pmax, grids := 0, 0, false, -1.0, [];
    for i := 0 to |files|
      invariant files != [] ==> RtsState(count, badCount, badFile, pmax, grids) == RtsRun(dem, box.value, files[..i])
      invariant files == [] ==> RtsState(count, badCount, badFile, pmax, grids) == RtsState(0, 0, false, -1.0, [])
    {
      var f := files[i];
      pmax := Max(pmax, f.gridMax);
      if BoundsDisjoint(f.bounds, box.value) {
        badCount := badCount + 1;
        badFile := true;
      }
      var grid := if badFile then Fill(dem.nrows, dem.ncols, RtsNodata) else f.resampled;
      grids := grids + [grid];
      count := count + 1;
      RtsRunStep(dem, box.value, files, i);
    }
    if files != [] {
      assert files[..|files|] == files;
    }
    return Ok(RtsOutput(grids, RtiName(rtsFile), count, badCount, pmax));
  }

  /** `rts_file.replace('.rts', '.rti')`. */
  function RtiName(rtsFile: string): string {
    Replace(rtsFile, ".rts", ".rti")
  }

  /** The RTI name is as long as the RTS name, and a name whose only dot starts its
      `.rts` extension gets the `.rti` extension instead. */
  lemma RtiNameOf(base: string)
    requires forall i :: 0 <= i < |base| ==> base[i] != '.'
    ensures RtiName(base + ".rts") == base + ".rti"
    ensures |RtiName(base + ".rts")| == |base| + 4
  {
    ReplaceIsSplitJoin(base + ".rts", ".rts", ".rti");
    SplitAfter(base, ".rts", "");
    assert base + ".rts" + "" == base + ".rts";
    assert Split("", ".rts") == [""];
  }

  /** The glob pattern for the input files. */
  function GlobSuffix(nc4: bool): string {
    if nc4 then "*.nc" + "4" else "*.nc"
  }

  predicate EndsWith(s: string, tail: string) {
    |tail| <= |s| && s[|s| - |tail|..] == tail
  }

  /** A pattern `*tail` matches the names ending in `tail`. */
  predicate GlobMatches(pattern: string, name: string)
    requires pattern != [] && pattern[0] == '*'
  {
    EndsWith(name, pattern[1..])
  }

  /** With `NC4` the inputs are the `.nc4` files, without it the `.nc` files; no name is
      picked up by both. */
  lemma GlobSuffixSelects(name: string)
    ensures GlobMatches(GlobSuffix(false), name) <==> EndsWith(name, ".nc")
    ensures GlobMatches(GlobSuffix(true), name) <==> EndsWith(name, ".nc4")
    ensures !(GlobMatches(GlobSuffix(false), name) && GlobMatches(GlobSuffix(true), name))
  {
    assert GlobSuffix(false)[1..] == ".nc";
    assert GlobSuffix(true)[1..] == ".nc4";
    if EndsWith(name, ".nc4") {
      assert name[|name| - 1] == '4';
      assert !EndsWith(name, ".nc");
    }
  }

  /** The resampling algorithms `gdal_regrid_to_dem_grid` accepts by name. */
  datatype ResampleAlgorithm =
    | NearestNeighbour | Bilinear | Cubic | CubicSpline | Lanczos
    | Average | Minimum | Maximum | Mode | Median

  function AlgorithmName(a: ResampleAlgorithm): string {
    match a
    case NearestNeighbour => "nearest"
    case Bilinear => "bilinear"
    case Cubic => "cubic"
    case CubicSpline => "cubicspline"
    case Lanczos => "lanczos"
    case Average => "average"
    case Minimum => "min"
    case Maximum => "max"
    case Mode => "mode"
    case Median => "med"
  }

  /** `algo_dict[RESAMPLE_ALGO]`: a `KeyError` (`None`) for any other name. */
  function ResampleAlgorithmOf(name: string): Option<ResampleAlgorithm> {
    if name == "nearest" then Some(NearestNeighbour)
    else if name == "bilinear" then Some(Bilinear)
    else if name == "cubic" then Some(Cubic)
    else if name == "cubicspline" then Some(CubicSpline)
    else if name == "lanczos" then Some(Lanczos)
    else if name == "average" then Some(Average)
    else if name == "min" then Some(Minimum)
    else if name == "max" then Some(Maximum)
    else if name == "mode" then Some(Mode)
    else if name == "med" then Some(Median)
    else None
  }

  /** The lookup succeeds exactly on the ten names, and names and algorithms
      correspond one to one. */
  lemma ResampleAlgorithmRoundTrip(a: ResampleAlgorithm, name: string)
    ensures ResampleAlgorithmOf(AlgorithmName(a)) == Some(a)
    ensures ResampleAlgorithmOf(name).Some? ==> AlgorithmName(ResampleAlgorithmOf(name).value) == name
    ensures ResampleAlgorithmOf(name).Some? <==>
      name in {"nearest", "bilinear", "cubic", "cubicspline", "lanczos", "average", "min", "max", "mode", "med"}
  {
  }

  datatype DemError = NotANumber(text: string)  // float() rejected a piece

  /** `[float(x.strip()) for x in DEM_bounds.split(",")]`, with `float` as `parse`. */
  function ParseDemBounds(text: string, parse: string -> Option<real>): Result<seq<real>, DemError> {
    ParseAll(Split(text, ","), parse)
  }

  /** Parses the stripped pieces in order; the first piece that does not parse raises. */
  function ParseAll(pieces: seq<string>, parse: string -> Option<real>): (r: Result<seq<real>, DemError>)
    ensures r.Ok? <==> forall i :: 0 <= i < |pieces| ==> parse(Strip(pieces[i])).Some?
    ensures r.Ok? ==> |r.value| == |pieces| && forall i :: 0 <= i < |pieces| ==> r.value[i] == parse(Strip(pieces[i])).value
    decreases |pieces|
  {
    if pieces == [] then Ok([])
    else
      var head := parse(Strip(pieces[0]));
      var rest := ParseAll(pieces[1..], parse);
      assert forall i :: 1 <= i < |pieces| ==> pieces[i] == pieces[1..][i - 1];
      if head.None? then Err(NotANumber(Strip(pieces[0])))
      else if rest.Err? then rest
      else Ok([head.value] + rest.value)
  }

  /** Numbers written out as comma-separated pieces parse back, provided no piece
      contains a comma or has surrounding whitespace and each piece parses to its number. */
  lemma ParseDemBoundsRoundTrip(pieces: seq<string>, xs: seq<real>, parse: string -> Option<real>)
    requires |pieces| == |xs| >= 1
    requires forall p, i :: p in pieces && 0 <= i < |p| ==> p[i] != ','
    requires forall p :: p in pieces ==> Unspaced(p)
    requires forall i :: 0 <= i < |pieces| ==> parse(pieces[i]) == Some(xs[i])
    ensures ParseDemBounds(Join(pieces, ","), parse) == Ok(xs)
  {
    SplitJoin(pieces, ",");
    forall i | 0 <= i < |pieces|
      ensures parse(Strip(pieces[i])) == Some(xs[i])
    {
      assert pieces[i] in pieces;
      StripUnspaced(pieces[i]);
    }
    var r := ParseAll(pieces, parse);
    assert r.value == xs;
  }
}
