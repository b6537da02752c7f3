/** `NetCDF(filelist, outdir)`: convert each NetCDF file to a TIFF. The
    workspace is set to `outdir` once; each file becomes the raster layer
    "r" (longitude and latitude dimensions) and is copied to
    `infile[:-3] + ".tif"`. Nothing is caught, so the first failing
    conversion raises and ends the batch; a batch that completes returns
    the failure list, which nothing ever appends to. */
module NetCdfConvert {
  import opened PyText
  import opened PosixPath

  datatype Call =
    | SetWorkspace(dir: Path)                     // arcpy.env.workspace = outdir
    | Convert(infile: Path, outname: Path)        // MakeNetCDFRasterLayer_md, then CopyRaster_management

  /** Whether both toolkit calls for `infile` return normally. */
  type ConvertOracle = (Path, Path) -> bool

  /** How the function ends: returning its failure list, or raising at a file. */
  datatype Outcome = Returned(failed: seq<Path>) | Raised(infile: Path)

  /** The name the TIFF is written to: the input path less its last three characters, plus ".tif". */
  function OutName(infile: Path): Path
  {
    DropLast(infile, 3) + ".tif"
  }

  /** The index of the first file whose conversion fails, or the number of files. */
  function FirstFailure(files: seq<Path>, convertOk: ConvertOracle): (n: nat)
    ensures n <= |files|
    ensures forall k :: 0 <= k < n ==> convertOk(files[k], OutName(files[k]))
    ensures n < |files| ==> !convertOk(files[n], OutName(files[n]))
  {
    if files == [] then 0
    else if !convertOk(files[0], OutName(files[0])) then 0
    else 1 + FirstFailure(files[1..], convertOk)
  }

  function ConvertCalls(files: seq<Path>): (cs: seq<Call>)
    ensures |cs| == |files|
  {
    seq(|files|, k requires 0 <= k < |files| => Convert(files[k], OutName(files[k])))
  }

  /** FirstFailure is the only index with every earlier file converted and itself failing (or the end). */
  lemma {:induction false} FirstFailureUnique(files: seq<Path>, convertOk: ConvertOracle, i: nat)
    requires i <= |files|
    requires forall k :: 0 <= k < i ==> convertOk(files[k], OutName(files[k]))
    requires i < |files| ==> !convertOk(files[i], OutName(files[i]))
    ensures FirstFailure(files, convertOk) == i
    decreases i
  {
    if i > 0 {
      assert convertOk(files[0], OutName(files[0]));
      FirstFailureUnique(files[1..], convertOk, i - 1);
    }
  }

  /** The loop of the source. The calls made are the workspace setting and
      one conversion per file up to and including the first that fails; the
      function returns an empty failure list exactly when none fails. */
  method NetCdf(filelist: seq<Path>, outdir: Path, convertOk: ConvertOracle)
    returns (outcome: Outcome, calls: seq<Call>)
    ensures var n := FirstFailure(filelist, convertOk);
      && outcome == (if n == |filelist| then Returned([]) else Raised(filelist[n]))
      && calls == [SetWorkspace(outdir)] + ConvertCalls(filelist[..if n < |filelist| then n + 1 else n])
    ensures outcome.Returned? ==> outcome.failed == []
  {
    calls := [SetWorkspace(outdir)];
    var failed: seq<Path> := [];
    var i := 0;
    while i < |filelist|
      invariant 0 <= i <= |filelist|
      invariant forall k :: 0 <= k < i ==> convertOk(filelist[k], OutName(filelist[k]))
      invariant calls == [SetWorkspace(outdir)] + ConvertCalls(filelist[..i])
    {
      var infile := filelist[i];
      var outname := OutName(infile);
      calls := calls + [Convert(infile, outname)];
      assert ConvertCalls(filelist[..i + 1]) == ConvertCalls(filelist[..i]) + [Convert(infile, outname)];
      if !convertOk(infile, outname) {
        FirstFailureUnique(filelist, convertOk, i);
        outcome := Raised(infile);
        return;
      }
      i := i + 1;
    }
    FirstFailureUnique(filelist, convertOk, i);
    outcome := Returned(failed);
  }

  /** The TIFF name keeps everything of the input path but its three-character
      extension, so it lies beside the input when the input path has a
      directory; e.g. "/data/trmm.nc" becomes "/data/trmm.tif". */
  lemma OutNameFacts(infile: Path)
    requires |infile| >= 3
    ensures var out := OutName(infile);
      && |out| == |infile| + 1
      && out[..|infile| - 3] == infile[..|infile| - 3]
      && out[|infile| - 3..] == ".tif"
  {
  }

  lemma ExampleOutName()
    ensures OutName("/data/trmm.nc") == "/data/trmm.tif"
  {
    assert DropLast("/data/trmm.nc", 3) == "/data/trmm";
  }
}
