/** `HDF(filelist, layerlist, layernames, outdir)`: extract every requested
    layer of every HDF file as its own TIFF, one directory per layer,
    recording each file once per layer whose extraction fails and carrying on.

    The filesystem is the set of directories that exist; the GIS toolkit is
    the trace of calls made to it, and whether an extraction succeeds is an
    oracle `extractOk(infile, outname, selector)`. */
module HdfExtract {
  import opened Results
  import opened PyText
  import opened PosixPath

  /** A call the function makes outside itself, in the order made. */
  datatype Call =
    | SetWorkspace(dir: Path)        // arcpy.env.workspace = dir
    | MakeDirs(dir: Path)            // os.makedirs(dir)
    | ExtractSubDataset(infile: Path, outDir: Path, outFile: Path, selector: string)
  {
    /** The output path handed to the toolkit. */
    function OutName(): Path
      requires ExtractSubDataset?
    {
      Join(outDir, outFile)
    }
  }

  /** Whether `ExtractSubDataset_management(infile, outname, selector)` returns normally. */
  type ExtractOracle = (Path, Path, string) -> bool

  /** One (file, layer) pair with everything the loop body computes for it:
      the layer name, its directory, the output file name within it, the
      full output path `outName` and the subdataset selector `str(layer)`. */
  datatype Job = Job(infile: Path, layer: int, layerName: string, outDir: Path, outFile: Path,
                     outName: Path, selector: string)
  {
    function ExtractCall(): Call { ExtractSubDataset(infile, outDir, outFile, selector) }

    predicate Succeeds(extractOk: ExtractOracle) { extractOk(infile, outName, selector) }
  }

  /** What the function has done so far: the directories that exist, the
      failed list it will return, and the calls it has made. */
  datatype Run = Run(dirs: set<Path>, failed: seq<Path>, calls: seq<Call>)

  /** User layer names are kept only when given, non-empty and as many as the layers. */
  predicate NamesUsable(layerlist: seq<int>, layernames: Option<seq<string>>)
  {
    layernames.Some? && |layernames.value| > 0 && |layernames.value| == |layerlist|
  }

  /** The name of the `k`-th layer: the user's, or `str(layer).zfill(3)`. */
  function LayerName(layerlist: seq<int>, layernames: Option<seq<string>>, k: int): string
    requires 0 <= k < |layerlist|
  {
    if NamesUsable(layerlist, layernames) then layernames.value[k]
    else ZFill(IntToString(layerlist[k]), 3)
  }

  /** The directory under which the layer directories go: `outdir` if it is
      given (and not empty), else the input file's own directory. */
  function OutBase(path: Path, outdir: Option<Path>): Path
  {
    if outdir.Some? && outdir.value != "" then outdir.value else path
  }

  function MakeJob(infile: Path, layerlist: seq<int>, layernames: Option<seq<string>>,
                   outdir: Option<Path>, k: int): Job
    requires 0 <= k < |layerlist|
  {
    var (path, name) := Split(infile);
    var layerName := LayerName(layerlist, layernames, k);
    var outDir := Join(OutBase(path, outdir), layerName);
    var outFile := DropLast(name, 4) + "_" + layerName + ".tif";
    Job(infile, layerlist[k], layerName, outDir, outFile, Join(outDir, outFile), IntToString(layerlist[k]))
  }

  /** The pairs of one input file, one per requested layer, in layer order. */
  function FileJobs(infile: Path, layerlist: seq<int>, layernames: Option<seq<string>>,
                    outdir: Option<Path>): (js: seq<Job>)
    ensures |js| == |layerlist|
  {
    seq(|layerlist|, k requires 0 <= k < |layerlist| => MakeJob(infile, layerlist, layernames, outdir, k))
  }

  /** How each input file is turned into its pairs. */
  type Grouping = Path -> seq<Job>

  /** The grouping of `HDF`: one pair per requested layer. */
  function Layers(layerlist: seq<int>, layernames: Option<seq<string>>, outdir: Option<Path>): Grouping
  {
    infile => FileJobs(infile, layerlist, layernames, outdir)
  }

  /** Every pair, files in input order and each file's pairs in order. */
  function AllJobs(files: seq<Path>, group: Grouping): seq<Job>
  {
    if files == [] then []
    else AllJobs(files[..|files| - 1], group) + group(files[|files| - 1])
  }

  /** The start of a file's iteration: the workspace becomes its directory. */
  function FileStart(r: Run, infile: Path): Run
  {
    r.(calls := r.calls + [SetWorkspace(Split(infile).0)])
  }

  /** One pair: create the layer directory if it does not exist, then try
      the extraction and record the input file if it fails. */
  function Step(r: Run, job: Job, extractOk: ExtractOracle): Run
  {
    var r1 := if job.outDir in r.dirs then r
              else r.(dirs := r.dirs + {job.outDir}, calls := r.calls + [MakeDirs(job.outDir)]);
    r1.(calls := r1.calls + [job.ExtractCall()],
        failed := if job.Succeeds(extractOk) then r1.failed else r1.failed + [job.infile])
  }

  function Exec(r: Run, jobs: seq<Job>, extractOk: ExtractOracle): Run
  {
    if jobs == [] then r
    else Step(Exec(r, jobs[..|jobs| - 1], extractOk), jobs[|jobs| - 1], extractOk)
  }

  function RunFiles(r: Run, files: seq<Path>, group: Grouping, extractOk: ExtractOracle): Run
  {
    if files == [] then r
    else
      var infile := files[|files| - 1];
      var before := RunFiles(r, files[..|files| - 1], group, extractOk);
      Exec(FileStart(before, infile), group(infile), extractOk)
  }

  /** The whole function, from the directories that exist at the start. */
  function HdfRun(dirs0: set<Path>, files: seq<Path>, layerlist: seq<int>,
                  layernames: Option<seq<string>>, outdir: Option<Path>,
                  extractOk: ExtractOracle): Run
  {
    RunFiles(Run(dirs0, [], []), files, Layers(layerlist, layernames, outdir), extractOk)
  }

  // ---------------------------------------------------------------------
  // Reference views of a run

  /** The input file once per failing pair, in order. */
  function FailedInfiles(jobs: seq<Job>, extractOk: ExtractOracle): seq<Path>
  {
    if jobs == [] then []
    else
      var last := jobs[|jobs| - 1];
      FailedInfiles(jobs[..|jobs| - 1], extractOk)
        + (if last.Succeeds(extractOk) then [] else [last.infile])
  }

  /** The number of failing pairs. */
  function CountFailed(jobs: seq<Job>, extractOk: ExtractOracle): nat
  {
    if jobs == [] then 0
    else CountFailed(jobs[..|jobs| - 1], extractOk) + (if jobs[|jobs| - 1].Succeeds(extractOk) then 0 else 1)
  }

  /** The extraction calls among all calls made. */
  function ExtractCalls(calls: seq<Call>): seq<Call>
  {
    if calls == [] then []
    else ExtractCalls(calls[..|calls| - 1])
           + (if calls[|calls| - 1].ExtractSubDataset? then [calls[|calls| - 1]] else [])
  }

  function JobCalls(jobs: seq<Job>): (cs: seq<Call>)
    ensures |cs| == |jobs|
  {
    seq(|jobs|, k requires 0 <= k < |jobs| => jobs[k].ExtractCall())
  }

  function JobDirs(jobs: seq<Job>): set<Path>
  {
    set k | 0 <= k < |jobs| :: jobs[k].outDir
  }

  /** The directories that exist after the calls `calls`, starting from `dirs0`. */
  function DirsAfter(dirs0: set<Path>, calls: seq<Call>): set<Path>
  {
    if calls == [] then dirs0
    else DirsAfter(dirs0, calls[..|calls| - 1])
           + (if calls[|calls| - 1].MakeDirs? then {calls[|calls| - 1].dir} else {})
  }

  /** Every extraction's output directory exists when the extraction is made. */
  predicate DirsReady(dirs0: set<Path>, calls: seq<Call>)
  {
    forall k :: 0 <= k < |calls| && calls[k].ExtractSubDataset? ==>
      calls[k].outDir in DirsAfter(dirs0, calls[..k])
  }

  /** A directory is created only when it does not exist yet. */
  predicate CreatesOnlyMissing(dirs0: set<Path>, calls: seq<Call>)
  {
    forall k :: 0 <= k < |calls| && calls[k].MakeDirs? ==>
      calls[k].dir !in DirsAfter(dirs0, calls[..k])
  }

  /** The filesystem of a run is what its calls made of `dirs0`, and the calls are well ordered. */
  predicate Consistent(dirs0: set<Path>, r: Run)
  {
    && r.dirs == DirsAfter(dirs0, r.calls)
    && DirsReady(dirs0, r.calls)
    && CreatesOnlyMissing(dirs0, r.calls)
  }

  // ---------------------------------------------------------------------
  // The method

  /** The loop of the source, over `filelist` and `range(len(layerlist))`. */
  method Hdf(dirs0: set<Path>, filelist: seq<Path>, layerlist: seq<int>,
             layernames: Option<seq<string>>, outdir: Option<Path>, extractOk: ExtractOracle)
    returns (failed: seq<Path>, dirs: set<Path>, calls: seq<Call>)
    ensures Run(dirs, failed, calls) == HdfRun(dirs0, filelist, layerlist, layernames, outdir, extractOk)
    ensures failed == FailedInfiles(AllJobs(filelist, Layers(layerlist, layernames, outdir)), extractOk)
    ensures ExtractCalls(calls) == JobCalls(AllJobs(filelist, Layers(layerlist, layernames, outdir)))
    ensures dirs == dirs0 + JobDirs(AllJobs(filelist, Layers(layerlist, layernames, outdir)))
    ensures DirsReady(dirs0, calls) && CreatesOnlyMissing(dirs0, calls)
  {
    // ignore user layer names of the wrong length
    var names := layernames;
    if names.Some? && |names.value| > 0 && |names.value| != |layerlist| {
      names := None;
    }
    failed, dirs, calls := ExtractFiles(dirs0, filelist, layerlist, names, outdir, extractOk, layernames);
    HdfRunFacts(dirs0, filelist, layerlist, layernames, outdir, extractOk);
  }

  /** The outer loop, over `filelist`. `names` is `layernames` after the length check. */
  method ExtractFiles(dirs0: set<Path>, filelist: seq<Path>, layerlist: seq<int>,
                      names: Option<seq<string>>, outdir: Option<Path>, extractOk: ExtractOracle,
                      ghost layernames: Option<seq<string>>)
    returns (failed: seq<Path>, dirs: set<Path>, calls: seq<Call>)
    requires names.Some? && |names.value| > 0 <==> NamesUsable(layerlist, layernames)
    requires names.Some? && |names.value| > 0 ==> names == layernames
    ensures Run(dirs, failed, calls) == HdfRun(dirs0, filelist, layerlist, layernames, outdir, extractOk)
  {
    ghost var r0, group := Run(dirs0, [], []), Layers(layerlist, layernames, outdir);
    failed, dirs, calls := [], dirs0, [];
    var i := 0;
    while i < |filelist|
      invariant 0 <= i <= |filelist|
      invariant Run(dirs, failed, calls) == RunFiles(r0, filelist[..i], group, extractOk)
    {
      var infile := filelist[i];
      failed, dirs, calls := ExtractLayers(failed, dirs, calls, infile, layerlist, names, outdir, extractOk, layernames);
      RunFilesSnoc(r0, filelist, i, group, extractOk);
      i := i + 1;
    }
    assert filelist[..i] == filelist;
  }

  /** The body of the outer loop: one input file, every requested layer. */
  method ExtractLayers(failed0: seq<Path>, dirs0: set<Path>, calls0: seq<Call>, infile: Path,
                       layerlist: seq<int>, names: Option<seq<string>>, outdir: Option<Path>,
                       extractOk: ExtractOracle, ghost layernames: Option<seq<string>>)
    returns (failed: seq<Path>, dirs: set<Path>, calls: seq<Call>)
    requires names.Some? && |names.value| > 0 <==> NamesUsable(layerlist, layernames)
    requires names.Some? && |names.value| > 0 ==> names == layernames
    ensures Run(dirs, failed, calls)
         == Exec(FileStart(Run(dirs0, failed0, calls0), infile),
                 Layers(layerlist, layernames, outdir)(infile), extractOk)
  {
    // pull the file name and path apart
    var (path, name) := Split(infile);
    failed, dirs, calls := failed0, dirs0, calls0 + [SetWorkspace(path)];
    ExecNone(FileStart(Run(dirs0, failed0, calls0), infile),
             FileJobs(infile, layerlist, layernames, outdir), extractOk);
    var j := 0;
    while j < |layerlist|
      invariant 0 <= j <= |layerlist|
      invariant Run(dirs, failed, calls)
             == Exec(FileStart(Run(dirs0, failed0, calls0), infile),
                     FileJobs(infile, layerlist, layernames, outdir)[..j], extractOk)
    {
      failed, dirs, calls := ExtractLayer(failed, dirs, calls, infile, path, name, layerlist, j,
                                          names, outdir, extractOk, layernames);
      ExecSnoc(FileStart(Run(dirs0, failed0, calls0), infile),
               FileJobs(infile, layerlist, layernames, outdir), j, extractOk);
      j := j + 1;
    }
    ExecAll(FileStart(Run(dirs0, failed0, calls0), infile),
            FileJobs(infile, layerlist, layernames, outdir), extractOk);
    LayersApply(infile, layerlist, layernames, outdir);
  }

  /** The body of the inner loop: layer `j` of one input file. */
  method ExtractLayer(failed0: seq<Path>, dirs0: set<Path>, calls0: seq<Call>, infile: Path,
                      path: Path, name: Path, layerlist: seq<int>, j: int,
                      names: Option<seq<string>>, outdir: Option<Path>,
                      extractOk: ExtractOracle, ghost layernames: Option<seq<string>>)
    returns (failed: seq<Path>, dirs: set<Path>, calls: seq<Call>)
    requires 0 <= j < |layerlist| && Split(infile) == (path, name)
    requires names.Some? && |names.value| > 0 <==> NamesUsable(layerlist, layernames)
    requires names.Some? && |names.value| > 0 ==> names == layernames
    ensures Run(dirs, failed, calls)
         == Step(Run(dirs0, failed0, calls0), MakeJob(infile, layerlist, layernames, outdir, j), extractOk)
  {
    var layer := layerlist[j];
    // specify the layer name
    var layername := if names.Some? && |names.value| > 0 then names.value[j]
                     else ZFill(IntToString(layer), 3);
    // the output directory if one is given, otherwise the input's own directory
    var base := if outdir.Some? && outdir.value != "" then outdir.value else path;
    var dir := Join(base, layername);
    failed, dirs, calls := failed0, dirs0, calls0;
    if dir !in dirs {
      dirs := dirs + {dir};
      calls := calls + [MakeDirs(dir)];
    }
    var outfile := DropLast(name, 4) + "_" + layername + ".tif";
    var outname := Join(dir, outfile);
    calls := calls + [ExtractSubDataset(infile, dir, outfile, IntToString(layer))];
    if !extractOk(infile, outname, IntToString(layer)) {
      failed := failed + [infile];
    }
    assert MakeJob(infile, layerlist, layernames, outdir, j)
        == Job(infile, layer, layername, dir, outfile, outname, IntToString(layer));
  }

  // ---------------------------------------------------------------------
  // Lemmas

  /** No pairs, no steps. */
  lemma ExecNone(r: Run, jobs: seq<Job>, extractOk: ExtractOracle)
    ensures Exec(r, jobs[..0], extractOk) == r
  {
    assert jobs[..0] == [];
  }

  /** The whole prefix is the whole sequence. */
  lemma ExecAll(r: Run, jobs: seq<Job>, extractOk: ExtractOracle)
    ensures Exec(r, jobs[..|jobs|], extractOk) == Exec(r, jobs, extractOk)
  {
    assert jobs[..|jobs|] == jobs;
  }

  /** The grouping of `HDF`, applied to one file. */
  lemma LayersApply(infile: Path, layerlist: seq<int>, layernames: Option<seq<string>>,
                    outdir: Option<Path>)
    ensures Layers(layerlist, layernames, outdir)(infile) == FileJobs(infile, layerlist, layernames, outdir)
  {
  }

  /** One more pair is one more step. */
  lemma ExecSnoc(r: Run, jobs: seq<Job>, j: int, extractOk: ExtractOracle)
    requires 0 <= j < |jobs|
    ensures Exec(r, jobs[..j + 1], extractOk) == Step(Exec(r, jobs[..j], extractOk), jobs[j], extractOk)
  {
    assert jobs[..j + 1][..j] == jobs[..j];
  }

  /** One more file is its workspace change followed by its pairs. */
  lemma RunFilesSnoc(r: Run, files: seq<Path>, i: int, group: Grouping, extractOk: ExtractOracle)
    requires 0 <= i < |files|
    ensures RunFiles(r, files[..i + 1], group, extractOk)
         == Exec(FileStart(RunFiles(r, files[..i], group, extractOk), files[i]), group(files[i]), extractOk)
  {
    assert files[..i + 1][..i] == files[..i];
  }

  lemma {:induction false} FailedInfilesAppend(a: seq<Job>, b: seq<Job>, extractOk: ExtractOracle)
    ensures FailedInfiles(a + b, extractOk) == FailedInfiles(a, extractOk) + FailedInfiles(b, extractOk)
    decreases |b|
  {
    if b == [] {
      assert a + b == a;
    } else {
      assert (a + b)[..|a + b| - 1] == a + b[..|b| - 1];
      FailedInfilesAppend(a, b[..|b| - 1], extractOk);
    }
  }

  lemma {:induction false} ExtractCallsAppend(a: seq<Call>, b: seq<Call>)
    ensures ExtractCalls(a + b) == ExtractCalls(a) + ExtractCalls(b)
    decreases |b|
  {
    if b == [] {
      assert a + b == a;
    } else {
      assert (a + b)[..|a + b| - 1] == a + b[..|b| - 1];
      ExtractCallsAppend(a, b[..|b| - 1]);
    }
  }

  lemma {:induction false} DirsAfterAppend(dirs0: set<Path>, cs: seq<Call>, c: Call)
    ensures DirsAfter(dirs0, cs + [c]) == DirsAfter(dirs0, cs) + (if c.MakeDirs? then {c.dir} else {})
  {
    assert (cs + [c])[..|cs|] == cs;
  }

  /** Appending a call keeps a run consistent when an extraction's
      directory exists and a created directory did not. */
  lemma ConsistentAppend(dirs0: set<Path>, r: Run, c: Call, dirs: set<Path>)
    requires Consistent(dirs0, r)
    requires c.ExtractSubDataset? ==> c.outDir in r.dirs
    requires c.MakeDirs? ==> c.dir !in r.dirs
    requires dirs == r.dirs + (if c.MakeDirs? then {c.dir} else {})
    ensures Consistent(dirs0, r.(calls := r.calls + [c], dirs := dirs))
  {
    var cs := r.calls + [c];
    DirsAfterAppend(dirs0, r.calls, c);
    forall k | 0 <= k < |cs|
      ensures cs[k].ExtractSubDataset? ==> cs[k].outDir in DirsAfter(dirs0, cs[..k])
      ensures cs[k].MakeDirs? ==> cs[k].dir !in DirsAfter(dirs0, cs[..k])
    {
      if k < |r.calls| {
        assert cs[..k] == r.calls[..k];
      } else {
        assert cs[..k] == r.calls;
      }
    }
  }

  /** One pair adds exactly its directory, its extraction call and, on
      failure, its input file. */
  lemma StepEffects(r: Run, job: Job, extractOk: ExtractOracle)
    ensures var r' := Step(r, job, extractOk);
      && r'.dirs == r.dirs + {job.outDir}
      && r'.failed == r.failed + (if job.Succeeds(extractOk) then [] else [job.infile])
      && ExtractCalls(r'.calls) == ExtractCalls(r.calls) + [job.ExtractCall()]
  {
    var r1 := if job.outDir in r.dirs then r
              else r.(dirs := r.dirs + {job.outDir}, calls := r.calls + [MakeDirs(job.outDir)]);
    assert ExtractCalls(r1.calls) == ExtractCalls(r.calls) by {
      if job.outDir !in r.dirs {
        assert r1.calls[..|r1.calls| - 1] == r.calls;
      }
    }
    assert (r1.calls + [job.ExtractCall()])[..|r1.calls|] == r1.calls;
  }

  /** One pair keeps the run consistent: its directory is created only if
      missing, and exists before its extraction. */
  lemma StepConsistent(dirs0: set<Path>, r: Run, job: Job, extractOk: ExtractOracle)
    requires Consistent(dirs0, r)
    ensures Consistent(dirs0, Step(r, job, extractOk))
  {
    var r1 := if job.outDir in r.dirs then r
              else r.(dirs := r.dirs + {job.outDir}, calls := r.calls + [MakeDirs(job.outDir)]);
    if job.outDir !in r.dirs {
      ConsistentAppend(dirs0, r, MakeDirs(job.outDir), r.dirs + {job.outDir});
    }
    ConsistentAppend(dirs0, r1, job.ExtractCall(), r1.dirs);
  }

  lemma {:induction false} ExecDirs(r: Run, jobs: seq<Job>, extractOk: ExtractOracle)
    ensures Exec(r, jobs, extractOk).dirs == r.dirs + JobDirs(jobs)
    decreases |jobs|
  {
    if jobs == [] {
      assert JobDirs(jobs) == {};
    } else {
      var init := jobs[..|jobs| - 1];
      var last := jobs[|jobs| - 1];
      ExecDirs(r, init, extractOk);
      StepEffects(Exec(r, init, extractOk), last, extractOk);
      JobDirsSnoc(jobs);
    }
  }

  lemma {:induction false} ExecFailed(r: Run, jobs: seq<Job>, extractOk: ExtractOracle)
    ensures Exec(r, jobs, extractOk).failed == r.failed + FailedInfiles(jobs, extractOk)
    decreases |jobs|
  {
    if jobs != [] {
      var init := jobs[..|jobs| - 1];
      ExecFailed(r, init, extractOk);
      StepEffects(Exec(r, init, extractOk), jobs[|jobs| - 1], extractOk);
    }
  }

  lemma {:induction false} ExecCalls(r: Run, jobs: seq<Job>, extractOk: ExtractOracle)
    ensures ExtractCalls(Exec(r, jobs, extractOk).calls) == ExtractCalls(r.calls) + JobCalls(jobs)
    decreases |jobs|
  {
    if jobs != [] {
      var init := jobs[..|jobs| - 1];
      var last := jobs[|jobs| - 1];
      ExecCalls(r, init, extractOk);
      StepEffects(Exec(r, init, extractOk), last, extractOk);
      JobCallsSnoc(jobs);
    }
  }

  lemma JobCallsSnoc(jobs: seq<Job>)
    requires jobs != []
    ensures JobCalls(jobs) == JobCalls(jobs[..|jobs| - 1]) + [jobs[|jobs| - 1].ExtractCall()]
  {
    var init := jobs[..|jobs| - 1];
    forall k | 0 <= k < |jobs|
      ensures JobCalls(jobs)[k] == (JobCalls(init) + [jobs[|jobs| - 1].ExtractCall()])[k]
    {
      if k < |init| { assert init[k] == jobs[k]; }
    }
  }

  lemma JobCallsAppend(a: seq<Job>, b: seq<Job>)
    ensures JobCalls(a + b) == JobCalls(a) + JobCalls(b)
  {
    var ab := a + b;
    forall k | 0 <= k < |ab| ensures JobCalls(ab)[k] == (JobCalls(a) + JobCalls(b))[k] {
      if k < |a| { assert ab[k] == a[k]; } else { assert ab[k] == b[k - |a|]; }
    }
  }

  lemma {:induction false} ExecConsistent(dirs0: set<Path>, r: Run, jobs: seq<Job>, extractOk: ExtractOracle)
    requires Consistent(dirs0, r)
    ensures Consistent(dirs0, Exec(r, jobs, extractOk))
    decreases |jobs|
  {
    if jobs != [] {
      var init := jobs[..|jobs| - 1];
      ExecConsistent(dirs0, r, init, extractOk);
      StepConsistent(dirs0, Exec(r, init, extractOk), jobs[|jobs| - 1], extractOk);
    }
  }

  lemma JobDirsSnoc(jobs: seq<Job>)
    requires jobs != []
    ensures JobDirs(jobs) == JobDirs(jobs[..|jobs| - 1]) + {jobs[|jobs| - 1].outDir}
  {
    var init := jobs[..|jobs| - 1];
    forall d | d in JobDirs(jobs) ensures d in JobDirs(init) + {jobs[|jobs| - 1].outDir} {
      var k :| 0 <= k < |jobs| && jobs[k].outDir == d;
      if k < |init| { assert init[k] == jobs[k]; }
    }
    forall d | d in JobDirs(init) ensures d in JobDirs(jobs) {
      var k :| 0 <= k < |init| && init[k].outDir == d;
      assert jobs[k] == init[k];
    }
  }

  lemma JobDirsAppend(a: seq<Job>, b: seq<Job>)
    ensures JobDirs(a + b) == JobDirs(a) + JobDirs(b)
  {
    var ab := a + b;
    forall d | d in JobDirs(ab) ensures d in JobDirs(a) + JobDirs(b) {
      var k :| 0 <= k < |ab| && ab[k].outDir == d;
      if k < |a| { assert a[k] == ab[k]; } else { assert b[k - |a|] == ab[k]; }
    }
    forall d | d in JobDirs(a) + JobDirs(b) ensures d in JobDirs(ab) {
      if d in JobDirs(a) {
        var k :| 0 <= k < |a| && a[k].outDir == d;
        assert ab[k] == a[k];
      } else {
        var k :| 0 <= k < |b| && b[k].outDir == d;
        assert ab[|a| + k] == b[k];
      }
    }
  }

  lemma {:induction false} RunFilesDirs(r: Run, files: seq<Path>, group: Grouping, extractOk: ExtractOracle)
    ensures RunFiles(r, files, group, extractOk).dirs == r.dirs + JobDirs(AllJobs(files, group))
    decreases |files|
  {
    if files == [] {
      assert JobDirs([]) == {};
    } else {
      var init := files[..|files| - 1];
      var infile := files[|files| - 1];
      var before := RunFiles(r, init, group, extractOk);
      RunFilesDirs(r, init, group, extractOk);
      ExecDirs(FileStart(before, infile), group(infile), extractOk);
      JobDirsAppend(AllJobs(init, group), group(infile));
    }
  }

  lemma {:induction false} RunFilesFailed(r: Run, files: seq<Path>, group: Grouping, extractOk: ExtractOracle)
    ensures RunFiles(r, files, group, extractOk).failed
         == r.failed + FailedInfiles(AllJobs(files, group), extractOk)
    decreases |files|
  {
    if files != [] {
      var init := files[..|files| - 1];
      var infile := files[|files| - 1];
      RunFilesFailed(r, init, group, extractOk);
      ExecFailed(FileStart(RunFiles(r, init, group, extractOk), infile), group(infile), extractOk);
      FailedInfilesAppend(AllJobs(init, group), group(infile), extractOk);
    }
  }

  lemma {:induction false} RunFilesCalls(r: Run, files: seq<Path>, group: Grouping, extractOk: ExtractOracle)
    ensures ExtractCalls(RunFiles(r, files, group, extractOk).calls)
         == ExtractCalls(r.calls) + JobCalls(AllJobs(files, group))
    decreases |files|
  {
    if files != [] {
      var init := files[..|files| - 1];
      var infile := files[|files| - 1];
      RunFilesCalls(r, init, group, extractOk);
      ExtractCallsAppend(RunFiles(r, init, group, extractOk).calls, [SetWorkspace(Split(infile).0)]);
      assert ExtractCalls([SetWorkspace(Split(infile).0)]) == [];
      ExecCalls(FileStart(RunFiles(r, init, group, extractOk), infile), group(infile), extractOk);
      JobCallsAppend(AllJobs(init, group), group(infile));
    } else {
      assert JobCalls([]) == [];
    }
  }

  lemma {:induction false} RunFilesConsistent(dirs0: set<Path>, r: Run, files: seq<Path>, group: Grouping,
                                              extractOk: ExtractOracle)
    requires Consistent(dirs0, r)
    ensures Consistent(dirs0, RunFiles(r, files, group, extractOk))
    decreases |files|
  {
    if files != [] {
      var init := files[..|files| - 1];
      var infile := files[|files| - 1];
      var before := RunFiles(r, init, group, extractOk);
      RunFilesConsistent(dirs0, r, init, group, extractOk);
      ConsistentAppend(dirs0, before, SetWorkspace(Split(infile).0), before.dirs);
      assert FileStart(before, infile) == before.(calls := before.calls + [SetWorkspace(Split(infile).0)], dirs := before.dirs);
      ExecConsistent(dirs0, FileStart(before, infile), group(infile), extractOk);
    }
  }

  /** What `HDF` does, stated against the list of all (file, layer) pairs:
      it returns the file of each failing pair in order, attempts every
      pair's extraction in order whatever failed before, creates exactly
      the missing layer directories, each before its first extraction. */
  lemma HdfRunFacts(dirs0: set<Path>, files: seq<Path>, layerlist: seq<int>,
                    layernames: Option<seq<string>>, outdir: Option<Path>, extractOk: ExtractOracle)
    ensures var r := HdfRun(dirs0, files, layerlist, layernames, outdir, extractOk);
      var jobs := AllJobs(files, Layers(layerlist, layernames, outdir));
      && r.failed == FailedInfiles(jobs, extractOk)
      && ExtractCalls(r.calls) == JobCalls(jobs)
      && r.dirs == dirs0 + JobDirs(jobs)
      && r.dirs == DirsAfter(dirs0, r.calls)
      && DirsReady(dirs0, r.calls)
      && CreatesOnlyMissing(dirs0, r.calls)
  {
    assert ExtractCalls([]) == [];
    RunFilesDirs(Run(dirs0, [], []), files, Layers(layerlist, layernames, outdir), extractOk);
    RunFilesFailed(Run(dirs0, [], []), files, Layers(layerlist, layernames, outdir), extractOk);
    RunFilesCalls(Run(dirs0, [], []), files, Layers(layerlist, layernames, outdir), extractOk);
    RunFilesConsistent(dirs0, Run(dirs0, [], []), files, Layers(layerlist, layernames, outdir), extractOk);
  }

  lemma {:induction false} AllJobsLength(files: seq<Path>, group: Grouping, n: nat)
    requires forall f :: |group(f)| == n
    ensures |AllJobs(files, group)| == |files| * n
    decreases |files|
  {
    if files != [] {
      AllJobsLength(files[..|files| - 1], group, n);
      assert |files| * n == (|files| - 1) * n + n;
    }
  }

  lemma {:induction false} AllJobsAppend(a: seq<Path>, b: seq<Path>, group: Grouping)
    ensures AllJobs(a + b, group) == AllJobs(a, group) + AllJobs(b, group)
    decreases |b|
  {
    if b == [] {
      assert a + b == a;
    } else {
      assert (a + b)[..|a + b| - 1] == a + b[..|b| - 1];
      AllJobsAppend(a, b[..|b| - 1], group);
    }
  }

  lemma RowMajorBound(i: int, k: int, n: int, L: int)
    requires 0 <= i < n && 0 <= k < L
    ensures i * L + k < n * L
  {
    assert i * L + L == (i + 1) * L <= n * L;
  }

  /** With `n` pairs per file, pair `i * n + k` is pair `k` of file `i`. */
  lemma AllJobsIndex(files: seq<Path>, group: Grouping, n: nat, i: int, k: int)
    requires forall f :: |group(f)| == n
    requires 0 <= i < |files| && 0 <= k < n
    ensures |AllJobs(files, group)| == |files| * n
    ensures 0 <= i * n + k < |files| * n
    ensures AllJobs(files, group)[i * n + k] == group(files[i])[k]
  {
    var pre, rest := files[..i], files[i + 1..];
    assert files == pre + [files[i]] + rest;
    AllJobsAppend(pre + [files[i]], rest, group);
    AllJobsAppend(pre, [files[i]], group);
    assert AllJobs([files[i]], group) == group(files[i]) by {
      assert [files[i]][..0] == [];
    }
    assert AllJobs(files, group) == AllJobs(pre, group) + group(files[i]) + AllJobs(rest, group);
    AllJobsLength(pre, group, n);
    AllJobsLength(files, group, n);
    RowMajorBound(i, k, |files|, n);
    assert |AllJobs(pre, group)| == i * n;
  }

  /** The pairs are all (file, layer) combinations in row-major order: pair
      `i * |layerlist| + k` is layer `k` of file `i`. */
  lemma AllJobsAt(files: seq<Path>, layerlist: seq<int>,
                  layernames: Option<seq<string>>, outdir: Option<Path>, i: int, k: int)
    requires 0 <= i < |files| && 0 <= k < |layerlist|
    ensures |AllJobs(files, Layers(layerlist, layernames, outdir))| == |files| * |layerlist|
    ensures 0 <= i * |layerlist| + k < |files| * |layerlist|
    ensures AllJobs(files, Layers(layerlist, layernames, outdir))[i * |layerlist| + k]
         == MakeJob(files[i], layerlist, layernames, outdir, k)
  {
    LayersLength(layerlist, layernames, outdir);
    AllJobsIndex(files, Layers(layerlist, layernames, outdir), |layerlist|, i, k);
    LayersApply(files[i], layerlist, layernames, outdir);
  }

  /** The failed list has one entry per failing pair, each one a file of the input. */
  lemma {:induction false} FailedInfilesFacts(jobs: seq<Job>, extractOk: ExtractOracle)
    ensures |FailedInfiles(jobs, extractOk)| == CountFailed(jobs, extractOk) <= |jobs|
    ensures forall x :: x in FailedInfiles(jobs, extractOk) ==>
              exists k :: 0 <= k < |jobs| && jobs[k].infile == x && !jobs[k].Succeeds(extractOk)
    decreases |jobs|
  {
    if jobs != [] {
      var init := jobs[..|jobs| - 1];
      FailedInfilesFacts(init, extractOk);
      forall x | x in FailedInfiles(jobs, extractOk)
        ensures exists k :: 0 <= k < |jobs| && jobs[k].infile == x && !jobs[k].Succeeds(extractOk)
      {
        if x in FailedInfiles(init, extractOk) {
          var k :| 0 <= k < |init| && init[k].infile == x && !init[k].Succeeds(extractOk);
          assert jobs[k] == init[k];
        } else {
          assert jobs[|jobs| - 1].infile == x && !jobs[|jobs| - 1].Succeeds(extractOk);
        }
      }
    }
  }

  /** A grouping that keeps each pair with its own file puts only input files in the pairs. */
  lemma {:induction false} AllJobsInfiles(files: seq<Path>, group: Grouping)
    requires forall f, k :: 0 <= k < |group(f)| ==> group(f)[k].infile == f
    ensures forall k :: 0 <= k < |AllJobs(files, group)| ==> AllJobs(files, group)[k].infile in files
    decreases |files|
  {
    if files != [] {
      var init := files[..|files| - 1];
      AllJobsInfiles(init, group);
      var ij := AllJobs(init, group);
      var fj := group(files[|files| - 1]);
      var all: seq<Job> := ij + fj;
      forall k | 0 <= k < |all| ensures all[k].infile in files {
        if k < |ij| {
          assert all[k] == ij[k];
          assert ij[k].infile in init;
        } else {
          assert all[k] == fj[k - |ij|];
        }
      }
    }
  }

  /** Every file in the returned list is one of the inputs, and the list is
      as long as the number of failing pairs: no file is dropped or merged. */
  lemma HdfFailedFacts(dirs0: set<Path>, files: seq<Path>, layerlist: seq<int>,
                       layernames: Option<seq<string>>, outdir: Option<Path>, extractOk: ExtractOracle)
    ensures var r := HdfRun(dirs0, files, layerlist, layernames, outdir, extractOk);
      && |r.failed| == CountFailed(AllJobs(files, Layers(layerlist, layernames, outdir)), extractOk)
      && forall x :: x in r.failed ==> x in files
  {
    var group := Layers(layerlist, layernames, outdir);
    HdfRunFacts(dirs0, files, layerlist, layernames, outdir, extractOk);
    FailedInfilesFacts(AllJobs(files, group), extractOk);
    LayersInfile(layerlist, layernames, outdir);
    AllJobsInfiles(files, group);
  }

  /** Each file has one pair per requested layer. */
  lemma LayersLength(layerlist: seq<int>, layernames: Option<seq<string>>, outdir: Option<Path>)
    ensures var group := Layers(layerlist, layernames, outdir);
      forall f :: |group(f)| == |layerlist|
  {
  }

  /** Each pair of a file names that file as its input. */
  lemma LayersInfile(layerlist: seq<int>, layernames: Option<seq<string>>, outdir: Option<Path>)
    ensures var group := Layers(layerlist, layernames, outdir);
      forall f, k :: 0 <= k < |group(f)| ==> group(f)[k].infile == f
  {
    var group := Layers(layerlist, layernames, outdir);
    forall f, k | 0 <= k < |group(f)| ensures group(f)[k].infile == f {
      var js := FileJobs(f, layerlist, layernames, outdir);
      assert group(f) == js;
      assert js[k] == MakeJob(f, layerlist, layernames, outdir, k);
    }
  }

  /** Layer names of the wrong length are dropped without an error, and
      every name is then `str(layer).zfill(3)`: at least three characters,
      with no separator; for a layer from 0 to 999 it is exactly three
      digits that read back as the layer. */
  lemma SynthesizedLayerName(layerlist: seq<int>, layernames: Option<seq<string>>, k: int)
    requires 0 <= k < |layerlist|
    requires layernames.None? || |layernames.value| != |layerlist|
    ensures var n := LayerName(layerlist, layernames, k);
      && n == ZFill(IntToString(layerlist[k]), 3)
      && |n| >= 3 && HasNoSep(n)
      && (0 <= layerlist[k] < 1000 ==> |n| == 3 && AllDigits(n) && DecimalValue(n) == layerlist[k])
  {
    var layer := layerlist[k];
    ZFillChars(IntToString(layer), 3, Sep);
    if 0 <= layer < 1000 {
      assert Pow10(3) == 1000;
      ZeroPaddedDigits(layer, 3);
    }
  }

  /** With usable names, the `k`-th layer takes the `k`-th name. */
  lemma GivenLayerName(layerlist: seq<int>, names: seq<string>, k: int)
    requires 0 <= k < |layerlist| && |names| == |layerlist|
    ensures LayerName(layerlist, Some(names), k) == names[k]
  {
  }

  /** The output of a pair lies in its layer directory under the chosen
      base, and its file name is the input's name less four characters,
      an underscore, the layer name and ".tif". */
  lemma OutputPath(infile: Path, layerlist: seq<int>, layernames: Option<seq<string>>,
                   outdir: Option<Path>, k: int)
    requires 0 <= k < |layerlist|
    requires var n := LayerName(layerlist, layernames, k); n != "" && HasNoSep(n)
    ensures var job := MakeJob(infile, layerlist, layernames, outdir, k);
      var (path, name) := Split(infile);
      var n := LayerName(layerlist, layernames, k);
      && job.outDir == Join(if outdir.Some? && outdir.value != "" then outdir.value else path, n)
      && job.outName == Join(job.outDir, job.outFile)
      && Split(job.outName) == (job.outDir, DropLast(name, 4) + "_" + n + ".tif")
      && Split(job.outDir).1 == n
  {
    SplitTail(infile);
    JoinEndsWith(OutBase(Split(infile).0, outdir), LayerName(layerlist, layernames, k));
    FileNameNoSep(Split(infile).1, LayerName(layerlist, layernames, k));
    SplitJoin(MakeJob(infile, layerlist, layernames, outdir, k).outDir,
              DropLast(Split(infile).1, 4) + "_" + LayerName(layerlist, layernames, k) + ".tif");
    JoinTail(OutBase(Split(infile).0, outdir), LayerName(layerlist, layernames, k));
  }

  lemma FileNameNoSep(name: string, n: string)
    requires HasNoSep(name) && HasNoSep(n)
    ensures HasNoSep(DropLast(name, 4) + "_" + n + ".tif")
  {
    var d := DropLast(name, 4);
    assert forall i :: 0 <= i < |d| ==> d[i] == name[i];
  }

  /** `/data/MOD09.hdf`, layer 4, no names and no output directory give
      `/data/004/MOD09_004.tif` in directory `/data/004`. */
  lemma ExampleOutputPath()
    ensures var job := MakeJob("/data/MOD09.hdf", [4], None, None, 0);
      job.outDir == "/data/004" && job.outName == "/data/004/MOD09_004.tif" && job.selector == "4"
  {
    ExampleSplit();
    ExampleNames();
    ExampleJoins();
    assert MakeJob("/data/MOD09.hdf", [4], None, None, 0)
        == Job("/data/MOD09.hdf", 4, "004", "/data/004", "MOD09_004.tif", "/data/004/MOD09_004.tif", "4");
  }

  lemma ExampleSplit()
    ensures Split("/data/MOD09.hdf") == ("/data", "MOD09.hdf")
  {
    assert Join("/data", "MOD09.hdf") == "/data/MOD09.hdf";
    SplitJoin("/data", "MOD09.hdf");
  }

  lemma ExampleNames()
    ensures LayerName([4], None, 0) == "004"
    ensures DropLast("MOD09.hdf", 4) + "_" + "004" + ".tif" == "MOD09_004.tif"
  {
    ExampleLayerName();
    assert DropLast("MOD09.hdf", 4) == "MOD09";
  }

  lemma ExampleJoins()
    ensures Join("/data", "004") == "/data/004"
    ensures Join("/data/004", "MOD09_004.tif") == "/data/004/MOD09_004.tif"
  {
  }

  lemma ExampleLayerName()
    ensures LayerName([4], None, 0) == "004"
  {
    assert IntToString(4) == "4";
    assert Zeros(2) == "00";
  }

  /** Of three layers of one file only the second fails: the file is
      returned once, and all three extractions are attempted. */
  lemma ExampleOneFailure(dirs0: set<Path>, f: Path, layerlist: seq<int>, extractOk: ExtractOracle)
    requires |layerlist| == 3
    requires var js := FileJobs(f, layerlist, None, None);
      js[0].Succeeds(extractOk) && !js[1].Succeeds(extractOk) && js[2].Succeeds(extractOk)
    ensures HdfRun(dirs0, [f], layerlist, None, None, extractOk).failed == [f]
    ensures var calls := ExtractCalls(HdfRun(dirs0, [f], layerlist, None, None, extractOk).calls);
      |calls| == 3 && calls == JobCalls(FileJobs(f, layerlist, None, None))
  {
    AllJobsSingle(f, Layers(layerlist, None, None));
    LayersApply(f, layerlist, None, None);
    RunFilesFailed(Run(dirs0, [], []), [f], Layers(layerlist, None, None), extractOk);
    RunFilesCalls(Run(dirs0, [], []), [f], Layers(layerlist, None, None), extractOk);
    assert ExtractCalls([]) == [];
    FailedOnlySecond(FileJobs(f, layerlist, None, None), extractOk);
    assert FileJobs(f, layerlist, None, None)[1] == MakeJob(f, layerlist, None, None, 1);
  }

  /** A single file contributes exactly its own pairs. */
  lemma AllJobsSingle(f: Path, group: Grouping)
    ensures AllJobs([f], group) == group(f)
  {
    assert [f][..0] == [];
  }

  lemma FailedOnlySecond(js: seq<Job>, extractOk: ExtractOracle)
    requires |js| == 3
    requires js[0].Succeeds(extractOk) && !js[1].Succeeds(extractOk) && js[2].Succeeds(extractOk)
    ensures FailedInfiles(js, extractOk) == [js[1].infile]
  {
    assert js[..2] == js[..|js| - 1] && js[..2][..1] == js[..1] && js[..1][..0] == [];
    assert FailedInfiles(js[..1], extractOk) == [];
  }
}
