/**
 * `enhance_folder`: applies one profile to every image of a folder, saving
 * each enhanced copy under `<stem>_enhanced<suffix>` in the output folder
 * (or in a subfolder named after the profile), and going on past images
 * that fail.
 */
module Batch {
  import opened Wrappers
  import opened Files
  import opened Names
  import opened Discovery
  import opened Profiles
  import Adjustments
  import Pipeline

  datatype FolderError = ProfileNotFound(name: string) | InputNotFound(folder: Path) | OutputDirFailed(dir: Path)

  /** What the batch reports: where it saved, the images it found, and how many it enhanced. */
  datatype Report = Report(outputDir: Path, files: seq<string>, succeeded: nat)

  /** The folder enhanced copies go to: the output folder, or its entry named after the profile. */
  function OutputDir(outputFolder: Path, profileName: string, createSubfolder: bool): (dir: Path)
    ensures !createSubfolder ==> dir == outputFolder
    ensures createSubfolder ==> |dir| == |outputFolder| + 1 + |profileName| && dir[..|outputFolder|] == outputFolder
    ensures createSubfolder ==> dir[|outputFolder|] == '/' && dir[|outputFolder| + 1..] == profileName
  {
    if createSubfolder then Join(outputFolder, profileName) else outputFolder
  }

  /** Where the image of a found file is read from and where its enhanced copy is saved. */
  function Source(inputFolder: Path, name: string): Path {
    Join(inputFolder, name)
  }

  function Target(outDir: Path, name: string): Path {
    Join(outDir, OutputName(name))
  }

  /** A found file is read from the entry of that name directly inside the input folder. */
  lemma SourcePath(inputFolder: Path, name: string)
    ensures var src := Source(inputFolder, name);
      |src| == |inputFolder| + 1 + |name| && src[..|inputFolder|] == inputFolder
      && src[|inputFolder|] == '/' && src[|inputFolder| + 1..] == name
  {
  }

  /** Its enhanced copy goes to the entry named by `OutputName` directly inside the output directory. */
  lemma TargetPath(outDir: Path, name: string)
    ensures var dst := Target(outDir, name);
      |dst| == |outDir| + |name| + 10 && dst[..|outDir|] == outDir
      && dst[|outDir|] == '/' && dst[|outDir| + 1..] == OutputName(name)
  {
  }

  /** The actions of processing the found files one after the other: one or two per file. */
  function BatchLog(fs: FileSystem, tk: Adjustments.Toolkit, p: Profile, inputFolder: Path, outDir: Path, files: seq<string>): (log: seq<Effect>)
    ensures |files| <= |log| <= 2 * |files|
  {
    if |files| == 0 then []
    else
      var f := files[|files| - 1];
      BatchLog(fs, tk, p, inputFolder, outDir, files[..|files| - 1])
        + Pipeline.PhotoLog(fs, tk, p, Source(inputFolder, f), Target(outDir, f))
  }

  /** How many of the found files are enhanced and saved without an error; never more than were found. */
  function CountSucceeded(fs: FileSystem, tk: Adjustments.Toolkit, p: Profile, inputFolder: Path, outDir: Path, files: seq<string>): (count: nat)
    ensures count <= |files|
  {
    if |files| == 0 then 0
    else
      var f := files[|files| - 1];
      CountSucceeded(fs, tk, p, inputFolder, outDir, files[..|files| - 1])
        + if Pipeline.PhotoSucceeds(fs, tk, p, Source(inputFolder, f), Target(outDir, f)) then 1 else 0
  }

  /** The loop over the extension set that collects the found files. */
  method DiscoverImages(listing: seq<string>, order: seq<string>) returns (files: seq<string>)
    requires IsSetOrder(order)
    ensures files == Discover(listing, order)
    ensures forall n :: n in files <==> n in listing && IsImageName(n)
    ensures Distinct(listing) ==> Distinct(files)
  {
    files := [];
    for i := 0 to |order|
      invariant files == GlobAll(listing, PatternsOf(order[..i]))
    {
      var ext := order[i];
      ghost var before := PatternsOf(order[..i]);
      assert order[..i + 1][..i] == order[..i];
      assert PatternsOf(order[..i + 1]) == before + [ext, Upper(ext)];
      assert (before + [ext, Upper(ext)])[..|before| + 1] == before + [ext];
      assert (before + [ext])[..|before|] == before;
      files := files + Glob(listing, ext);
      files := files + Glob(listing, Upper(ext));
    }
    assert order[..|order|] == order;
    DiscoverSpec(listing, order);
  }

  /**
   * `enhance_folder(inputFolder, outputFolder, profileName, createSubfolder)`.
   * An unknown profile and a missing input folder raise before anything is
   * done; a failing `mkdir` raises after it is attempted; otherwise every
   * found file is processed in turn, each failure is caught, and the report
   * counts the files that succeeded.
   */
  method EnhanceFolder(fs: FileSystem, tk: Adjustments.Toolkit, order: seq<string>,
                       inputFolder: Path, outputFolder: Path, profileName: string, createSubfolder: bool)
    returns (r: Result<Report, FolderError>, log: seq<Effect>)
    requires IsSetOrder(order)
    ensures !Known(profileName) ==> r == Failure(ProfileNotFound(profileName)) && log == []
    ensures Known(profileName) && !fs.pathExists(inputFolder) ==> r == Failure(InputNotFound(inputFolder)) && log == []
    ensures Known(profileName) && fs.pathExists(inputFolder) ==>
      var outDir := OutputDir(outputFolder, profileName, createSubfolder);
      var files := Discover(fs.listDir(inputFolder), order);
      var p := Catalog[profileName];
      |log| >= 1 && log[0] == MakeDirs(outDir) &&
      (!fs.makeDirs(outDir) ==> r == Failure(OutputDirFailed(outDir)) && log == [MakeDirs(outDir)]) &&
      (fs.makeDirs(outDir) ==>
        r == Success(Report(outDir, files, CountSucceeded(fs, tk, p, inputFolder, outDir, files))) &&
        log == [MakeDirs(outDir)] + BatchLog(fs, tk, p, inputFolder, outDir, files))
  {
    if profileName !in Catalog {
      return Failure(ProfileNotFound(profileName)), [];
    }
    if !fs.pathExists(inputFolder) {
      return Failure(InputNotFound(inputFolder)), [];
    }
    var outDir := OutputDir(outputFolder, profileName, createSubfolder);
    log := [MakeDirs(outDir)];
    if !fs.makeDirs(outDir) {
      return Failure(OutputDirFailed(outDir)), log;
    }
    var files := DiscoverImages(fs.listDir(inputFolder), order);
    if |files| == 0 {
      return Success(Report(outDir, files, 0)), log;
    }
    var count, effects := ProcessFiles(fs, tk, inputFolder, outDir, files, profileName);
    log := log + effects;
    r := Success(Report(outDir, files, count));
  }

  /**
   * The loop over the found files: each one is passed to `enhance_photo`,
   * an exception from it is caught, and the successes are counted.
   */
  method ProcessFiles(fs: FileSystem, tk: Adjustments.Toolkit, inputFolder: Path, outDir: Path,
                      files: seq<string>, profileName: string)
    returns (successCount: nat, log: seq<Effect>)
    requires Known(profileName)
    ensures log == BatchLog(fs, tk, Catalog[profileName], inputFolder, outDir, files)
    ensures successCount == CountSucceeded(fs, tk, Catalog[profileName], inputFolder, outDir, files)
  {
    ghost var p := Catalog[profileName];
    successCount, log := 0, [];
    for i := 0 to |files|
      invariant log == BatchLog(fs, tk, p, inputFolder, outDir, files[..i])
      invariant successCount == CountSucceeded(fs, tk, p, inputFolder, outDir, files[..i])
    {
      var f := files[i];
      var src, dst := Source(inputFolder, f), Target(outDir, f);
      var outcome, effects := Pipeline.EnhancePhoto(fs, tk, src, dst, profileName);
      BatchStep(fs, tk, p, inputFolder, outDir, files, i);
      log := log + effects;
      if outcome.Pass? {
        successCount := successCount + 1;
      }
    }
    assert files[..|files|] == files;
  }

  /** Processing one more file appends its actions and adds its success to the count. */
  lemma BatchStep(fs: FileSystem, tk: Adjustments.Toolkit, p: Profile, inputFolder: Path, outDir: Path, files: seq<string>, i: nat)
    requires i < |files|
    ensures BatchLog(fs, tk, p, inputFolder, outDir, files[..i + 1]) ==
      BatchLog(fs, tk, p, inputFolder, outDir, files[..i])
        + Pipeline.PhotoLog(fs, tk, p, Source(inputFolder, files[i]), Target(outDir, files[i]))
    ensures CountSucceeded(fs, tk, p, inputFolder, outDir, files[..i + 1]) ==
      CountSucceeded(fs, tk, p, inputFolder, outDir, files[..i])
        + if Pipeline.PhotoSucceeds(fs, tk, p, Source(inputFolder, files[i]), Target(outDir, files[i])) then 1 else 0
  {
    assert files[..i + 1][..i] == files[..i];
  }

  /** Whether every one of the files is enhanced and saved without an error. */
  predicate AllSucceed(fs: FileSystem, tk: Adjustments.Toolkit, p: Profile, inputFolder: Path, outDir: Path, files: seq<string>) {
    forall f :: f in files ==> Pipeline.PhotoSucceeds(fs, tk, p, Source(inputFolder, f), Target(outDir, f))
  }

  /** Every found file succeeds exactly when the count reaches the number of files found. */
  lemma {:induction false} CountAll(fs: FileSystem, tk: Adjustments.Toolkit, p: Profile, inputFolder: Path, outDir: Path, files: seq<string>)
    ensures CountSucceeded(fs, tk, p, inputFolder, outDir, files) == |files| <==> AllSucceed(fs, tk, p, inputFolder, outDir, files)
  {
    if |files| > 0 {
      var init, last := files[..|files| - 1], files[|files| - 1];
      assert files == init + [last];
      CountAll(fs, tk, p, inputFolder, outDir, init);
      var ok := Pipeline.PhotoSucceeds(fs, tk, p, Source(inputFolder, last), Target(outDir, last));
      var before := CountSucceeded(fs, tk, p, inputFolder, outDir, init);
      assert CountSucceeded(fs, tk, p, inputFolder, outDir, files) == before + if ok then 1 else 0;
      if AllSucceed(fs, tk, p, inputFolder, outDir, files) {
        assert last in files;
        assert AllSucceed(fs, tk, p, inputFolder, outDir, init) by {
          forall f | f in init ensures Pipeline.PhotoSucceeds(fs, tk, p, Source(inputFolder, f), Target(outDir, f)) {
            assert f in files;
          }
        }
      }
      if CountSucceeded(fs, tk, p, inputFolder, outDir, files) == |files| {
        assert ok && before == |init|;
        forall f | f in files ensures Pipeline.PhotoSucceeds(fs, tk, p, Source(inputFolder, f), Target(outDir, f)) {
          if f != last {
            assert f in init;
          }
        }
      }
    }
  }

  /**
   * Whether the log holds the open of file `f`, with its outcome, and, when
   * the image opens, the save of its enhanced image to its target, with that
   * outcome.
   */
  predicate Handled(fs: FileSystem, tk: Adjustments.Toolkit, p: Profile, inputFolder: Path, outDir: Path, log: seq<Effect>, f: string) {
    var src, dst := Source(inputFolder, f), Target(outDir, f);
    Open(src, fs.open(src).Some?) in log &&
    (fs.open(src).Some? ==>
      var img := Pipeline.Enhanced(tk, p, fs.open(src).value);
      Save(dst, img, fs.save(dst, img)) in log)
  }

  /**
   * Failures are isolated: every found file is opened, and every file whose
   * image opens has its enhanced image saved to its own target, whatever
   * happened to the other files.
   */
  lemma {:induction false} EveryFileAttempted(fs: FileSystem, tk: Adjustments.Toolkit, p: Profile, inputFolder: Path, outDir: Path, files: seq<string>)
    ensures forall f :: f in files ==> Handled(fs, tk, p, inputFolder, outDir, BatchLog(fs, tk, p, inputFolder, outDir, files), f)
  {
    if |files| > 0 {
      var init, last := files[..|files| - 1], files[|files| - 1];
      EveryFileAttempted(fs, tk, p, inputFolder, outDir, init);
      var earlier: seq<Effect> := BatchLog(fs, tk, p, inputFolder, outDir, init);
      var now: seq<Effect> := Pipeline.PhotoLog(fs, tk, p, Source(inputFolder, last), Target(outDir, last));
      var log := BatchLog(fs, tk, p, inputFolder, outDir, files);
      assert log == earlier + now;
      forall f | f in files ensures Handled(fs, tk, p, inputFolder, outDir, log, f) {
        if f in init {
          assert Handled(fs, tk, p, inputFolder, outDir, earlier, f);
        } else {
          assert f == last;
        }
      }
    }
  }

  /** Whether an action opens a found file or saves to a found file's target. */
  predicate TouchesFound(e: Effect, inputFolder: Path, outDir: Path, files: seq<string>) {
    (e.Open? && exists f :: f in files && e.src == Source(inputFolder, f)) ||
    (e.Save? && exists f :: f in files && e.dst == Target(outDir, f))
  }

  /** The actions for one file only open that file and save to its target. */
  lemma PhotoLogTouches(fs: FileSystem, tk: Adjustments.Toolkit, p: Profile, src: Path, dst: Path)
    ensures forall e :: e in Pipeline.PhotoLog(fs, tk, p, src, dst) ==> (e.Open? && e.src == src) || (e.Save? && e.dst == dst)
  {
  }

  /** Only found files are opened, and only their targets are written. */
  lemma {:induction false} OnlyFoundFilesTouched(fs: FileSystem, tk: Adjustments.Toolkit, p: Profile, inputFolder: Path, outDir: Path, files: seq<string>)
    ensures forall e :: e in BatchLog(fs, tk, p, inputFolder, outDir, files) ==> TouchesFound(e, inputFolder, outDir, files)
  {
    if |files| > 0 {
      var init, last := files[..|files| - 1], files[|files| - 1];
      assert files == init + [last];
      OnlyFoundFilesTouched(fs, tk, p, inputFolder, outDir, init);
      PhotoLogTouches(fs, tk, p, Source(inputFolder, last), Target(outDir, last));
      var earlier: seq<Effect> := BatchLog(fs, tk, p, inputFolder, outDir, init);
      var now: seq<Effect> := Pipeline.PhotoLog(fs, tk, p, Source(inputFolder, last), Target(outDir, last));
      assert BatchLog(fs, tk, p, inputFolder, outDir, files) == earlier + now;
      forall e: Effect | e in earlier + now ensures TouchesFound(e, inputFolder, outDir, files) {
        if e in earlier {
          assert TouchesFound(e, inputFolder, outDir, init);
          if e.Open? {
            var f :| f in init && e.src == Source(inputFolder, f);
            assert f in files;
          } else {
            var f :| f in init && e.dst == Target(outDir, f);
            assert f in files;
          }
        } else {
          assert last in files;
        }
      }
    }
  }

  /** Whether an open or a save records the outcome the filesystem gives it. */
  predicate Recorded(fs: FileSystem, e: Effect) {
    (e.Open? ==> e.loaded == fs.open(e.src).Some?) && (e.Save? ==> e.written == fs.save(e.dst, e.img))
  }

  /** The actions for one file record their outcomes. */
  lemma PhotoLogRecorded(fs: FileSystem, tk: Adjustments.Toolkit, p: Profile, src: Path, dst: Path)
    ensures forall e :: e in Pipeline.PhotoLog(fs, tk, p, src, dst) ==> Recorded(fs, e)
  {
  }

  /** Every open and every save in the log records the outcome the filesystem gave it. */
  lemma {:induction false} LogRecordsOutcomes(fs: FileSystem, tk: Adjustments.Toolkit, p: Profile, inputFolder: Path, outDir: Path, files: seq<string>)
    ensures forall e :: e in BatchLog(fs, tk, p, inputFolder, outDir, files) ==> Recorded(fs, e)
  {
    if |files| > 0 {
      var init, last := files[..|files| - 1], files[|files| - 1];
      LogRecordsOutcomes(fs, tk, p, inputFolder, outDir, init);
      PhotoLogRecorded(fs, tk, p, Source(inputFolder, last), Target(outDir, last));
    }
  }

  /**
   * Which files failed can be read from the log: a found file's image did
   * not open exactly when its open is logged as failed, and the file
   * succeeded exactly when its image opened and the save of its enhanced
   * image to its target is logged as successful.
   */
  lemma FailuresInLog(fs: FileSystem, tk: Adjustments.Toolkit, p: Profile, inputFolder: Path, outDir: Path, files: seq<string>)
    ensures forall f :: f in files ==>
      (Open(Source(inputFolder, f), false) in BatchLog(fs, tk, p, inputFolder, outDir, files) <==> fs.open(Source(inputFolder, f)).None?)
    ensures forall f :: f in files ==>
      (Pipeline.PhotoSucceeds(fs, tk, p, Source(inputFolder, f), Target(outDir, f)) <==>
        fs.open(Source(inputFolder, f)).Some? &&
        Save(Target(outDir, f), Pipeline.Enhanced(tk, p, fs.open(Source(inputFolder, f)).value), true)
          in BatchLog(fs, tk, p, inputFolder, outDir, files))
  {
    var log := BatchLog(fs, tk, p, inputFolder, outDir, files);
    EveryFileAttempted(fs, tk, p, inputFolder, outDir, files);
    LogRecordsOutcomes(fs, tk, p, inputFolder, outDir, files);
    forall f | f in files
      ensures Open(Source(inputFolder, f), false) in log <==> fs.open(Source(inputFolder, f)).None?
    {
      if Open(Source(inputFolder, f), false) in log {
        assert Recorded(fs, Open(Source(inputFolder, f), false));
      }
    }
    forall f | f in files
      ensures Pipeline.PhotoSucceeds(fs, tk, p, Source(inputFolder, f), Target(outDir, f)) <==>
        fs.open(Source(inputFolder, f)).Some? &&
        Save(Target(outDir, f), Pipeline.Enhanced(tk, p, fs.open(Source(inputFolder, f)).value), true) in log
    {
      var src, dst := Source(inputFolder, f), Target(outDir, f);
      if fs.open(src).Some? {
        var img := Pipeline.Enhanced(tk, p, fs.open(src).value);
        if Save(dst, img, true) in log {
          assert Recorded(fs, Save(dst, img, true));
        }
      }
    }
  }

  /**
   * Found files have pairwise different targets, so no enhanced copy
   * overwrites another one from the same batch.
   */
  lemma TargetsDistinct(listing: seq<string>, order: seq<string>, outDir: Path)
    requires IsSetOrder(order) && Distinct(listing)
    ensures forall i, j :: 0 <= i < j < |Discover(listing, order)| ==>
      Target(outDir, Discover(listing, order)[i]) != Target(outDir, Discover(listing, order)[j])
  {
    var files := Discover(listing, order);
    DiscoverSpec(listing, order);
    forall i, j | 0 <= i < j < |files| ensures Target(outDir, files[i]) != Target(outDir, files[j]) {
      if Target(outDir, files[i]) == Target(outDir, files[j]) {
        JoinInjective(outDir, OutputName(files[i]), OutputName(files[j]));
        assert files[i] in files && files[j] in files;
        OutputNameInjective(files[i], files[j]);
      }
    }
  }
}
