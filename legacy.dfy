/**
  convert_to_webp.py: the earlier single-file converter. Paths are plain
  strings here; discovery keeps names that end in "png", "jpeg" or "jpg";
  an existing output folder is moved aside to a time-stamped backup; every
  worker adds to one shared stats dictionary.
 */
module Legacy {
  import opened Wrappers
  import opened Text
  import opened Stats
  import opened Effects
  import opened PyUtils

  // ---------------------------------------------------------------------
  // get_image_files

  /** One directory `os.walk` visits: its path below the source folder, and the names of its files. */
  datatype WalkStep = WalkStep(dirs: seq<string>, files: seq<string>)

  /** A discovered file: the directories between the source folder and it, and its name. */
  datatype LegacyFile = LegacyFile(dirs: seq<string>, name: string)

  /** `file_name.endswith(("png", "jpeg", "jpg"))`: case-sensitive, no dot required. */
  predicate IsImageName(name: string)
  {
    EndsWith(name, "png") || EndsWith(name, "jpeg") || EndsWith(name, "jpg")
  }

  /** The matching files of one directory, in listing order. */
  function StepImages(step: WalkStep): (r: seq<LegacyFile>)
    ensures forall f :: f in r <==> f.dirs == step.dirs && f.name in step.files && IsImageName(f.name)
    decreases |step.files|
  {
    if step.files == [] then []
    else
      var init := WalkStep(step.dirs, step.files[..|step.files| - 1]);
      var name := step.files[|step.files| - 1];
      assert step.files == init.files + [name];
      StepImages(init) + (if IsImageName(name) then [LegacyFile(step.dirs, name)] else [])
  }

  /** `get_image_files`: the comprehension over `os.walk`, directory by directory. */
  function ImageFiles(walk: seq<WalkStep>): (r: seq<LegacyFile>)
    ensures forall f :: f in r <==> exists k :: 0 <= k < |walk| && f in StepImages(walk[k])
  {
    if walk == [] then []
    else
      var init := walk[..|walk| - 1];
      assert forall k :: 0 <= k < |init| ==> init[k] == walk[k];
      ImageFiles(init) + StepImages(walk[|walk| - 1])
  }

  /** The test looks at the last characters only: "xpng" is taken, "photo.PNG" and "photo.webp" are not. */
  lemma NameTestCases()
    ensures IsImageName("xpng") && IsImageName("a.jpeg")
    ensures !IsImageName("photo.PNG") && !IsImageName("photo.webp")
  {
    assert "xpng"[1..] == "png";
    assert "a.jpeg"[2..] == "jpeg";
    assert "photo.PNG"[6..] != "png";
    assert "photo.webp"[6..] == "webp";
    assert "photo.webp"[5..] != "jpeg";
    assert "photo.webp"[7..] != "png" && "photo.webp"[7..] != "jpg";
  }

  // ---------------------------------------------------------------------
  // create_output_folder

  /** `f"{source_folder}_webp"`: a string suffix, not a path operation. */
  function OutputFolder(source: string): (r: string)
    ensures |r| == |source| + 5 && r[..|source|] == source && r[|source|..] == "_webp"
  {
    source + "_webp"
  }

  /** `f"{source_folder}_webp_backup_{int(time())}"`. */
  function BackupFolder(source: string, now: nat): (r: string)
    ensures |r| > |OutputFolder(source)| && r[..|OutputFolder(source)|] == OutputFolder(source)
  {
    OutputFolder(source) + "_backup_" + NatToString(now)
  }

  /** `create_output_folder`: an existing folder is moved to the backup, then the output folder is made. */
  function CreateOutputFolder(source: string, outputExists: bool, now: nat): (r: seq<FsAction<string>>)
    ensures NothingRemoved(r)
    ensures |r| > 0 && r[|r| - 1] == MakeDirs(OutputFolder(source))
    ensures outputExists <==> |r| == 2
    ensures outputExists ==> r[0] == Move(OutputFolder(source), BackupFolder(source, now))
  {
    if outputExists then [Move(OutputFolder(source), BackupFolder(source, now)), MakeDirs(OutputFolder(source))]
    else [MakeDirs(OutputFolder(source))]
  }

  /** Backups made at different seconds have different names, and none is the output folder. */
  lemma BackupNamesDistinct(source: string, t1: nat, t2: nat)
    ensures BackupFolder(source, t1) != OutputFolder(source)
    ensures BackupFolder(source, t1) == BackupFolder(source, t2) ==> t1 == t2
  {
    assert |BackupFolder(source, t1)| > |OutputFolder(source)|;
    if BackupFolder(source, t1) == BackupFolder(source, t2) {
      var p := OutputFolder(source) + "_backup_";
      assert BackupFolder(source, t1)[|p|..] == NatToString(t1);
      assert BackupFolder(source, t2)[|p|..] == NatToString(t2);
      NatToStringInjective(t1, t2);
    }
  }

  /**
    A source typed with a trailing "/" puts the output folder inside the
    source folder: the output path is the source directory followed by one
    more component, with no further "/".
   */
  lemma TrailingSlashNestsOutput(source: string)
    requires |source| > 0 && source[|source| - 1] == '/'
    ensures var o := OutputFolder(source);
      && |o| > |source| && o[..|source|] == source
      && o[|source| - 1] == '/'
      && '/' !in o[|source|..]
  {
    var o := OutputFolder(source);
    assert o[|source|..] == "_webp";
  }

  // ---------------------------------------------------------------------
  // process_file

  /**
    `os.path.splitext` on a file name: split at the last dot when a
    character other than a dot comes before it; otherwise no extension.
   */
  function SplitExt(name: string): (r: (string, string))
    ensures r.0 + r.1 == name
    ensures r.1 == [] || (r.1[0] == '.' && '.' !in r.1[1..])
    ensures r.1 != [] <==> RFind(name, '.') > 0 && exists j :: 0 <= j < RFind(name, '.') && name[j] != '.'
  {
    var d := RFind(name, '.');
    if d > 0 && exists j :: 0 <= j < d && name[j] != '.' then
      assert name[d..][1..] == name[d + 1..];
      (name[..d], name[d..])
    else (name, "")
  }

  /** The directories of a relative path, each followed by "/". */
  function DirPrefix(dirs: seq<string>): string
  {
    if dirs == [] then "" else DirPrefix(dirs[..|dirs| - 1]) + dirs[|dirs| - 1] + "/"
  }

  /**
    The output path: the output folder, the path relative to the source,
    its extension (if any) replaced by ".webp".
   */
  function Destination(output: string, f: LegacyFile): (r: string)
    ensures EndsWith(r, ".webp")
    ensures |r| > |output| && r[..|output| + 1] == output + "/"
    ensures r[..|r| - 5] + SplitExt(f.name).1 == output + "/" + DirPrefix(f.dirs) + f.name
  {
    var r := output + "/" + DirPrefix(f.dirs) + SplitExt(f.name).0 + ".webp";
    assert r[|r| - 5..] == ".webp";
    assert r[..|output| + 1] == output + "/";
    r
  }

  /** "photo.png" becomes "photo.webp"; "xpng" has no extension and becomes "xpng.webp". */
  lemma DestinationNames(output: string)
    ensures Destination(output, LegacyFile([], "photo.png")) == output + "/" + "photo" + ".webp"
    ensures Destination(output, LegacyFile([], "xpng")) == output + "/" + "xpng" + ".webp"
  {
    SplitPhoto();
    TopLevelDestination(output, "photo.png");
    SplitXpng();
    TopLevelDestination(output, "xpng");
  }

  /** A file at the top of the source folder goes to the top of the output folder. */
  lemma TopLevelDestination(output: string, name: string)
    ensures Destination(output, LegacyFile([], name)) == output + "/" + SplitExt(name).0 + ".webp"
  {
    assert output + "/" + DirPrefix([]) == output + "/";
  }

  lemma SplitPhoto()
    ensures SplitExt("photo.png").0 == "photo"
  {
    var a := "photo.png";
    assert a[5] == '.' && '.' !in a[6..];
    RFindIsLast(a, '.', 5);
    assert a[0] != '.';
    assert a[..5] == "photo";
  }

  lemma SplitXpng()
    ensures SplitExt("xpng").0 == "xpng"
  {
    assert '.' !in "xpng";
  }

  /** What the file system and the codec report for one file. */
  datatype LegacyFacts = LegacyFacts(
    dirCreated: bool,            // os.makedirs(output_file_dir, exist_ok=True)
    originalSize: Option<nat>,   // os.path.getsize(file_path)
    convertedSize: Option<nat>)  // open + convert + save + getsize, inside the try

  /** The exception `process_file` lets out, if any: only the steps before the `try`. */
  function FileError(facts: LegacyFacts): Option<PyError>
  {
    if !facts.dirCreated then Some(OSError)
    else if facts.originalSize.None? then Some(FileNotFound)
    else None
  }

  /**
    What `process_file` adds to the shared dictionary, as written: the
    original size as soon as it is known, the converted size and the count
    only when the conversion succeeded.
   */
  function FileTally(facts: LegacyFacts): (t: Tally)
    ensures FileError(facts).Some? ==> t == Zero
    ensures FileError(facts).None? ==> t.original == facts.originalSize.value
    ensures FileError(facts).None? ==> t.converted == (if facts.convertedSize.Some? then facts.convertedSize.value else 0)
    ensures t.count == 1 <==> FileError(facts).None? && facts.convertedSize.Some?
    ensures t.count == 0 <==> !(FileError(facts).None? && facts.convertedSize.Some?)
  {
    if FileError(facts).Some? then Zero
    else match facts.convertedSize
      case Some(c) => Tally(facts.originalSize.value, c, 1)
      case None => Tally(facts.originalSize.value, 0, 0)
  }

  /** `process_file` on the shared dictionary. */
  method ProcessFile(stats: ConversionStats, output: string, f: LegacyFile, facts: LegacyFacts)
    returns (destination: string, raised: Option<PyError>)
    modifies stats
    ensures destination == Destination(output, f)
    ensures raised == FileError(facts)
    ensures stats.Totals() == Add(old(stats.Totals()), FileTally(facts))
    ensures stats.totalTime == old(stats.totalTime)
  {
    destination := Destination(output, f);
    if !facts.dirCreated {
      return destination, Some(OSError);
    }
    if facts.originalSize.None? {
      return destination, Some(FileNotFound);
    }
    stats.totalOriginalSize := stats.totalOriginalSize + facts.originalSize.value;
    if facts.convertedSize.Some? {
      stats.totalConvertedSize := stats.totalConvertedSize + facts.convertedSize.value;
      stats.conversionCount := stats.conversionCount + 1;
    }
    raised := None;
  }

  /**
    What the per-file addition evidently means to count: a file that was
    not converted adds nothing, so the reduction is measured over converted
    files only.
   */
  function FileTallyCorrected(facts: LegacyFacts): (t: Tally)
    ensures IsFileTally(t)
    ensures t.count == 1 <==> FileError(facts).None? && facts.convertedSize.Some?
    ensures t.count == 0 ==> t == Zero
    ensures t.count == 1 ==> t == FileTally(facts)
  {
    if FileError(facts).None? && facts.convertedSize.Some? then FileTally(facts) else Zero
  }

  // ---------------------------------------------------------------------
  // generate_report

  /**
    `generate_report`: the reduction in MB, then its ratio to the original
    size in MB; an original total of zero divides by zero.
   */
  function GenerateReport(totals: Tally, totalTime: real): (r: Result<Report, PyError>)
    ensures r.Err? <==> totals.original == 0
    ensures r.Err? ==> r.error == ZeroDivisionError
  {
    if totals.original == 0 then Err(ZeroDivisionError)
    else
      var reduced := totals.original - totals.converted;
      var memoryReduced := reduced as real / BytesPerMB;
      var percentage := memoryReduced / (totals.original as real / BytesPerMB) * 100.0;
      Ok(Report(reduced, memoryReduced, percentage, totals.count, totalTime))
  }

  /** The ratio of megabytes is the ratio of bytes: both reports give the same figures. */
  lemma ReportsAgree(totals: Tally, totalTime: real)
    ensures GenerateReport(totals, totalTime) == PyUtils.GenerateReport(totals, totalTime)
  {
    if totals.original != 0 {
      var a, o := (totals.original - totals.converted) as real, totals.original as real;
      assert (a / BytesPerMB) / (o / BytesPerMB) == a / o;
    }
  }

  /**
    As written, a file that fails to convert still counts its whole size as
    reduced: one failed file of 1000 bytes reports a 100% reduction with no
    image converted.
   */
  lemma FailedFileReportedAsReduction(totalTime: real)
    ensures var t := FileTally(LegacyFacts(true, Some(1000), None));
      && t == Tally(1000, 0, 0)
      && GenerateReport(t, totalTime).Ok?
      && GenerateReport(t, totalTime).value.percentage == 100.0
      && GenerateReport(t, totalTime).value.converted == 0
  {
    ReportsAgree(Tally(1000, 0, 0), totalTime);
  }

  /** The corrected per-file tuples of a run, in file order. */
  function CorrectedTallies(files: seq<LegacyFile>, facts: LegacyFile -> LegacyFacts): (ts: seq<Tally>)
    ensures |ts| == |files|
    ensures forall i :: 0 <= i < |files| ==> ts[i] == FileTallyCorrected(facts(files[i]))
  {
    seq(|files|, i requires 0 <= i < |files| => FileTallyCorrected(facts(files[i])))
  }

  /**
    With the corrected addition, a run in which no file was converted claims
    no reduction at all: its totals are zero, so the unguarded report
    divides by zero and the guarded one reports 0%.
   */
  lemma CorrectedClaimsNothingWithoutConversions(files: seq<LegacyFile>, facts: LegacyFile -> LegacyFacts, totalTime: real)
    requires forall i :: 0 <= i < |files| ==> FileError(facts(files[i])).Some? || facts(files[i]).convertedSize.None?
    ensures Sum(CorrectedTallies(files, facts)) == Zero
    ensures PyUtils.GenerateReport(Sum(CorrectedTallies(files, facts)), totalTime) == Err(ZeroDivisionError)
    ensures GuardedReport(Sum(CorrectedTallies(files, facts)), totalTime).percentage == 0.0
    ensures GuardedReport(Sum(CorrectedTallies(files, facts)), totalTime).reducedBytes == 0
  {
    var ts := CorrectedTallies(files, facts);
    forall i | 0 <= i < |ts| ensures ts[i] == Zero {
      assert FileTallyCorrected(facts(files[i])).count == 0;
    }
    SumOfZeros(ts);
  }

  // ---------------------------------------------------------------------
  // convert_images_to_webp

  /** The totals the shared dictionary reaches over the files, and the first exception. */
  function Totals(files: seq<LegacyFile>, facts: LegacyFile -> LegacyFacts): Tally
  {
    if files == [] then Zero else Add(Totals(files[..|files| - 1], facts), FileTally(facts(files[|files| - 1])))
  }

  function FirstError(files: seq<LegacyFile>, facts: LegacyFile -> LegacyFacts): (e: Option<PyError>)
    ensures e.None? <==> forall i :: 0 <= i < |files| ==> FileError(facts(files[i])).None?
  {
    if files == [] then None
    else
      var init := files[..|files| - 1];
      assert forall i :: 0 <= i < |init| ==> init[i] == files[i];
      var e := FirstError(init, facts);
      if e.Some? then e else FileError(facts(files[|files| - 1]))
  }

  /** Everything outside the program that one run observes. */
  datatype LegacyEnv = LegacyEnv(
    isDir: bool,                            // os.path.isdir(source_folder)
    walk: seq<WalkStep>,                    // os.walk(source_folder)
    outputExists: bool,                     // os.path.exists(output_folder)
    now: nat,                               // int(time()) for the backup name
    facts: LegacyFile -> LegacyFacts,       // file system and codec, per file
    elapsed: real)                          // time() - start_time

  datatype LegacyRun =
    | NotADirectory
    | Raised(error: PyError)
    | Reported(totals: Tally, report: Report)

  /**
    `convert_images_to_webp`: a missing folder is logged and nothing else
    happens; there is no early return for an empty folder. The model runs
    every file in order and raises the first exception a worker let out,
    before the report (which files the pool still converts after that
    exception is not modelled).
   */
  method ConvertImagesToWebp(source: string, env: LegacyEnv)
    returns (run: LegacyRun, actions: seq<FsAction<string>>)
    ensures !env.isDir <==> run == NotADirectory
    ensures !env.isDir ==> actions == []
    ensures env.isDir ==> actions == CreateOutputFolder(source, env.outputExists, env.now)
    ensures env.isDir ==>
      var files := ImageFiles(env.walk);
      match FirstError(files, env.facts)
      case Some(e) => run == Raised(e)
      case None =>
        match GenerateReport(Totals(files, env.facts), env.elapsed)
        case Err(e) => run == Raised(e)
        case Ok(report) => run == Reported(Totals(files, env.facts), report)
  {
    if !env.isDir {
      return NotADirectory, [];
    }
    var stats := new ConversionStats(Some(0.0));
    var fileList := ImageFiles(env.walk);
    actions := CreateOutputFolder(source, env.outputExists, env.now);
    var firstError := ProcessAll(stats, OutputFolder(source), fileList, env.facts);
    if firstError.Some? {
      return Raised(firstError.value), actions;
    }
    stats.totalTime := Some(env.elapsed);
    match GenerateReport(stats.Totals(), env.elapsed)
    case Err(e) => run := Raised(e);
    case Ok(report) => run := Reported(stats.Totals(), report);
  }

  /**
    The pool's `map` over every file, in order: each worker adds to the
    shared dictionary; the first exception is kept to be re-raised.
   */
  method ProcessAll(stats: ConversionStats, outputFolder: string, fileList: seq<LegacyFile>, facts: LegacyFile -> LegacyFacts)
    returns (firstError: Option<PyError>)
    modifies stats
    ensures stats.Totals() == Add(old(stats.Totals()), Totals(fileList, facts))
    ensures firstError == FirstError(fileList, facts)
  {
    firstError := None;
    ghost var start := stats.Totals();
    for i := 0 to |fileList|
      invariant stats.Totals() == Add(start, Totals(fileList[..i], facts))
      invariant firstError == FirstError(fileList[..i], facts)
    {
      PrefixStep(fileList, i, facts);
      ghost var before := stats.Totals();
      var _, raised := ProcessFile(stats, outputFolder, fileList[i], facts(fileList[i]));
      assert stats.Totals() == Add(before, FileTally(facts(fileList[i])));
      AddAssociative(start, Totals(fileList[..i], facts), FileTally(facts(fileList[i])));
      if firstError.None? {
        firstError := raised;
      }
    }
    assert fileList[..|fileList|] == fileList;
  }

  /** One more file: its tuple is added, and its exception counts only when none came before. */
  lemma PrefixStep(files: seq<LegacyFile>, i: nat, facts: LegacyFile -> LegacyFacts)
    requires i < |files|
    ensures Totals(files[..i + 1], facts) == Add(Totals(files[..i], facts), FileTally(facts(files[i])))
    ensures FirstError(files[..i + 1], facts) ==
      if FirstError(files[..i], facts).Some? then FirstError(files[..i], facts) else FileError(facts(files[i]))
  {
    var p := files[..i + 1];
    assert p[..|p| - 1] == files[..i] && p[|p| - 1] == files[i];
  }

  /** An existing folder without images ends in `ZeroDivisionError` after the output folder was made. */
  lemma EmptyFolderDividesByZero(walk: seq<WalkStep>, facts: LegacyFile -> LegacyFacts, totalTime: real)
    requires ImageFiles(walk) == []
    ensures FirstError(ImageFiles(walk), facts) == None
    ensures Totals(ImageFiles(walk), facts) == Zero
    ensures GenerateReport(Totals(ImageFiles(walk), facts), totalTime) == Err(ZeroDivisionError)
  {
  }
}
