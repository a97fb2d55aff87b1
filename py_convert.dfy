/**
  src/convert.py: the worker wrapper, the in-place stats update, the
  settings validation and `convert_images`, which discovers the images,
  prepares the output folder, maps the worker over the files and folds
  the results into the stats before the report.
 */
module PyConvert {
  import opened Wrappers
  import opened Stats
  import opened Effects
  import opened PurePaths
  import opened PyUtils

  /** `worker`: `process_file`'s tuple, or `None` when it raised (the exception is logged). */
  function Worker(file: PurePath, source: PurePath, output: PurePath, format: string, facts: FileFacts): (r: Option<Tally>)
    ensures r.None? <==> Destination(file, source, output, format).Err? || !facts.dirCreated
                         || facts.originalSize.None? || facts.codec.OtherFailure?
    ensures r.Some? ==> IsFileTally(r.value)
  {
    match ProcessFile(file, source, output, format, facts)
    case Ok(t) => Some(t)
    case Err(_) => None
  }

  /** `update_conversion_stats`: each argument added to its own counter; the same dictionary is returned. */
  method UpdateConversionStats(stats: ConversionStats, originalSize: int, convertedSize: int, filesConverted: int)
    returns (r: ConversionStats)
    modifies stats
    ensures r == stats
    ensures stats.Totals() == Add(old(stats.Totals()), Tally(originalSize, convertedSize, filesConverted))
    ensures stats.totalTime == old(stats.totalTime)
  {
    stats.totalOriginalSize := stats.totalOriginalSize + originalSize;
    stats.totalConvertedSize := stats.totalConvertedSize + convertedSize;
    stats.conversionCount := stats.conversionCount + filesConverted;
    r := stats;
  }

  const UnpackNoneMessage := "cannot unpack non-iterable NoneType object"

  /**
    The `for original_size, converted_size, files_converted in ...` loop as
    written: unpacking a worker's `None` raises `TypeError`, which ends the
    loop and the run.
   */
  function FoldWorkerResults(results: seq<Option<Tally>>): (r: Result<Tally, PyError>)
    ensures r.Err? <==> exists i :: 0 <= i < |results| && results[i].None?
    ensures r.Err? ==> r.error == TypeError(UnpackNoneMessage)
  {
    if results == [] then Ok(Zero)
    else
      var init := results[..|results| - 1];
      assert forall i :: 0 <= i < |init| ==> init[i] == results[i];
      match FoldWorkerResults(init)
      case Err(e) => Err(e)
      case Ok(t) =>
        match results[|results| - 1]
        case None => Err(TypeError(UnpackNoneMessage))
        case Some(x) => Ok(Add(t, x))
  }

  /** A worker result read as a tuple, `None` as (0, 0, 0). */
  function TallyOf(x: Option<Tally>): Tally
  {
    if x.Some? then x.value else Zero
  }

  /** The tuples of the results, in order. */
  function Tallies(results: seq<Option<Tally>>): (ts: seq<Tally>)
    ensures |ts| == |results|
    ensures forall i :: 0 <= i < |results| ==> ts[i] == TallyOf(results[i])
  {
    if results == [] then [] else [TallyOf(results[0])] + Tallies(results[1..])
  }

  lemma {:induction false} TalliesConcat(a: seq<Option<Tally>>, b: seq<Option<Tally>>)
    ensures Tallies(a + b) == Tallies(a) + Tallies(b)
  {
    var l, r := Tallies(a + b), Tallies(a) + Tallies(b);
    assert |l| == |r|;
    forall i | 0 <= i < |l| ensures l[i] == r[i] {
      if i < |a| { assert (a + b)[i] == a[i]; } else { assert (a + b)[i] == b[i - |a|]; }
    }
  }

  /** Folding one more result onto a prefix. */
  lemma FoldSnoc(prefix: seq<Option<Tally>>, x: Option<Tally>)
    ensures FoldWorkerResults(prefix + [x]) ==
      match FoldWorkerResults(prefix)
      case Err(e) => Err(e)
      case Ok(t) => if x.None? then Err(TypeError(UnpackNoneMessage)) else Ok(Add(t, x.value))
  {
    assert (prefix + [x])[..|prefix|] == prefix;
  }

  /** When no worker failed, the fold reaches the field-wise sum of all tuples. */
  lemma {:induction false} FoldIsSum(results: seq<Option<Tally>>)
    requires forall i :: 0 <= i < |results| ==> results[i].Some?
    ensures FoldWorkerResults(results) == Ok(Sum(Tallies(results)))
  {
    if results != [] {
      var init := results[..|results| - 1];
      assert results == init + [results[|results| - 1]];
      TalliesConcat(init, [results[|results| - 1]]);
      FoldIsSum(init);
    }
  }

  /**
    The fold that isolates failures: a failed file (a `None` from the
    worker) counts as (0, 0, 0), so one failure does not end the run and
    the run always reaches the report.
   */
  function FoldWorkerResultsCorrected(results: seq<Option<Tally>>): (r: Tally)
    ensures r == Sum(Tallies(results))
    ensures FoldWorkerResults(results).Ok? ==> FoldWorkerResults(results) == Ok(r)
  {
    if results == [] then Zero
    else
      var init := results[..|results| - 1];
      var x := results[|results| - 1];
      assert results == init + [x];
      TalliesConcat(init, [x]);
      Add(FoldWorkerResultsCorrected(init), TallyOf(x))
  }

  /**
    With the corrected fold the totals do not depend on the order in which
    the workers finish.
   */
  lemma FoldCorrectedOrderIndependent(results: seq<Option<Tally>>, reordered: seq<Option<Tally>>)
    requires multiset(results) == multiset(reordered)
    ensures FoldWorkerResultsCorrected(results) == FoldWorkerResultsCorrected(reordered)
  {
    TalliesPermutation(results, reordered);
    SumPermutation(Tallies(results), Tallies(reordered));
  }

  lemma {:induction false} TalliesPermutation(a: seq<Option<Tally>>, b: seq<Option<Tally>>)
    requires multiset(a) == multiset(b)
    ensures multiset(Tallies(a)) == multiset(Tallies(b))
    decreases |a|
  {
    if a == [] {
      assert |b| == |multiset(b)| == 0;
    } else {
      var x := a[|a| - 1];
      var rest := a[..|a| - 1];
      assert a[..|a| - 1] + a[|a|..] == rest;
      MultisetRemove(a, |a| - 1);
      assert x in multiset(b);
      var j :| 0 <= j < |b| && b[j] == x;
      var others := b[..j] + b[j + 1..];
      MultisetRemove(b, j);
      TalliesPermutation(rest, others);
      TalliesRemove(a, |a| - 1);
      TalliesRemove(b, j);
    }
  }

  /** Dropping the `j`-th result drops its tuple from the multiset of tuples. */
  lemma TalliesRemove(b: seq<Option<Tally>>, j: nat)
    requires j < |b|
    ensures multiset(Tallies(b)) == multiset(Tallies(b[..j] + b[j + 1..])) + multiset{TallyOf(b[j])}
  {
    var front, back := b[..j], b[j + 1..];
    SplitAt(b, j);
    TalliesConcat(front + [b[j]], back);
    TalliesConcat(front, [b[j]]);
    TalliesConcat(front, back);
    assert Tallies([b[j]]) == [TallyOf(b[j])];
    MultisetMiddle(Tallies(front), TallyOf(b[j]), Tallies(back));
  }

  lemma MultisetMiddle<T>(front: seq<T>, x: T, back: seq<T>)
    ensures multiset(front + [x] + back) == multiset(front + back) + multiset{x}
  {
  }

  /**
    A file whose codec fails with an error other than the three listed
    ones makes the worker return `None`, and the fold as written then
    raises `TypeError` instead of counting the file as not converted.
   */
  lemma UnlistedCodecErrorAbortsRun(file: PurePath, source: PurePath, output: PurePath, format: string)
    requires Destination(file, source, output, format).Ok?
    ensures Worker(file, source, output, format, FileFacts(true, Some(100), OtherFailure)) == None
    ensures FoldWorkerResults([None]) == Err(TypeError(UnpackNoneMessage))
  {
    var none: Option<Tally> := None;
    FoldSnoc([], none);
    assert [none] == [] + [none];
  }

  /** The corrected fold steps over a failed worker: the totals stay as they were. */
  lemma CorrectedSkipsFailure(prefix: seq<Option<Tally>>)
    ensures FoldWorkerResultsCorrected(prefix + [None]) == FoldWorkerResultsCorrected(prefix)
  {
    var none: Option<Tally> := None;
    assert (prefix + [none])[..|prefix|] == prefix;
  }

  /** A file the codec cannot identify is counted as (0, 0, 0) ... */
  lemma UnidentifiedCountsZero(file: PurePath, source: PurePath, output: PurePath, format: string)
    requires Destination(file, source, output, format).Ok?
    ensures Worker(file, source, output, format, FileFacts(true, Some(100), Unidentified)) == Some(Zero)
  {
  }

  /**
    ... so a run in which every file was such a failure folds to (0, 0, 0),
    the case in which `generate_report` as written divides by zero.
   */
  lemma {:induction false} AllFailedRunFoldsToZero(results: seq<Option<Tally>>)
    requires forall i :: 0 <= i < |results| ==> results[i] == Some(Zero)
    ensures FoldWorkerResults(results) == Ok(Zero)
  {
    if results != [] {
      var init := results[..|results| - 1];
      assert results == init + [results[|results| - 1]];
      AllFailedRunFoldsToZero(init);
      FoldSnoc(init, results[|results| - 1]);
    }
  }

  // ---------------------------------------------------------------------
  // get_user_settings

  /** The check both numeric prompts apply: `isinstance(x, int) and x > 0`; no upper bound on quality. */
  predicate PositiveInt(x: int) { x > 0 }

  /** The folder prompt takes the line as typed: `Path(x)` never fails. */
  function AsPath(s: string): Option<string>
  {
    Some(s)
  }

  /** The settings `get_user_settings` returns. */
  datatype UserSettings = UserSettings(sourceFolder: string, quality: int, threads: int)

  /**
    `get_user_settings`: three prompts in a row on the same console, the
    folder (no default, `Path.is_dir`), then quality and threads (default
    values, positive integers). `int` and `Path.is_dir` are parameters;
    the default values come from a module that is not part of this model.
   */
  method GetUserSettings(inputs: seq<string>, isDir: string -> bool, parseInt: string -> Option<int>,
                         defaultQuality: int, defaultThreads: int)
    returns (r: Result<UserSettings, PyError>)
    ensures r.Ok? ==> isDir(r.value.sourceFolder)
    ensures r.Ok? ==> PositiveInt(r.value.quality) || r.value.quality == defaultQuality
    ensures r.Ok? ==> PositiveInt(r.value.threads) || r.value.threads == defaultThreads
    ensures r.Err? ==> r.error == EOFError
    ensures
      var folder := UserInputFrom(inputs, isDir, AsPath, None, 0);
      var rest := inputs[folder.linesRead..];
      var quality := UserInputFrom(rest, PositiveInt, parseInt, Some(defaultQuality), 0);
      var threads := UserInputFrom(rest[quality.linesRead..], PositiveInt, parseInt, Some(defaultThreads), 0);
      && (r.Ok? <==> folder.outcome.Ok? && quality.outcome.Ok? && threads.outcome.Ok?)
      && (r.Ok? ==> r.value == UserSettings(folder.outcome.value, quality.outcome.value, threads.outcome.value))
  {
    var folder := GetUserInput(inputs, isDir, AsPath, None);
    if folder.outcome.Err? {
      return Err(folder.outcome.error);
    }
    var rest := inputs[folder.linesRead..];
    var quality := GetUserInput(rest, PositiveInt, parseInt, Some(defaultQuality));
    if quality.outcome.Err? {
      return Err(quality.outcome.error);
    }
    rest := rest[quality.linesRead..];
    var threads := GetUserInput(rest, PositiveInt, parseInt, Some(defaultThreads));
    if threads.outcome.Err? {
      return Err(threads.outcome.error);
    }
    r := Ok(UserSettings(folder.outcome.value, quality.outcome.value, threads.outcome.value));
  }

  // ---------------------------------------------------------------------
  // convert_images

  /** Everything outside the program that one run observes. */
  datatype RunEnv = RunEnv(
    entries: seq<FsEntry>,          // what `rglob` walks below the source folder
    outputIsDir: bool,              // the output folder exists already
    answers: seq<string>,           // console lines for the replace prompt
    facts: PurePath -> FileFacts,   // file system and codec, per file
    elapsed: real)                  // `time() - start_time`

  /** How `convert_images` ended. */
  datatype PyRun =
    | NoImages                               // returned before touching the output folder
    | Cancelled                              // the user answered 'n'
    | Raised(error: PyError)                 // an exception left `convert_images`
    | Reported(totals: Tally, report: Report)

  /** Every worker result, in file order (`executor.map` keeps the order of its input). */
  function WorkerResults(files: seq<PurePath>, source: PurePath, output: PurePath, format: string, facts: PurePath -> FileFacts)
    : (rs: seq<Option<Tally>>)
    ensures |rs| == |files|
    ensures forall i :: 0 <= i < |files| ==> rs[i] == Worker(files[i], source, output, format, facts(files[i]))
  {
    seq(|files|, i requires 0 <= i < |files| => Worker(files[i], source, output, format, facts(files[i])))
  }

  /**
    The outcome of `convert_images` over the observed environment: no
    images, a cancelled replace, an error raised by the prompt, by the
    unpacking of a failed worker's `None` or by the report, or the totals
    and the report.
   */
  function Outcome(env: RunEnv, source: PurePath, format: string): (r: PyRun)
    ensures r == NoImages <==> ImageFiles(env.entries) == []
    ensures r == Cancelled <==>
      ImageFiles(env.entries) != [] &&
      CreateOutputFolder(source, format, env.outputIsDir, env.answers).result == Err(OperationCancelled)
    ensures r.Reported? ==>
      var folder := CreateOutputFolder(source, format, env.outputIsDir, env.answers);
      && folder.result.Ok?
      && var results := WorkerResults(ImageFiles(env.entries), source, folder.result.value, format, env.facts);
      && (forall i :: 0 <= i < |results| ==> results[i].Some?)
      && r.totals == Sum(Tallies(results))
      && GenerateReport(r.totals, env.elapsed) == Ok(r.report)
  {
    var files := ImageFiles(env.entries);
    if files == [] then NoImages
    else
      var folder := CreateOutputFolder(source, format, env.outputIsDir, env.answers);
      match folder.result
      case Err(e) => if e == OperationCancelled then Cancelled else Raised(e)
      case Ok(output) =>
        var results := WorkerResults(files, source, output, format, env.facts);
        match FoldWorkerResults(results)
        case Err(e) => Raised(e)
        case Ok(totals) =>
          FoldIsSum(results);
          match GenerateReport(totals, env.elapsed)
          case Err(e) => Raised(e)
          case Ok(report) => Reported(totals, report)
  }

  /**
    A run raises the unpacking `TypeError` exactly when the folder was
    prepared and some worker returned `None`.
   */
  lemma OutcomeUnpackError(env: RunEnv, source: PurePath, format: string)
    ensures Outcome(env, source, format) == Raised(TypeError(UnpackNoneMessage)) <==>
      var folder := CreateOutputFolder(source, format, env.outputIsDir, env.answers);
      && ImageFiles(env.entries) != []
      && folder.result.Ok?
      && exists i :: 0 <= i < |ImageFiles(env.entries)| &&
           Worker(ImageFiles(env.entries)[i], source, folder.result.value, format, env.facts(ImageFiles(env.entries)[i])).None?
  {
    var files := ImageFiles(env.entries);
    var folder := CreateOutputFolder(source, format, env.outputIsDir, env.answers);
    if files != [] && folder.result.Ok? {
      var results := WorkerResults(files, source, folder.result.value, format, env.facts);
      assert FoldWorkerResults(results).Err? <==> exists i :: 0 <= i < |results| && results[i].None?;
    }
  }

  /**
    A run divides by zero exactly when every worker returned a tuple and
    the original sizes add up to zero: no file was converted.
   */
  lemma OutcomeZeroDivision(env: RunEnv, source: PurePath, format: string)
    ensures Outcome(env, source, format) == Raised(ZeroDivisionError) <==>
      var folder := CreateOutputFolder(source, format, env.outputIsDir, env.answers);
      && ImageFiles(env.entries) != []
      && folder.result.Ok?
      && var results := WorkerResults(ImageFiles(env.entries), source, folder.result.value, format, env.facts);
      && (forall i :: 0 <= i < |results| ==> results[i].Some?)
      && Sum(Tallies(results)).original == 0
  {
    var files := ImageFiles(env.entries);
    var folder := CreateOutputFolder(source, format, env.outputIsDir, env.answers);
    if files != [] && folder.result.Ok? {
      var results := WorkerResults(files, source, folder.result.value, format, env.facts);
      if forall i :: 0 <= i < |results| ==> results[i].Some? {
        FoldIsSum(results);
      }
    }
  }

  /** The file system actions of one run: none without images, else those of the output folder. */
  function OutcomeActions(env: RunEnv, source: PurePath, format: string): (r: seq<FsAction<PurePath>>)
    ensures ImageFiles(env.entries) == [] ==> r == []
    ensures Outcome(env, source, format).Cancelled? ==> r == []
    ensures Outcome(env, source, format).Reported? ==> r != [] && r[|r| - 1] == MakeDirs(OutputFolder(source, format))
    ensures (exists i :: 0 <= i < |r| && r[i].RemoveTree?) ==> env.outputIsDir
  {
    if ImageFiles(env.entries) == [] then []
    else CreateOutputFolder(source, format, env.outputIsDir, env.answers).actions
  }

  /**
    `convert_images`: discovery, the output folder, then the worker
    results folded one by one into a fresh stats dictionary with
    `update_conversion_stats`; `total_time` is stamped once after the loop.
   */
  method ConvertImages(env: RunEnv, source: PurePath, format: string)
    returns (run: PyRun, actions: seq<FsAction<PurePath>>)
    ensures run == Outcome(env, source, format)
    ensures actions == OutcomeActions(env, source, format)
  {
    var fileList := GetImageFiles(env.entries);
    actions := [];
    if fileList == [] {
      return NoImages, actions;
    }
    var folder := CreateOutputFolder(source, format, env.outputIsDir, env.answers);
    actions := folder.actions;
    if folder.result.Err? {
      if folder.result.error == OperationCancelled {
        return Cancelled, actions;
      }
      return Raised(folder.result.error), actions;
    }
    var outputFolder := folder.result.value;
    var results := WorkerResults(fileList, source, outputFolder, format, env.facts);
    var totals, totalTime := FoldIntoStats(results, env.elapsed);
    match totals
    case Err(e) => run := Raised(e);
    case Ok(t) =>
      match GenerateReport(t, totalTime.value)
      case Err(e) => run := Raised(e);
      case Ok(report) => run := Reported(t, report);
  }

  /**
    The loop of `convert_images`: each result unpacked and added to a fresh
    stats dictionary with `update_conversion_stats`, stopping at the first
    `None` (the unpacking raises before `total_time` is set); after the
    loop `total_time` is stamped with the elapsed time.
   */
  method FoldIntoStats(results: seq<Option<Tally>>, elapsed: real) returns (r: Result<Tally, PyError>, totalTime: Option<real>)
    ensures r == FoldWorkerResults(results)
    ensures r.Ok? <==> totalTime == Some(elapsed)
    ensures r.Err? ==> totalTime == None
  {
    var conversionStats := new ConversionStats(None);
    var consumed := 0;
    while consumed < |results|
      invariant consumed <= |results|
      invariant FoldWorkerResults(results[..consumed]) == Ok(conversionStats.Totals())
      invariant fresh(conversionStats)
      invariant conversionStats.totalTime == None
    {
      var x := results[consumed];
      assert results[..consumed + 1] == results[..consumed] + [x];
      FoldSnoc(results[..consumed], x);
      if x.None? {
        FoldErrorSticks(results, consumed + 1);
        return Err(TypeError(UnpackNoneMessage)), conversionStats.totalTime;
      }
      var t := x.value;
      conversionStats := UpdateConversionStats(conversionStats, t.original, t.converted, t.count);
      consumed := consumed + 1;
    }
    assert results[..consumed] == results;
    conversionStats.totalTime := Some(elapsed);
    r, totalTime := Ok(conversionStats.Totals()), conversionStats.totalTime;
  }

  /** Once the fold of a prefix has failed, the fold of the whole fails too. */
  lemma {:induction false} FoldErrorSticks(results: seq<Option<Tally>>, k: nat)
    requires k <= |results| && FoldWorkerResults(results[..k]).Err?
    ensures FoldWorkerResults(results).Err?
  {
    var i :| 0 <= i < k && results[..k][i].None?;
    assert results[i].None?;
  }
}
