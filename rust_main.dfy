/**
  src_rust/src/main.rs: the settings prompts, the batching of the files
  and the run that converts every batch, collecting the errors.
 */
module RustMain {
  import opened Wrappers
  import opened Stats
  import opened Effects
  import opened OsPaths
  import opened RustUtils

  const OutputImageFormat := "WebP"
  const DefaultQuality := 80
  const DefaultThreads := 16

  /** The largest value of the `i32` the quality is read into. */
  const I32Max := 0x7FFF_FFFF
  /** The largest value of `u8`, the type the encoder's quality is narrowed to. */
  const U8Max := 0xFF

  datatype UserSettings = UserSettings(sourceFolder: OsPath, quality: int, threads: int)

  /** `PathBuf::from_str`, which never fails, as the conversion the folder prompt uses. */
  function PathConversion(parsePath: string -> OsPath): string -> Option<OsPath>
  {
    (s: string) => Some(parsePath(s))
  }

  /** The check both numeric prompts apply: `*num > 0`. */
  predicate Positive(x: int) { x > 0 }

  /**
    The three prompts answer one after the other: the folder on the console
    lines, quality on the lines after the folder's answer, threads on the
    lines after that; `linesRead` counts the lines all three consumed.
   */
  ghost predicate AnsweredInTurn(lines: seq<Line>, isDir: OsPath -> bool, parsePath: string -> OsPath,
                                 parseI32: string -> Option<int>, parseUsize: string -> Option<int>,
                                 s: UserSettings, linesRead: nat)
  {
    var folder := UserInput(lines, isDir, PathConversion(parsePath), None);
    var quality := UserInput(lines[folder.linesRead..], Positive, parseI32, Some(DefaultQuality));
    var threads := UserInput(lines[folder.linesRead + quality.linesRead..], Positive, parseUsize, Some(DefaultThreads));
    && folder.value.Some?
    && s == UserSettings(folder.value.value, quality.value.value, threads.value.value)
    && linesRead == folder.linesRead + quality.linesRead + threads.linesRead
  }

  /**
    `get_user_settings`: the folder (checked with `is_dir`, no default),
    then quality and threads (positive, with the defaults), each prompt
    reading the console lines the previous one left. Parsing into
    `i32` / `usize` and `is_dir` are parameters. `None` when the folder
    prompt never gets an answer: the loop then does not return.
   */
  method GetUserSettings(lines: seq<Line>, isDir: OsPath -> bool, parsePath: string -> OsPath,
                         parseI32: string -> Option<int>, parseUsize: string -> Option<int>)
    returns (r: Option<UserSettings>, linesRead: nat)
    ensures linesRead <= |lines|
    ensures r.Some? ==> isDir(r.value.sourceFolder)
    ensures r.Some? ==> Positive(r.value.quality) || r.value.quality == DefaultQuality
    ensures r.Some? ==> Positive(r.value.threads) || r.value.threads == DefaultThreads
    ensures r.None? <==> UserInput(lines, isDir, PathConversion(parsePath), None).value.None?
    ensures r.Some? ==> AnsweredInTurn(lines, isDir, parsePath, parseI32, parseUsize, r.value, linesRead)
  {
    var folder := GetUserInput(lines, isDir, PathConversion(parsePath), None);
    if folder.value.None? {
      return None, folder.linesRead;
    }
    linesRead := folder.linesRead;
    var quality := GetUserInput(lines[linesRead..], Positive, parseI32, Some(DefaultQuality));
    linesRead := linesRead + quality.linesRead;
    var threads := GetUserInput(lines[linesRead..], Positive, parseUsize, Some(DefaultThreads));
    linesRead := linesRead + threads.linesRead;
    r := Some(UserSettings(folder.value.value, quality.value.value, threads.value.value));
  }

  // ---------------------------------------------------------------------
  // Batching

  /** `(len / (threads * 32)).max(1)`. */
  function BatchSize(len: nat, threads: nat): (b: nat)
    requires threads > 0
    ensures b >= 1
    ensures len >= threads * 32 ==> b * threads * 32 <= len < (b + 1) * threads * 32
    ensures len < threads * 32 ==> b == 1
  {
    var q := len / (threads * 32);
    if q > 1 then q else 1
  }

  /** `par_chunks(b)`: consecutive slices of length `b`, the last one possibly shorter. */
  function Chunks<T>(s: seq<T>, b: nat): (cs: seq<seq<T>>)
    requires b > 0
    ensures forall i :: 0 <= i < |cs| ==> 0 < |cs[i]| <= b
    ensures forall i :: 0 <= i < |cs| - 1 ==> |cs[i]| == b
    decreases |s|
  {
    if s == [] then []
    else if |s| <= b then [s]
    else [s[..b]] + Chunks(s[b..], b)
  }

  /** The chunks laid end to end. */
  function Flatten<T>(cs: seq<seq<T>>): seq<T>
  {
    if cs == [] then [] else Flatten(cs[..|cs| - 1]) + cs[|cs| - 1]
  }

  lemma {:induction false} FlattenCons<T>(c: seq<T>, cs: seq<seq<T>>)
    ensures Flatten([c] + cs) == c + Flatten(cs)
    decreases |cs|
  {
    if cs != [] {
      var init := cs[..|cs| - 1];
      assert ([c] + cs)[..|cs|] == [c] + init;
      FlattenCons(c, init);
    } else {
      assert Flatten([c]) == Flatten([]) + c;
    }
  }

  /** Chunking loses nothing and reorders nothing. */
  lemma {:induction false} ChunksFlatten<T>(s: seq<T>, b: nat)
    requires b > 0
    ensures Flatten(Chunks(s, b)) == s
    decreases |s|
  {
    if s == [] {
    } else if |s| <= b {
      assert Flatten([s]) == Flatten([]) + s;
    } else {
      ChunksFlatten(s[b..], b);
      FlattenCons(s[..b], Chunks(s[b..], b));
      assert s[..b] + s[b..] == s;
    }
  }

  /** There are `ceil(|s| / b)` chunks: just enough to hold every file; no files, no chunks. */
  lemma {:induction false} ChunksCount<T>(s: seq<T>, b: nat)
    requires b > 0
    ensures |s| <= |Chunks(s, b)| * b < |s| + b
    decreases |s|
  {
    if |s| > b {
      var k := |Chunks(s[b..], b)|;
      ChunksCount(s[b..], b);
      assert |Chunks(s, b)| == k + 1;
      assert (k + 1) * b == k * b + b;
    }
  }

  /** Narrowing the quality to `u8` with `try_into`: `None` outside 0..255. */
  function NarrowToU8(q: int): (r: Option<int>)
    ensures r.Some? <==> 0 <= q <= U8Max
    ensures r.Some? ==> r.value == q
  {
    if 0 <= q <= U8Max then Some(q) else None
  }

  // ---------------------------------------------------------------------
  // process_files

  /** The outcome of `process_file` for one file of the run. */
  function Convert(file: OsPath, settings: UserSettings, output: OsPath, facts: OsPath -> FileFacts): Result<Tally, RustError>
  {
    ProcessFile(file, settings.sourceFolder, output, OutputImageFormat, facts(file))
  }

  /** The errors of the files, in file order: the contents of the shared error list. */
  function Failures(files: seq<OsPath>, settings: UserSettings, output: OsPath, facts: OsPath -> FileFacts): (es: seq<RustError>)
    ensures |es| <= |files|
  {
    if files == [] then []
    else
      var r := Convert(files[|files| - 1], settings, output, facts);
      Failures(files[..|files| - 1], settings, output, facts) + (if r.Err? then [r.error] else [])
  }

  /** The error list stays empty exactly when every file converts. */
  lemma {:induction false} FailuresEmpty(files: seq<OsPath>, settings: UserSettings, output: OsPath, facts: OsPath -> FileFacts)
    ensures Failures(files, settings, output, facts) == [] <==>
      forall i :: 0 <= i < |files| ==> Convert(files[i], settings, output, facts).Ok?
  {
    if files != [] {
      var init, last := files[..|files| - 1], files[|files| - 1];
      var r := Convert(last, settings, output, facts);
      FailuresEmpty(init, settings, output, facts);
      var rest := if r.Err? then [r.error] else [];
      assert Failures(files, settings, output, facts) == Failures(init, settings, output, facts) + rest;
      if Failures(files, settings, output, facts) == [] {
        assert |Failures(init, settings, output, facts)| == 0 && rest == [];
        forall i | 0 <= i < |files| ensures Convert(files[i], settings, output, facts).Ok? {
          if i < |init| { assert files[i] == init[i]; }
        }
      }
      if forall i :: 0 <= i < |files| ==> Convert(files[i], settings, output, facts).Ok? {
        forall i | 0 <= i < |init| ensures Convert(init[i], settings, output, facts).Ok? {
          assert init[i] == files[i];
        }
        assert r.Ok?;
      }
    }
  }

  lemma FailuresSnoc(files: seq<OsPath>, f: OsPath, settings: UserSettings, output: OsPath, facts: OsPath -> FileFacts)
    ensures Failures(files + [f], settings, output, facts) ==
      Failures(files, settings, output, facts) +
      (if Convert(f, settings, output, facts).Err? then [Convert(f, settings, output, facts).error] else [])
  {
    assert (files + [f])[..|files|] == files;
  }

  lemma FlattenSnoc<T>(cs: seq<seq<T>>, k: nat)
    requires k < |cs|
    ensures Flatten(cs[..k + 1]) == Flatten(cs[..k]) + cs[k]
  {
    assert cs[..k + 1][..k] == cs[..k];
  }

  lemma {:induction false} FailuresAppend(a: seq<OsPath>, b: seq<OsPath>, settings: UserSettings, output: OsPath, facts: OsPath -> FileFacts)
    ensures Failures(a + b, settings, output, facts) == Failures(a, settings, output, facts) + Failures(b, settings, output, facts)
    decreases |b|
  {
    if b != [] {
      var init, last := b[..|b| - 1], b[|b| - 1];
      assert a + b == (a + init) + [last];
      assert b == init + [last];
      var fa, fi := Failures(a, settings, output, facts), Failures(init, settings, output, facts);
      var r := Convert(last, settings, output, facts);
      var e := if r.Err? then [r.error] else [];
      FailuresAppend(a, init, settings, output, facts);
      FailuresSnoc(a + init, last, settings, output, facts);
      FailuresSnoc(init, last, settings, output, facts);
      calc {
        Failures(a + b, settings, output, facts);
        Failures(a + init, settings, output, facts) + e;
        (fa + fi) + e;
        { assert (fa + fi) + e == fa + (fi + e); }
        fa + (fi + e);
        fa + Failures(b, settings, output, facts);
      }
    } else {
      assert a + b == a;
    }
  }

  /** The closure each batch runs: every file of the batch in turn, each error pushed to the list. */
  method ConvertBatch(batch: seq<OsPath>, settings: UserSettings, output: OsPath, facts: OsPath -> FileFacts)
    returns (errors: seq<RustError>)
    ensures errors == Failures(batch, settings, output, facts)
  {
    errors := [];
    for j := 0 to |batch|
      invariant errors == Failures(batch[..j], settings, output, facts)
    {
      FailuresSnoc(batch[..j], batch[j], settings, output, facts);
      assert batch[..j + 1] == batch[..j] + [batch[j]];
      var result := Convert(batch[j], settings, output, facts);
      if result.Err? {
        errors := errors + [result.error];
      }
    }
    assert batch[..|batch|] == batch;
  }

  /** What `process_files` leaves behind: the error list and the batch counter. */
  datatype FilesRun = QualityRejected | Processed(errors: seq<RustError>, batches: nat)

  /**
    `process_files`: a quality that does not fit `u8` ends the function
    before any file; otherwise every batch is converted file by file, each
    error pushed to the shared list and the counter bumped once per batch.
    The batches are run one after the other here (see the README).
   */
  method ProcessFiles(imageFiles: seq<OsPath>, settings: UserSettings, output: OsPath, facts: OsPath -> FileFacts)
    returns (run: FilesRun)
    requires settings.threads > 0
    ensures settings.quality > U8Max || settings.quality < 0 <==> run == QualityRejected
    ensures run.Processed? ==>
      && run.errors == Failures(imageFiles, settings, output, facts)
      && run.batches == |Chunks(imageFiles, BatchSize(|imageFiles|, settings.threads))|
  {
    var quality := NarrowToU8(settings.quality);
    if quality.None? {
      return QualityRejected;
    }
    var batchSize := BatchSize(|imageFiles|, settings.threads);
    var batches := Chunks(imageFiles, batchSize);
    var errors: seq<RustError> := [];
    var counter := 0;
    while counter < |batches|
      invariant counter <= |batches|
      invariant errors == Failures(Flatten(batches[..counter]), settings, output, facts)
    {
      var batchErrors := ConvertBatch(batches[counter], settings, output, facts);
      FailuresAppend(Flatten(batches[..counter]), batches[counter], settings, output, facts);
      FlattenSnoc(batches, counter);
      errors := errors + batchErrors;
      counter := counter + 1;
    }
    assert batches[..counter] == batches;
    ChunksFlatten(imageFiles, batchSize);
    run := Processed(errors, counter);
  }

  /** How `main` ends. */
  datatype RustRun =
    | Hangs                                  // the folder prompt never got an answer
    | Panicked(error: RustError)             // `expect("Failed to create output folder")`
    | Finished(settings: UserSettings, output: OsPath, actions: seq<FsAction<OsPath>>, files: FilesRun)

  /** Everything outside the program that one run of `main` observes. */
  datatype RustEnv = RustEnv(
    lines: seq<Line>,                      // the console
    isDir: OsPath -> bool,                 // `Path::is_dir`
    parsePath: string -> OsPath,           // `PathBuf::from_str`
    parseI32: string -> Option<int>,       // `i32::from_str`
    parseUsize: string -> Option<int>,     // `usize::from_str`
    walk: OsPath -> seq<WalkItem>,         // `WalkDir::new(source)`
    facts: OsPath -> FileFacts)            // file system and codec, per file

  /** The console line the replace prompt reads: the next one, or the empty line at end of file. */
  function NextLine(lines: seq<Line>, k: nat): Line
  {
    if k < |lines| then lines[k] else Read("")
  }

  /**
    `main`: settings, discovery, output folder (a failure panics), then the
    files. Unlike the Python version, an empty discovery still creates the
    output folder.
   */
  method RunProgram(env: RustEnv) returns (run: RustRun)
    ensures run == Hangs <==> UserInput(env.lines, env.isDir, PathConversion(env.parsePath), None).value.None?
    ensures run.Panicked? ==> run.error in {InvalidSourcePath, NotUtf8, OperationCancelled, Io}
    ensures run.Finished? ==>
      var source := run.settings.sourceFolder;
      && env.isDir(source)
      && OutputFolder(source, OutputImageFormat) == Ok(run.output)
      && run.actions != [] && run.actions[|run.actions| - 1] == MakeDirs(run.output)
      && (0 <= run.settings.quality <= U8Max <==> run.files.Processed?)
      && (run.files.Processed? ==>
            run.files.errors == Failures(ImageFiles(env.walk(source)), run.settings, run.output, env.facts))
  {
    var settings, consumed := GetUserSettings(env.lines, env.isDir, env.parsePath, env.parseI32, env.parseUsize);
    if settings.None? {
      return Hangs;
    }
    var s := settings.value;
    var imageFiles := GetImageFiles(env.walk(s.sourceFolder));
    var target := OutputFolder(s.sourceFolder, OutputImageFormat);
    var outputIsDir := target.Ok? && env.isDir(target.value);
    var folder := CreateOutputFolder(s.sourceFolder, OutputImageFormat, outputIsDir, NextLine(env.lines, consumed));
    if folder.result.Err? {
      return Panicked(folder.result.error);
    }
    var files := ProcessFiles(imageFiles, s, folder.result.value, env.facts);
    run := Finished(s, folder.result.value, folder.actions, files);
  }
}
