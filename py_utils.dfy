/**
  src/utils.py: input validation and retry loops, image discovery, the
  output folder, the per-file conversion step and the report arithmetic.
  Console input is a finite sequence of lines, the file system and the
  image codec are per-file facts given as parameters.
 */
module PyUtils {
  import opened Wrappers
  import opened Text
  import opened Stats
  import opened Effects
  import opened PurePaths

  /** The exceptions that leave the functions of src/utils.py. */
  datatype PyError =
    | ValueError(message: string)
    | OSError
    | FileNotFound
    | EOFError
    | OperationCancelled
    | TypeError(message: string)
    | ZeroDivisionError

  const MaxRetriesMessage := "Maximum retries reached. Invalid input."

  /** A value obtained from console input, and how many lines were read to get it. */
  datatype Reply<T> = Reply(outcome: Result<T, PyError>, linesRead: nat)

  // ---------------------------------------------------------------------
  // get_user_input_for_folder

  /**
    The answer `get_user_input_for_folder` reaches when it has already read
    `k` lines: the first lower-cased line among the first `maxRetries` that
    is allowed; `ValueError` after `maxRetries` refused lines; `EOFError`
    when the input ends first.
   */
  function FolderAnswerFrom(inputs: seq<string>, allowed: set<string>, maxRetries: int, k: nat): (r: Reply<string>)
    requires k <= |inputs| && (k <= maxRetries || k == 0)
    requires forall j :: 0 <= j < k ==> Lower(inputs[j]) !in allowed
    ensures k <= r.linesRead
    ensures r.linesRead <= |inputs| && (maxRetries <= 0 || r.linesRead <= maxRetries)
    ensures r.outcome.Ok? ==> 0 < r.linesRead && r.outcome.value == Lower(inputs[r.linesRead - 1]) && r.outcome.value in allowed
    ensures forall j :: 0 <= j < r.linesRead - 1 ==> Lower(inputs[j]) !in allowed
    ensures r.outcome.Err? ==> forall j :: 0 <= j < r.linesRead ==> Lower(inputs[j]) !in allowed
    ensures r.outcome.Err? ==>
      || (r.outcome == Err(ValueError(MaxRetriesMessage)) && r.linesRead == (if maxRetries <= 0 then 0 else maxRetries))
      || (r.outcome == Err(EOFError) && r.linesRead == |inputs| < maxRetries)
    decreases maxRetries - k
  {
    if k >= maxRetries then Reply(Err(ValueError(MaxRetriesMessage)), k)
    else if k >= |inputs| then Reply(Err(EOFError), k)
    else if Lower(inputs[k]) in allowed then Reply(Ok(Lower(inputs[k])), k + 1)
    else FolderAnswerFrom(inputs, allowed, maxRetries, k + 1)
  }

  function FolderAnswer(inputs: seq<string>, allowed: set<string>, maxRetries: int): Reply<string>
  {
    FolderAnswerFrom(inputs, allowed, maxRetries, 0)
  }

  /** `get_user_input_for_folder`: the `for _ in range(max_retries)` loop. */
  method GetUserInputForFolder(inputs: seq<string>, allowed: set<string>, maxRetries: int) returns (r: Reply<string>)
    ensures r == FolderAnswer(inputs, allowed, maxRetries)
  {
    var k := 0;
    while k < maxRetries
      invariant 0 <= k && (k <= maxRetries || k == 0) && k <= |inputs|
      invariant forall j :: 0 <= j < k ==> Lower(inputs[j]) !in allowed
      invariant FolderAnswerFrom(inputs, allowed, maxRetries, k) == FolderAnswer(inputs, allowed, maxRetries)
      decreases maxRetries - k
    {
      if k >= |inputs| {
        return Reply(Err(EOFError), k);
      }
      var userInput := Lower(inputs[k]);
      if userInput in allowed {
        return Reply(Ok(userInput), k + 1);
      }
      k := k + 1;
    }
    r := Reply(Err(ValueError(MaxRetriesMessage)), k);
  }

  /** The answer prefix `FolderAnswerFrom` walks over is the same at every step. */
  lemma FolderAnswerStep(inputs: seq<string>, allowed: set<string>, maxRetries: int, k: nat)
    requires k < |inputs| && k < maxRetries
    requires forall j :: 0 <= j < k ==> Lower(inputs[j]) !in allowed
    requires Lower(inputs[k]) !in allowed
    ensures FolderAnswerFrom(inputs, allowed, maxRetries, k + 1) == FolderAnswerFrom(inputs, allowed, maxRetries, k)
  {
  }

  // ---------------------------------------------------------------------
  // validate_input and get_user_input

  /**
    `validate_input`: a non-empty line is converted (`None` when the
    conversion raises `ValueError`) and returned only when it validates; an
    empty line gives the default, which is not validated.
   */
  function ValidateInput<T>(userInput: string, valid: T -> bool, convert: string -> Option<T>, default: Option<T>): (r: Option<T>)
    ensures userInput != "" && convert(userInput).Some? && valid(convert(userInput).value) ==> r == convert(userInput)
    ensures userInput != "" && (convert(userInput).None? || !valid(convert(userInput).value)) ==> r == None
    ensures userInput == "" ==> r == default
  {
    if userInput != "" then
      match convert(userInput)
      case Some(converted) => if valid(converted) then Some(converted) else None
      case None => None
    else default
  }

  /** The value `get_user_input` returns when it has already read `k` lines. */
  function UserInputFrom<T>(inputs: seq<string>, valid: T -> bool, convert: string -> Option<T>, default: Option<T>, k: nat): (r: Reply<T>)
    requires k <= |inputs|
    requires forall j :: 0 <= j < k ==> ValidateInput(inputs[j], valid, convert, default).None?
    ensures k <= r.linesRead <= |inputs|
    ensures forall j :: 0 <= j < r.linesRead - 1 ==> ValidateInput(inputs[j], valid, convert, default).None?
    ensures r.outcome.Ok? ==> 0 < r.linesRead && Some(r.outcome.value) == ValidateInput(inputs[r.linesRead - 1], valid, convert, default)
    ensures r.outcome.Err? ==> r.outcome == Err(EOFError) && r.linesRead == |inputs|
                               && forall j :: 0 <= j < |inputs| ==> ValidateInput(inputs[j], valid, convert, default).None?
    decreases |inputs| - k
  {
    if k == |inputs| then Reply(Err(EOFError), k)
    else match ValidateInput(inputs[k], valid, convert, default)
      case Some(v) => Reply(Ok(v), k + 1)
      case None => UserInputFrom(inputs, valid, convert, default, k + 1)
  }

  /** `get_user_input`: the `while True` loop, over the lines the console will give. */
  method GetUserInput<T>(inputs: seq<string>, valid: T -> bool, convert: string -> Option<T>, default: Option<T>) returns (r: Reply<T>)
    ensures r == UserInputFrom(inputs, valid, convert, default, 0)
  {
    var k := 0;
    while k < |inputs|
      invariant k <= |inputs|
      invariant forall j :: 0 <= j < k ==> ValidateInput(inputs[j], valid, convert, default).None?
      invariant UserInputFrom(inputs, valid, convert, default, k) == UserInputFrom(inputs, valid, convert, default, 0)
    {
      var validInput := ValidateInput(inputs[k], valid, convert, default);
      if validInput.Some? {
        return Reply(Ok(validInput.value), k + 1);
      }
      k := k + 1;
    }
    r := Reply(Err(EOFError), k);
  }

  // ---------------------------------------------------------------------
  // get_image_files

  /** An entry below the source folder as `rglob` walks it; `rglob` does not look at the kind. */
  datatype FsEntry = FsEntry(path: PurePath, isDir: bool)

  /** The `ImageFormat` values, in declaration order. */
  const ImageFormatValues: seq<string> := ["png", "jpeg", "jpg", "webp"]

  /** fnmatch of a name against `*.<ext>` on POSIX: the name ends with "." and `ext`. */
  predicate MatchesGlob(name: string, ext: string)
  {
    EndsWith(name, "." + ext)
  }

  /** `source_folder.rglob("*.<ext>")` over the entries, in walk order. */
  function Rglob(entries: seq<FsEntry>, ext: string): (r: seq<PurePath>)
    ensures forall p :: p in r <==> exists i :: 0 <= i < |entries| && entries[i].path == p && MatchesGlob(Name(p), ext)
  {
    if entries == [] then []
    else
      var init := entries[..|entries| - 1];
      var last := entries[|entries| - 1];
      assert forall i :: 0 <= i < |init| ==> init[i] == entries[i];
      Rglob(init, ext) + (if MatchesGlob(Name(last.path), ext) then [last.path] else [])
  }

  /** The patterns `*.png`, `*.jpeg`, ... matched one after the other, results concatenated. */
  function MatchAll(entries: seq<FsEntry>, exts: seq<string>): seq<PurePath>
  {
    if exts == [] then [] else MatchAll(entries, exts[..|exts| - 1]) + Rglob(entries, exts[|exts| - 1])
  }

  /** `get_image_files`: extend the list with the matches of each pattern in turn. */
  method GetImageFiles(entries: seq<FsEntry>) returns (imageFiles: seq<PurePath>)
    ensures imageFiles == Rglob(entries, "png") + Rglob(entries, "jpeg") + Rglob(entries, "jpg") + Rglob(entries, "webp")
  {
    imageFiles := [];
    var patterns := seq(|ImageFormatValues|, i requires 0 <= i < |ImageFormatValues| => Lower(ImageFormatValues[i]));
    FormatValuesLower();
    assert patterns == ImageFormatValues;
    var i := 0;
    while i < |patterns|
      invariant i <= |patterns|
      invariant imageFiles == MatchAll(entries, patterns[..i])
    {
      assert patterns[..i + 1][..i] == patterns[..i];
      imageFiles := imageFiles + Rglob(entries, patterns[i]);
      i := i + 1;
    }
    assert patterns[..i] == ImageFormatValues;
    MatchAllFormats(entries);
  }

  /** The format values are lower case already, so `.lower()` leaves them as they are. */
  lemma FormatValuesLower()
    ensures forall i :: 0 <= i < |ImageFormatValues| ==> Lower(ImageFormatValues[i]) == ImageFormatValues[i]
  {
    forall i | 0 <= i < |ImageFormatValues| ensures Lower(ImageFormatValues[i]) == ImageFormatValues[i] {
      LowerOfLower(ImageFormatValues[i]);
    }
  }

  lemma MatchAllFormats(entries: seq<FsEntry>)
    ensures MatchAll(entries, ImageFormatValues) == Rglob(entries, "png") + Rglob(entries, "jpeg") + Rglob(entries, "jpg") + Rglob(entries, "webp")
  {
    var p1, p2, p3, p4 := ["png"], ["png", "jpeg"], ["png", "jpeg", "jpg"], ImageFormatValues;
    assert p1[..0] == [] && p2[..1] == p1 && p3[..2] == p2 && p4[..3] == p3;
    assert MatchAll(entries, p1) == Rglob(entries, "png");
    assert MatchAll(entries, p2) == MatchAll(entries, p1) + Rglob(entries, "jpeg");
    assert MatchAll(entries, p3) == MatchAll(entries, p2) + Rglob(entries, "jpg");
    assert MatchAll(entries, p4) == MatchAll(entries, p3) + Rglob(entries, "webp");
  }

  /** The discovery result as one function of the walk. */
  function ImageFiles(entries: seq<FsEntry>): seq<PurePath>
  {
    Rglob(entries, "png") + Rglob(entries, "jpeg") + Rglob(entries, "jpg") + Rglob(entries, "webp")
  }

  predicate IsImageName(name: string)
  {
    MatchesGlob(name, "png") || MatchesGlob(name, "jpeg") || MatchesGlob(name, "jpg") || MatchesGlob(name, "webp")
  }

  /**
    A path is discovered exactly when some walked entry has it and its name
    ends in ".png", ".jpeg", ".jpg" or ".webp", case-sensitively; the kind
    of the entry plays no part, so a directory named "x.png" is discovered.
   */
  lemma ImageFilesMembership(entries: seq<FsEntry>, p: PurePath)
    ensures p in ImageFiles(entries) <==> (exists i :: 0 <= i < |entries| && entries[i].path == p) && IsImageName(Name(p))
  {
  }

  predicate Distinct<T(==)>(s: seq<T>)
  {
    forall i, j :: 0 <= i < j < |s| ==> s[i] != s[j]
  }

  /** A name that matches `*.<ext>` ends with the characters of "." + `ext`. */
  lemma GlobTail(name: string, ext: string, k: nat)
    requires MatchesGlob(name, ext) && k <= |ext|
    ensures name[|name| - 1 - k] == ("." + ext)[|ext| - k]
  {
    assert name[|name| - 1 - k] == name[|name| - |ext| - 1..][|ext| - k];
  }

  /** No name matches two of the four patterns. */
  lemma PatternsDisjoint(name: string, a: string, b: string)
    requires a in ImageFormatValues && b in ImageFormatValues && a != b
    ensures !(MatchesGlob(name, a) && MatchesGlob(name, b))
  {
    if MatchesGlob(name, a) && MatchesGlob(name, b) {
      // webp is the only pattern ending in 'p'; png and jpg differ two from
      // the end; the dot of png and jpg is where jpeg has its 'j'.
      GlobTail(name, a, 0); GlobTail(name, b, 0);
      GlobTail(name, a, 2); GlobTail(name, b, 2);
      GlobTail(name, a, 3); GlobTail(name, b, 3);
    }
  }

  /** The matches of two different patterns share no path. */
  lemma RglobDisjoint(entries: seq<FsEntry>, a: string, b: string)
    requires a in ImageFormatValues && b in ImageFormatValues && a != b
    ensures forall p :: p in Rglob(entries, a) ==> p !in Rglob(entries, b)
  {
    forall p | p in Rglob(entries, a) ensures p !in Rglob(entries, b) {
      PatternsDisjoint(Name(p), a, b);
    }
  }

  lemma {:induction false} RglobDistinct(entries: seq<FsEntry>, ext: string)
    requires Distinct(seq(|entries|, i requires 0 <= i < |entries| => entries[i].path))
    ensures Distinct(Rglob(entries, ext))
  {
    if entries != [] {
      var init := entries[..|entries| - 1];
      var paths := seq(|entries|, i requires 0 <= i < |entries| => entries[i].path);
      assert seq(|init|, i requires 0 <= i < |init| => init[i].path) == paths[..|init|];
      RglobDistinct(init, ext);
      var last := entries[|entries| - 1];
      forall p | p in Rglob(init, ext) ensures p != last.path {
        var i :| 0 <= i < |init| && init[i].path == p && MatchesGlob(Name(p), ext);
        assert paths[i] == p && paths[|entries| - 1] == last.path;
      }
    }
  }

  /**
    When the walk lists every path once, discovery lists every image once:
    the four patterns never match the same name.
   */
  lemma ImageFilesDistinct(entries: seq<FsEntry>)
    requires Distinct(seq(|entries|, i requires 0 <= i < |entries| => entries[i].path))
    ensures Distinct(ImageFiles(entries))
  {
    var png, jpeg, jpg, webp := Rglob(entries, "png"), Rglob(entries, "jpeg"), Rglob(entries, "jpg"), Rglob(entries, "webp");
    RglobDistinct(entries, "png");
    RglobDistinct(entries, "jpeg");
    RglobDistinct(entries, "jpg");
    RglobDistinct(entries, "webp");
    RglobDisjoint(entries, "png", "jpeg");
    DistinctConcat(png, jpeg);
    RglobDisjoint(entries, "png", "jpg");
    RglobDisjoint(entries, "jpeg", "jpg");
    DistinctConcat(png + jpeg, jpg);
    RglobDisjoint(entries, "png", "webp");
    RglobDisjoint(entries, "jpeg", "webp");
    RglobDisjoint(entries, "jpg", "webp");
    DistinctConcat(png + jpeg + jpg, webp);
  }

  lemma DistinctConcat<T>(a: seq<T>, b: seq<T>)
    requires Distinct(a) && Distinct(b) && forall x :: x in a ==> x !in b
    ensures Distinct(a + b)
  {
    forall i, j | 0 <= i < j < |a + b| ensures (a + b)[i] != (a + b)[j] {
      if i < |a| && j >= |a| {
        assert (a + b)[i] in a && (a + b)[j] in b;
      }
    }
  }

  // ---------------------------------------------------------------------
  // create_output_folder

  /** `source_folder.parent / f"{source_folder.name}_{format.lower()}"`. */
  function OutputFolder(source: PurePath, format: string): PurePath
  {
    Child(Parent(source), Name(source) + "_" + Lower(format))
  }

  /**
    For a source folder with a name, the output folder is a sibling: same
    parent, the name with "_" and the lower-cased format appended, and
    neither folder lies inside the other.
   */
  lemma OutputFolderIsSibling(source: PurePath, format: string)
    requires source.parts != []
    ensures var out := OutputFolder(source, format);
      && Parent(out) == Parent(source) && Name(out) == Name(source) + "_" + Lower(format)
      && !IsUnder(out, source) && !IsUnder(source, out)
  {
    var out := OutputFolder(source, format);
    assert out.parts[..|out.parts| - 1] == source.parts[..|source.parts| - 1];
    assert |out.parts| == |source.parts|;
    assert out.parts[|out.parts| - 1] != source.parts[|source.parts| - 1];
  }

  /**
    For "/" or "." (no name) the output folder is `_<format>` inside the
    source folder itself.
   */
  lemma OutputFolderOfAnchor(source: PurePath, format: string)
    requires source.parts == []
    ensures OutputFolder(source, format) == Child(source, "_" + Lower(format))
    ensures IsUnder(OutputFolder(source, format), source)
  {
    assert Name(source) + "_" + Lower(format) == "_" + Lower(format);
  }

  /** What `create_output_folder` did: its result, the folder operations, the lines it read. */
  datatype FolderRun = FolderRun(result: Result<PurePath, PyError>, actions: seq<FsAction<PurePath>>, linesRead: nat)

  const ReplacePromptRetries := 3

  /**
    `create_output_folder`: when the output folder already exists, ask
    (y/n, three tries); 'n' cancels, 'y' removes the old folder; then
    create it.
   */
  function CreateOutputFolder(source: PurePath, format: string, outputIsDir: bool, answers: seq<string>): (r: FolderRun)
    ensures r.result.Err? ==> r.actions == []
    ensures r.result.Ok? ==> r.result.value == OutputFolder(source, format) && |r.actions| > 0
                             && r.actions[|r.actions| - 1] == MakeDirs(OutputFolder(source, format))
    ensures !outputIsDir ==> r == FolderRun(Ok(OutputFolder(source, format)), [MakeDirs(OutputFolder(source, format))], 0)
    ensures r.result == Err(OperationCancelled) <==>
      outputIsDir && FolderAnswer(answers, {"y", "n"}, ReplacePromptRetries).outcome == Ok("n")
    ensures outputIsDir && r.result.Ok? ==>
      r.actions == [RemoveTree(OutputFolder(source, format)), MakeDirs(OutputFolder(source, format))]
      && FolderAnswer(answers, {"y", "n"}, ReplacePromptRetries).outcome == Ok("y")
    ensures outputIsDir && FolderAnswer(answers, {"y", "n"}, ReplacePromptRetries).outcome == Ok("y") ==>
      r == FolderRun(Ok(OutputFolder(source, format)),
                     [RemoveTree(OutputFolder(source, format)), MakeDirs(OutputFolder(source, format))],
                     FolderAnswer(answers, {"y", "n"}, ReplacePromptRetries).linesRead)
    ensures outputIsDir && FolderAnswer(answers, {"y", "n"}, ReplacePromptRetries).outcome.Err? ==>
      r == FolderRun(Err(FolderAnswer(answers, {"y", "n"}, ReplacePromptRetries).outcome.error), [],
                     FolderAnswer(answers, {"y", "n"}, ReplacePromptRetries).linesRead)
  {
    var outputFolder := OutputFolder(source, format);
    if !outputIsDir then FolderRun(Ok(outputFolder), [MakeDirs(outputFolder)], 0)
    else
      var answer := FolderAnswer(answers, {"y", "n"}, ReplacePromptRetries);
      match answer.outcome
      case Err(e) => FolderRun(Err(e), [], answer.linesRead)
      case Ok(userInput) =>
        if userInput == "n" then FolderRun(Err(OperationCancelled), [], answer.linesRead)
        else FolderRun(Ok(outputFolder), [RemoveTree(outputFolder), MakeDirs(outputFolder)], answer.linesRead)
  }

  /** Three refused answers end in `ValueError` and leave the file system alone. */
  lemma ThreeRefusalsRaise(source: PurePath, format: string, answers: seq<string>)
    requires |answers| >= 3
    requires forall j :: 0 <= j < 3 ==> Lower(answers[j]) != "y" && Lower(answers[j]) != "n"
    ensures CreateOutputFolder(source, format, true, answers) == FolderRun(Err(ValueError(MaxRetriesMessage)), [], 3)
  {
    var r := FolderAnswer(answers, {"y", "n"}, ReplacePromptRetries);
    assert r.outcome.Ok? ==> r.linesRead - 1 < 3;
  }

  // ---------------------------------------------------------------------
  // process_file

  /** What the codec did with one file: saved with the converted size, or one of its failures. */
  datatype CodecOutcome =
    | Saved(convertedSize: nat)
    | Unidentified        // UnidentifiedImageError
    | PermissionDenied    // PermissionError
    | FileMissing         // FileNotFoundError
    | OtherFailure        // any other exception, e.g. OSError on a truncated image

  /** The file-system and codec facts about one file. */
  datatype FileFacts = FileFacts(dirCreated: bool, originalSize: Option<nat>, codec: CodecOutcome)

  /** A format name `with_suffix` accepts once a dot is put before it. */
  predicate ValidFormat(format: string) { format != "" && '/' !in format }

  /**
    `output_folder / file_path.relative_to(source_folder).with_suffix(f".{format.lower()}")`:
    the file's place below the source folder, repeated below the output
    folder, with the suffix replaced.
   */
  function Destination(file: PurePath, source: PurePath, output: PurePath, format: string): (r: Result<PurePath, PathError>)
    ensures !IsUnder(file, source) ==> r == Err(NotRelative)
    ensures Valid(file) && IsUnder(file, source) && |file.parts| > |source.parts| && ValidFormat(format) ==> r.Ok?
    ensures IsUnder(file, source) && |file.parts| == |source.parts| ==> r.Err?
    ensures r.Ok? ==>
      && r.value.absolute == output.absolute
      && r.value.parts == output.parts + file.parts[|source.parts|..|file.parts| - 1] + [Stem(Name(file)) + "." + Lower(format)]
  {
    match RelativeTo(file, source)
    case Err(e) => Err(e)
    case Ok(rel) =>
      var suffix := "." + Lower(format);
      FormatSuffixValid(format);
      assert |file.parts| > |source.parts| ==> Name(rel) == Name(file);
      match WithSuffix(rel, suffix)
      case Err(e) => Err(e)
      case Ok(renamed) =>
        DestinationParts(file, source, rel, suffix, renamed);
        assert Stem(Name(file)) + suffix == Stem(Name(file)) + "." + Lower(format);
        assert Join(output, renamed).parts == output.parts + renamed.parts;
        Ok(Join(output, renamed))
  }

  /** A format without '/' gives a suffix `with_suffix` accepts. */
  lemma FormatSuffixValid(format: string)
    ensures ValidFormat(format) ==> ValidSuffix("." + Lower(format))
  {
    if ValidFormat(format) {
      var lower := Lower(format);
      assert forall i :: 0 <= i < |lower| ==> lower[i] != '/';
      assert ("." + lower)[0] == '.' && |"." + lower| >= 2;
    }
  }

  lemma DestinationParts(file: PurePath, source: PurePath, rel: PurePath, suffix: string, renamed: PurePath)
    requires IsUnder(file, source) && RelativeTo(file, source) == Ok(rel)
    requires WithSuffix(rel, suffix) == Ok(renamed)
    ensures !renamed.absolute && |file.parts| > |source.parts|
    ensures renamed.parts == file.parts[|source.parts|..|file.parts| - 1] + [Stem(Name(file)) + suffix]
  {
    assert rel.parts == file.parts[|source.parts|..];
    assert renamed.parts == Parent(rel).parts + [Name(renamed)];
  }

  /** The destination's suffix is the lower-cased format, whatever the source suffix was. */
  lemma DestinationSuffix(file: PurePath, source: PurePath, output: PurePath, format: string)
    requires Valid(file) && IsUnder(file, source) && |file.parts| > |source.parts|
    requires format != "" && '/' !in format && '.' !in format
    ensures Destination(file, source, output, format).Ok?
    ensures Suffix(Name(Destination(file, source, output, format).value)) == "." + Lower(format)
  {
    var rel := RelativeTo(file, source).value;
    assert Name(rel) == Name(file) == file.parts[|file.parts| - 1];
    assert ValidPart(file.parts[|file.parts| - 1]);
    var suffix := "." + Lower(format);
    FormatSuffix(format);
    WithSuffixThenSuffix(rel, suffix);
    var renamed := WithSuffix(rel, suffix).value;
    assert Destination(file, source, output, format) == Ok(Join(output, renamed));
    assert Name(Join(output, renamed)) == Name(renamed);
  }

  /** The suffix built from a format without '.' or '/' is a proper one-dot suffix. */
  lemma FormatSuffix(format: string)
    requires format != "" && '/' !in format && '.' !in format
    ensures var suffix := "." + Lower(format);
      |suffix| >= 2 && suffix[0] == '.' && '.' !in suffix[1..] && '/' !in suffix
  {
    var lower := Lower(format);
    assert forall i :: 0 <= i < |lower| ==> lower[i] != '.' && lower[i] != '/';
    assert ("." + lower)[1..] == lower;
  }

  /**
    Two images in the same folder whose names have the same stem are
    written to the same destination, whatever their suffixes.
   */
  lemma DestinationCollision(source: PurePath, output: PurePath, format: string, x: string, y: string)
    requires x != "" && y != "" && Stem(x) == Stem(y)
    ensures Destination(Child(source, x), source, output, format) == Destination(Child(source, y), source, output, format)
  {
    DestinationOfChild(source, output, format, x);
    DestinationOfChild(source, output, format, y);
  }

  /** The destination of a file directly inside the source folder, in closed form. */
  lemma DestinationOfChild(source: PurePath, output: PurePath, format: string, x: string)
    requires x != ""
    ensures Destination(Child(source, x), source, output, format) ==
      var suffix := "." + Lower(format);
      if ValidSuffix(suffix) then Ok(Join(output, PurePath(false, [Stem(x) + suffix]))) else Err(InvalidSuffix)
  {
    var a := Child(source, x);
    assert a.parts[..|source.parts|] == source.parts;
    assert a.parts[|source.parts|..] == [x];
    var rel := RelativeTo(a, source).value;
    assert rel == PurePath(false, [x]);
    assert rel.parts[..0] == [];
  }

  /** "a.png" and "a.jpg" in the same folder collide: both stems are "a". */
  lemma SiblingSuffixesCollide(source: PurePath, output: PurePath, format: string)
    ensures Destination(Child(source, "a.png"), source, output, format) == Destination(Child(source, "a.jpg"), source, output, format)
  {
    StemOfA("a.png");
    StemOfA("a.jpg");
    DestinationCollision(source, output, format, "a.png", "a.jpg");
  }

  lemma StemOfA(name: string)
    requires |name| == 5 && name[0] == 'a' && name[1] == '.' && '.' !in name[2..]
    ensures Stem(name) == "a"
  {
    RFindIsLast(name, '.', 1);
    assert name[..1] == "a";
  }

  /**
    `process_file`: the destination (ValueError), its folder (OSError), the
    original size (FileNotFoundError, outside the try), then the codec,
    whose three listed failures give (0, 0, 0) and whose other failures
    escape.
   */
  function ProcessFile(file: PurePath, source: PurePath, output: PurePath, format: string, facts: FileFacts): (r: Result<Tally, PyError>)
    ensures r.Ok? ==> IsFileTally(r.value)
    ensures r.Ok? <==> Destination(file, source, output, format).Ok? && facts.dirCreated
                       && facts.originalSize.Some? && !facts.codec.OtherFailure?
    ensures r.Ok? && facts.codec.Saved? ==> r.value == Tally(facts.originalSize.value, facts.codec.convertedSize, 1)
    ensures r.Ok? && !facts.codec.Saved? ==> r.value == Zero
  {
    match Destination(file, source, output, format)
    case Err(_) => Err(ValueError("path"))
    case Ok(_) =>
      if !facts.dirCreated then Err(OSError)
      else match facts.originalSize
        case None => Err(FileNotFound)
        case Some(originalSize) =>
          match facts.codec
          case Saved(convertedSize) => Ok(Tally(originalSize, convertedSize, 1))
          case Unidentified => Ok(Zero)
          case PermissionDenied => Ok(Zero)
          case FileMissing => Ok(Zero)
          case OtherFailure => Err(OSError)
  }

  // ---------------------------------------------------------------------
  // generate_report

  /** The figures `generate_report` logs; floating point is replaced by exact reals. */
  datatype Report = Report(reducedBytes: int, reducedMB: real, percentage: real, converted: int, totalTime: real)

  const BytesPerMB: real := 1048576.0

  /**
    `generate_report` as written: it divides by the original total, so a
    zero original total raises `ZeroDivisionError`.
   */
  function GenerateReport(totals: Tally, totalTime: real): (r: Result<Report, PyError>)
    ensures r.Err? <==> totals.original == 0
    ensures r.Err? ==> r.error == ZeroDivisionError
    ensures r.Ok? ==>
      && r.value.reducedBytes == totals.original - totals.converted
      && r.value.reducedMB * BytesPerMB == r.value.reducedBytes as real
      && r.value.percentage * totals.original as real == r.value.reducedBytes as real * 100.0
      && r.value.converted == totals.count && r.value.totalTime == totalTime
  {
    if totals.original == 0 then Err(ZeroDivisionError)
    else
      var reduced := totals.original - totals.converted;
      Ok(Report(reduced, reduced as real / BytesPerMB, reduced as real / totals.original as real * 100.0, totals.count, totalTime))
  }

  /**
    The report with a zero guard: it reports 0% when nothing was measured;
    otherwise it is the same report as `GenerateReport`.
   */
  function GuardedReport(totals: Tally, totalTime: real): (r: Report)
    ensures totals.original == 0 ==> r.percentage == 0.0 && r.reducedBytes == -totals.converted
    ensures totals.original != 0 ==> GenerateReport(totals, totalTime) == Ok(r)
    ensures r.converted == totals.count && r.reducedMB * BytesPerMB == r.reducedBytes as real
  {
    var reduced := totals.original - totals.converted;
    if totals.original == 0 then Report(reduced, reduced as real / BytesPerMB, 0.0, totals.count, totalTime)
    else GenerateReport(totals, totalTime).value
  }
}
