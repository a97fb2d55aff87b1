/**
  src_rust/src/utils.rs: image discovery over a directory walk, the
  console prompt loop, the output folder and the per-file conversion.
 */
module RustUtils {
  import opened Wrappers
  import opened Text
  import opened Stats
  import opened Effects
  import opened OsPaths

  // ---------------------------------------------------------------------
  // get_image_files

  /** One item of the `WalkDir` iterator: an error (dropped by `filter_map(ok)`) or an entry. */
  datatype WalkItem = WalkError | Entry(path: OsPath, isFile: bool)

  /** The extensions the walk keeps, compared without regard to ASCII case. */
  const ImageExtensions: seq<string> := ["jpg", "jpeg", "png"]

  predicate IsImageExtension(ext: string)
  {
    exists k :: 0 <= k < |ImageExtensions| && EqIgnoreAsciiCase(ImageExtensions[k], ext)
  }

  /** The extension test of the loop: present, valid UTF-8 and one of the listed ones. */
  predicate IsImagePath(p: OsPath)
  {
    && Extension(p).Some?
    && ToStr(Extension(p).value).Some?
    && IsImageExtension(ToStr(Extension(p).value).value)
  }

  /** Whether the loop pushes this item. */
  predicate Keeps(item: WalkItem)
  {
    item.Entry? && item.isFile && IsImagePath(item.path)
  }

  /** The files the walk yields, in walk order. */
  function ImageFiles(walk: seq<WalkItem>): (r: seq<OsPath>)
    ensures |r| <= |walk|
    ensures forall p :: p in r <==> Entry(p, true) in walk && IsImagePath(p)
  {
    if walk == [] then []
    else
      var init := walk[..|walk| - 1];
      var last := walk[|walk| - 1];
      assert walk == init + [last];
      ImageFiles(init) + (if Keeps(last) then [last.path] else [])
  }

  /** `get_image_files`: walk, drop errors and non-files, push the matching paths. */
  method GetImageFiles(walk: seq<WalkItem>) returns (imageFiles: seq<OsPath>)
    ensures imageFiles == ImageFiles(walk)
  {
    imageFiles := [];
    for i := 0 to |walk|
      invariant imageFiles == ImageFiles(walk[..i])
    {
      assert walk[..i + 1][..i] == walk[..i];
      if walk[i].Entry? && walk[i].isFile {
        var ext := Extension(walk[i].path);
        if ext.Some? {
          var text := ToStr(ext.value);
          if text.Some? && IsImageExtension(text.value) {
            imageFiles := imageFiles + [walk[i].path];
          }
        }
      }
    }
    assert walk[..|walk|] == walk;
  }

  /** The test is case-insensitive in ASCII only: "PNG" and "Jpg" count, "webp" does not. */
  lemma ImageExtensionCases()
    ensures IsImageExtension("PNG") && IsImageExtension("Jpg") && IsImageExtension("jpeg")
    ensures !IsImageExtension("webp") && !IsImageExtension("gif")
  {
    assert EqIgnoreAsciiCase(ImageExtensions[2], "PNG");
    assert EqIgnoreAsciiCase(ImageExtensions[0], "Jpg");
    assert EqIgnoreAsciiCase(ImageExtensions[1], "jpeg");
    assert forall k :: 0 <= k < 3 ==> !EqIgnoreAsciiCase(ImageExtensions[k], "webp") by {
      assert Lower("webp")[0] == 'w';
      assert Lower(ImageExtensions[0])[0] == 'j' && Lower(ImageExtensions[1])[0] == 'j';
      assert Lower(ImageExtensions[2])[0] == 'p';
    }
    assert forall k :: 0 <= k < 3 ==> !EqIgnoreAsciiCase(ImageExtensions[k], "gif") by {
      assert Lower("gif")[0] == 'g';
      assert Lower(ImageExtensions[0])[0] == 'j' && Lower(ImageExtensions[1])[0] == 'j';
      assert Lower(ImageExtensions[2])[0] == 'p';
    }
  }

  /** A file whose name holds a byte that is not UTF-8 in its extension is skipped, whatever it is. */
  lemma NonUnicodeExtensionSkipped(p: OsPath)
    requires Extension(p).Some? && !IsUnicode(Extension(p).value)
    ensures p !in ImageFiles([Entry(p, true)])
  {
  }

  // ---------------------------------------------------------------------
  // validate_input / get_user_input

  /** `validate_input`: the converted value when it passes the check (a failing one is reported and dropped). */
  function ValidateInput<T>(converted: Option<T>, valid: T -> bool): (r: Option<T>)
    ensures r.Some? <==> converted.Some? && valid(converted.value)
    ensures r.Some? ==> r == converted
  {
    match converted
    case Some(input) => if valid(input) then Some(input) else None
    case None => None
  }

  /** One `read_line` on the console: an I/O error, or a line of text. */
  datatype Line = ReadFailed | Read(text: string)

  /** The answer of the prompt loop and how many console lines it consumed. */
  datatype Answer<T> = Answer(value: Option<T>, linesRead: nat)

  /**
    What the loop returns once the console is at end of file: `read_line`
    then yields empty lines forever, so the empty text is tried, then the
    default; without a default the loop never returns (`None`).
   */
  function AnswerAtEof<T>(valid: T -> bool, convert: string -> Option<T>, default: Option<T>): (r: Option<T>)
    ensures default.Some? ==> r.Some?
    ensures r.Some? ==> valid(r.value) || r == default
  {
    match ValidateInput(convert(""), valid)
    case Some(v) => Some(v)
    case None => default
  }

  /** The value one console line yields: its trimmed text, converted and checked. */
  function LineValue<T>(line: Line, valid: T -> bool, convert: string -> Option<T>): Option<T>
  {
    match line
    case ReadFailed => None
    case Read(text) => ValidateInput(convert(Trim(text)), valid)
  }

  /**
    A line the loop passes over: a failed read, or, when there is no
    default to fall back on, a line that yields no valid value.
   */
  predicate Skipped<T>(line: Line, valid: T -> bool, convert: string -> Option<T>, default: Option<T>)
  {
    LineValue(line, valid, convert).None? && (default.Some? ==> line.ReadFailed?)
  }

  /** The answer a line that is not passed over gives: its value, or else the default. */
  function LineAnswer<T>(line: Line, valid: T -> bool, convert: string -> Option<T>, default: Option<T>): Option<T>
  {
    if LineValue(line, valid, convert).Some? then LineValue(line, valid, convert) else default
  }

  /**
    `get_user_input` from line `k` on: a failed read is skipped; a line is
    trimmed, converted and checked; a valid value is returned; otherwise
    the default is returned at once, or, without one, the prompt repeats.
   */
  function UserInputFrom<T>(lines: seq<Line>, valid: T -> bool, convert: string -> Option<T>, default: Option<T>, k: nat)
    : (r: Answer<T>)
    requires k <= |lines|
    ensures k <= r.linesRead <= |lines|
    ensures default.Some? ==> r.value.Some?
    ensures r.value.Some? ==> valid(r.value.value) || r.value == default
    ensures r.value.None? ==> r.linesRead == |lines|
    decreases |lines| - k
  {
    if k == |lines| then Answer(AnswerAtEof(valid, convert, default), k)
    else match lines[k]
      case ReadFailed => UserInputFrom(lines, valid, convert, default, k + 1)
      case Read(text) =>
        match ValidateInput(convert(Trim(text)), valid)
        case Some(v) => Answer(Some(v), k + 1)
        case None =>
          if default.Some? then Answer(default, k + 1)
          else UserInputFrom(lines, valid, convert, default, k + 1)
  }

  /**
    The answer `r` of the loop started at line `k` comes from the first line
    it does not pass over: every line before it is passed over, and the
    answer is that line's valid value or at once the default; when every
    remaining line is passed over, the answer is what the end of file gives.
   */
  ghost predicate FirstAnswer<T>(lines: seq<Line>, valid: T -> bool, convert: string -> Option<T>, default: Option<T>, k: nat, r: Answer<T>)
  {
    && k <= r.linesRead <= |lines|
    && (forall j :: k <= j < r.linesRead - 1 ==> Skipped(lines[j], valid, convert, default))
    && (k < r.linesRead && !Skipped(lines[r.linesRead - 1], valid, convert, default) ==>
          r.value == LineAnswer(lines[r.linesRead - 1], valid, convert, default))
    && (r.linesRead == k || Skipped(lines[r.linesRead - 1], valid, convert, default) ==>
          r.linesRead == |lines| && r.value == AnswerAtEof(valid, convert, default))
  }

  /** A line passed over at `k` leaves the first answering line where it was. */
  lemma FirstAnswerStep<T>(lines: seq<Line>, valid: T -> bool, convert: string -> Option<T>, default: Option<T>, k: nat, r: Answer<T>)
    requires k < |lines| && Skipped(lines[k], valid, convert, default)
    requires FirstAnswer(lines, valid, convert, default, k + 1, r)
    ensures FirstAnswer(lines, valid, convert, default, k, r)
  {
    forall j | k <= j < r.linesRead - 1 ensures Skipped(lines[j], valid, convert, default) {
      if j == k {} else {}
    }
    if r.linesRead == k + 1 {
      assert lines[r.linesRead - 1] == lines[k];
    }
  }

  /** `get_user_input` answers with the first line it does not pass over. */
  lemma {:induction false} FirstAnsweringLine<T>(lines: seq<Line>, valid: T -> bool, convert: string -> Option<T>, default: Option<T>, k: nat)
    requires k <= |lines|
    ensures FirstAnswer(lines, valid, convert, default, k, UserInputFrom(lines, valid, convert, default, k))
    decreases |lines| - k
  {
    if k == |lines| {
      UserInputAtEof(lines, valid, convert, default, k);
    } else if Skipped(lines[k], valid, convert, default) {
      UserInputPassesOver(lines, valid, convert, default, k);
      FirstAnsweringLine(lines, valid, convert, default, k + 1);
      FirstAnswerStep(lines, valid, convert, default, k, UserInputFrom(lines, valid, convert, default, k + 1));
    } else {
      UserInputAnswered(lines, valid, convert, default, k);
    }
  }

  lemma UserInputAtEof<T>(lines: seq<Line>, valid: T -> bool, convert: string -> Option<T>, default: Option<T>, k: nat)
    requires k == |lines|
    ensures UserInputFrom(lines, valid, convert, default, k) == Answer(AnswerAtEof(valid, convert, default), k)
  {
  }

  lemma UserInputAnswered<T>(lines: seq<Line>, valid: T -> bool, convert: string -> Option<T>, default: Option<T>, k: nat)
    requires k < |lines| && !Skipped(lines[k], valid, convert, default)
    ensures UserInputFrom(lines, valid, convert, default, k) == Answer(LineAnswer(lines[k], valid, convert, default), k + 1)
  {
    assert lines[k].Read?;
  }

  lemma UserInputPassesOver<T>(lines: seq<Line>, valid: T -> bool, convert: string -> Option<T>, default: Option<T>, k: nat)
    requires k < |lines| && Skipped(lines[k], valid, convert, default)
    ensures UserInputFrom(lines, valid, convert, default, k) == UserInputFrom(lines, valid, convert, default, k + 1)
  {
  }

  function UserInput<T>(lines: seq<Line>, valid: T -> bool, convert: string -> Option<T>, default: Option<T>): Answer<T>
  {
    UserInputFrom(lines, valid, convert, default, 0)
  }

  /** `get_user_input`: the `loop` over the console lines. */
  method GetUserInput<T>(lines: seq<Line>, valid: T -> bool, convert: string -> Option<T>, default: Option<T>)
    returns (r: Answer<T>)
    ensures r == UserInput(lines, valid, convert, default)
  {
    var k := 0;
    while k < |lines|
      invariant k <= |lines|
      invariant UserInputFrom(lines, valid, convert, default, k) == UserInput(lines, valid, convert, default)
    {
      if lines[k].Read? {
        var validated := ValidateInput(convert(Trim(lines[k].text)), valid);
        if validated.Some? {
          return Answer(validated, k + 1);
        }
        if default.Some? {
          return Answer(default, k + 1);
        }
      }
      k := k + 1;
    }
    r := Answer(AnswerAtEof(valid, convert, default), k);
  }

  /** With a default, one unacceptable line ends the prompt with the default: there is no retry. */
  lemma DefaultAfterOneInvalidLine<T>(lines: seq<Line>, valid: T -> bool, convert: string -> Option<T>, default: Option<T>)
    requires default.Some? && |lines| > 0 && lines[0].Read?
    requires convert(Trim(lines[0].text)).None? || !valid(convert(Trim(lines[0].text)).value)
    ensures UserInput(lines, valid, convert, default) == Answer(default, 1)
  {
  }

  /** Failed reads before a line are skipped without counting as an attempt. */
  lemma ReadFailuresSkipped<T>(lines: seq<Line>, valid: T -> bool, convert: string -> Option<T>, default: Option<T>, n: nat)
    requires n <= |lines| && forall j :: 0 <= j < n ==> lines[j] == ReadFailed
    ensures UserInput(lines, valid, convert, default) == UserInputFrom(lines, valid, convert, default, n)
  {
    var k := n;
    while k > 0
      invariant k >= 0
      invariant UserInputFrom(lines, valid, convert, default, k) == UserInputFrom(lines, valid, convert, default, n)
    {
      k := k - 1;
    }
  }

  /** Surrounding whitespace, the newline included, is not part of what is converted. */
  lemma TrimmedBeforeConversion<T>(text: string, valid: T -> bool, convert: string -> Option<T>, default: Option<T>)
    requires convert(Trim(text)).Some? && valid(convert(Trim(text)).value)
    ensures UserInput([Read(text + "\n")], valid, convert, default) == Answer(convert(Trim(text)), 1)
  {
    TrimNewline(text);
  }

  lemma TrimNewline(text: string)
    ensures Trim(text + "\n") == Trim(text)
  {
    var s := text + "\n";
    assert IsWhitespace(s[|s| - 1]);
    TrimStartAppend(text);
    TrimEndNewline(TrimStart(text));
  }

  lemma {:induction false} TrimStartAppend(text: string)
    ensures TrimStart(text + "\n") == TrimStart(text) + "\n" || (TrimStart(text) == [] && TrimStart(text + "\n") == [])
  {
    if text != [] && IsWhitespace(text[0]) {
      assert (text + "\n")[1..] == text[1..] + "\n";
      TrimStartAppend(text[1..]);
    } else if text == [] {
      assert TrimStart("\n") == TrimStart("\n"[1..]);
    }
  }

  lemma TrimEndNewline(t: string)
    ensures TrimEnd(t + "\n") == TrimEnd(t)
  {
    assert (t + "\n")[..|t|] == t;
  }

  // ---------------------------------------------------------------------
  // create_output_folder

  /** The errors the Rust functions of the pipeline return or raise. */
  datatype RustError =
    | InvalidSourcePath      // "Invalid source folder path"
    | NotUtf8                // "Path is not valid UTF-8"
    | OperationCancelled     // "Operation cancelled by the user."
    | Io                     // an I/O error passed on with `?`
    | StripPrefixFailed      // `strip_prefix` found no common prefix
    | FileNotFound           // "File not found"
    | Decode                 // any other `ImageError`

  /**
    The output folder: `<parent>/<name>_<format lower-cased>`; a source
    without parent or file name is invalid, a name that is not UTF-8 is
    refused.
   */
  function OutputFolder(source: OsPath, format: string): (r: Result<OsPath, RustError>)
    ensures Parent(source).None? || FileName(source).None? <==> r == Err(InvalidSourcePath)
    ensures r == Err(NotUtf8) <==> Parent(source).Some? && FileName(source).Some? && !IsUnicode(FileName(source).value)
    ensures r.Ok? ==>
      && r.value.absolute == source.absolute
      && Parent(r.value) == Parent(source)
      && FileName(r.value) == Some(FromStr(ToStr(FileName(source).value).value + "_" + Lower(format)))
  {
    match Parent(source)
    case None => Err(InvalidSourcePath)
    case Some(parent) =>
      match FileName(source)
      case None => Err(InvalidSourcePath)
      case Some(name) =>
        match ToStr(name)
        case None => Err(NotUtf8)
        case Some(text) =>
          var folder := Join(parent, OsPath(false, [Normal(FromStr(text + "_" + Lower(format)))]));
          assert folder.parts[..|folder.parts| - 1] == parent.parts;
          Ok(folder)
  }

  /** The outcome of `create_output_folder` and the file system actions it took. */
  datatype FolderRun = FolderRun(result: Result<OsPath, RustError>, actions: seq<FsAction<OsPath>>)

  /**
    `create_output_folder`: when the folder exists, one line is read; only
    a trimmed, case-insensitive "n" cancels; any other answer, the empty
    line at end of file included, removes the folder. Then it is created.
   */
  function CreateOutputFolder(source: OsPath, format: string, outputIsDir: bool, answer: Line): (r: FolderRun)
    ensures r.result.Err? ==> r.actions == [] && r.result.error in {InvalidSourcePath, NotUtf8, OperationCancelled, Io}
    ensures r.result.Ok? ==> OutputFolder(source, format) == r.result && |r.actions| > 0
                             && r.actions[|r.actions| - 1] == MakeDirs(r.result.value)
    ensures r.result == Err(OperationCancelled) <==>
      OutputFolder(source, format).Ok? && outputIsDir && answer.Read? && EqIgnoreAsciiCase(Trim(answer.text), "n")
    ensures (exists i :: 0 <= i < |r.actions| && r.actions[i].RemoveTree?) <==> outputIsDir && r.result.Ok?
    ensures OutputFolder(source, format).Err? ==> r == FolderRun(OutputFolder(source, format), [])
    ensures OutputFolder(source, format).Ok? && !outputIsDir ==>
      r == FolderRun(OutputFolder(source, format), [MakeDirs(OutputFolder(source, format).value)])
    ensures OutputFolder(source, format).Ok? && outputIsDir && answer.ReadFailed? ==> r == FolderRun(Err(Io), [])
    ensures OutputFolder(source, format).Ok? && outputIsDir && answer.Read? && !EqIgnoreAsciiCase(Trim(answer.text), "n") ==>
      r == FolderRun(OutputFolder(source, format),
                     [RemoveTree(OutputFolder(source, format).value), MakeDirs(OutputFolder(source, format).value)])
  {
    match OutputFolder(source, format)
    case Err(e) => FolderRun(Err(e), [])
    case Ok(folder) =>
      if !outputIsDir then FolderRun(Ok(folder), [MakeDirs(folder)])
      else match answer
        case ReadFailed => FolderRun(Err(Io), [])
        case Read(text) =>
          if EqIgnoreAsciiCase(Trim(text), "n") then FolderRun(Err(OperationCancelled), [])
          else
            var run := FolderRun(Ok(folder), [RemoveTree(folder), MakeDirs(folder)]);
            assert run.actions[0].RemoveTree?;
            run
  }

  /** "no" is not "n": answering "no" deletes the existing folder. */
  lemma AnsweringNoStillReplaces(source: OsPath, format: string)
    requires OutputFolder(source, format).Ok?
    ensures CreateOutputFolder(source, format, true, Read("no\n")).actions
         == [RemoveTree(OutputFolder(source, format).value), MakeDirs(OutputFolder(source, format).value)]
  {
    TrimNo();
    assert |Lower("no")| != |Lower("n")|;
    assert !EqIgnoreAsciiCase(Trim("no\n"), "n");
  }

  lemma TrimNo()
    ensures Trim("no\n") == "no"
  {
    assert "no\n"[0] == 'n';
    TrimStartKeep("no\n");
    assert "no\n" == "no" + ['\n'];
    TrimEndSkip("no", '\n');
    assert "no"[1] == 'o';
    TrimEndKeep("no");
  }

  /** " N " cancels. */
  lemma PaddedUpperNCancels(source: OsPath, format: string)
    requires OutputFolder(source, format).Ok?
    ensures CreateOutputFolder(source, format, true, Read(" N \n")).result == Err(OperationCancelled)
  {
    TrimPaddedN();
    UpperNIsN();
    var folder := OutputFolder(source, format).value;
    assert CreateOutputFolder(source, format, true, Read(" N \n")) == FolderRun(Err(OperationCancelled), []);
  }

  lemma UpperNIsN()
    ensures EqIgnoreAsciiCase("N", "n")
  {
    assert Lower("N")[0] == LowerChar('N') == 'n';
    assert Lower("n")[0] == LowerChar('n') == 'n';
  }

  lemma TrimPaddedN()
    ensures Trim(" N \n") == "N"
  {
    TrimStartPaddedN();
    TrimEndPaddedN();
  }

  lemma TrimStartPaddedN()
    ensures TrimStart(" N \n") == "N \n"
  {
    assert " N \n" == [' '] + "N \n";
    TrimStartSkip(' ', "N \n");
    assert "N \n"[0] == 'N';
    TrimStartKeep("N \n");
  }

  lemma TrimEndPaddedN()
    ensures TrimEnd("N \n") == "N"
  {
    assert "N \n" == "N " + ['\n'];
    TrimEndSkip("N ", '\n');
    assert "N " == "N" + [' '];
    TrimEndSkip("N", ' ');
    TrimEndKeep("N");
  }

  // ---------------------------------------------------------------------
  // process_file

  /** What `image::open` did with a file. */
  datatype OpenOutcome = Decoded | Missing | Undecodable

  /** What the file system and the codec report for one file, in the order the function asks. */
  datatype FileFacts = FileFacts(
    dirCreated: bool,              // create_dir_all(parent)
    originalSize: Option<nat>,     // metadata(file_path)
    open: OpenOutcome,             // image::open(file_path)
    written: bool,                 // File::create + write_all
    convertedSize: Option<nat>)    // metadata(output_file_path)

  /** The output path: the relative path pushed onto the output folder, extension set to the lower-cased format. */
  function Destination(file: OsPath, source: OsPath, output: OsPath, format: string): (r: Result<OsPath, RustError>)
    ensures r.Err? <==> StripPrefix(file, source).Err?
  {
    match StripPrefix(file, source)
    case Err(_) => Err(StripPrefixFailed)
    case Ok(rel) => Ok(SetExtension(Join(output, rel), FromStr(Lower(format))))
  }

  /**
    Below the source folder, the destination keeps the sub-directories of
    the file under the output folder and changes only the extension.
   */
  lemma DestinationLayout(file: OsPath, source: OsPath, output: OsPath, format: string)
    requires IsUnder(file, source) && |file.parts| > |source.parts| && FileName(file).Some?
    ensures var d := Destination(file, source, output, format);
      && d.Ok?
      && d.value.absolute == output.absolute
      && d.value.parts == output.parts + file.parts[|source.parts|..|file.parts| - 1]
                          + [Normal(StemWithExtension(FileStem(file).value, FromStr(Lower(format))))]
  {
    var rel := StripPrefix(file, source).value;
    assert rel == OsPath(false, file.parts[|source.parts|..]);
    var joined := Join(output, rel);
    JoinedLayout(file, source, output, rel, joined);
    var ext := FromStr(Lower(format));
    var d := SetExtension(joined, ext);
    assert FileStem(joined) == FileStem(file);
    SetExtensionLayout(joined, ext, d);
  }

  lemma JoinedLayout(file: OsPath, source: OsPath, output: OsPath, rel: OsPath, joined: OsPath)
    requires |file.parts| > |source.parts| && rel == OsPath(false, file.parts[|source.parts|..]) && joined == Join(output, rel)
    ensures joined.absolute == output.absolute
    ensures joined.parts[..|joined.parts| - 1] == output.parts + file.parts[|source.parts|..|file.parts| - 1]
    ensures FileName(joined) == FileName(file)
  {
    assert joined.parts == output.parts + file.parts[|source.parts|..];
  }

  lemma SetExtensionLayout(p: OsPath, ext: OsStr, d: OsPath)
    requires FileName(p).Some? && d == SetExtension(p, ext)
    ensures d.absolute == p.absolute
    ensures d.parts == p.parts[..|p.parts| - 1] + [Normal(StemWithExtension(FileStem(p).value, ext))]
  {
    assert Parent(d) == Parent(p);
    assert d.parts[..|d.parts| - 1] == p.parts[..|p.parts| - 1];
    assert d.parts == d.parts[..|d.parts| - 1] + [d.parts[|d.parts| - 1]];
  }

  /** The run of `process_file` gets as far as `image::open`. */
  predicate ReachesOpen(file: OsPath, source: OsPath, output: OsPath, format: string, facts: FileFacts)
  {
    && Destination(file, source, output, format).Ok?
    && (Parent(Destination(file, source, output, format).value).None? || facts.dirCreated)
    && facts.originalSize.Some?
  }

  /**
    `process_file`: stop at the first step that fails, in the order of the
    code; a file `image::open` cannot find or decode is an error here, not
    a (0, 0, 0) tuple as in the Python version.
   */
  function ProcessFile(file: OsPath, source: OsPath, output: OsPath, format: string, facts: FileFacts): (r: Result<Tally, RustError>)
    ensures r.Ok? <==>
      ReachesOpen(file, source, output, format, facts) && facts.open == Decoded && facts.written && facts.convertedSize.Some?
    ensures r.Ok? ==> r.value == Tally(facts.originalSize.value, facts.convertedSize.value, 1)
    ensures r == Err(FileNotFound) <==> ReachesOpen(file, source, output, format, facts) && facts.open == Missing
    ensures r == Err(Decode) <==> ReachesOpen(file, source, output, format, facts) && facts.open == Undecodable
    ensures r == Err(StripPrefixFailed) <==> !IsUnder(file, source) && (source.absolute || source.parts != [])
  {
    match Destination(file, source, output, format)
    case Err(e) => Err(e)
    case Ok(dest) =>
      if Parent(dest).Some? && !facts.dirCreated then Err(Io)
      else if facts.originalSize.None? then Err(Io)
      else match facts.open
        case Missing => Err(FileNotFound)
        case Undecodable => Err(Decode)
        case Decoded =>
          if !facts.written then Err(Io)
          else match facts.convertedSize
            case None => Err(Io)
            case Some(convertedSize) => Ok(Tally(facts.originalSize.value, convertedSize, 1))
  }
}
