/**
  src/app.py: the `/convert` endpoint. The form is validated in a fixed
  order, the conversion pipeline of src/convert.py runs, and every outcome,
  exceptions included, becomes a JSON message with an HTTP status.
 */
module WebApp {
  import opened Wrappers
  import opened Text
  import opened PurePaths
  import opened PyUtils
  import opened PyConvert

  /** A message and its status code, before `jsonify`. */
  datatype Response = Response(message: string, status: int)

  /** What the endpoint sends: the JSON object `{"message": ...}` and the status. */
  datatype HttpReply = HttpReply(body: map<string, string>, status: int)

  function Jsonify(r: Response): (h: HttpReply)
    ensures h.body.Keys == {"message"} && h.body["message"] == r.message && h.status == r.status
  {
    HttpReply(map["message" := r.message], r.status)
  }

  const DefaultQualityField := "80"
  const DefaultThreadsField := "16"

  /**
    A missing field makes `request.form[...]` raise werkzeug's
    `BadRequestKeyError`, a `KeyError` whose text is the generic 400 reply
    (the key is shown only when the exception reaches Flask in debug mode,
    and here it is caught first).
   */
  const MissingFolderMessage := "Missing form field: 400 Bad Request: The browser (or proxy) sent a request that this server could not understand."
  const NotNumericMessage := "Invalid input: Quality and threads should be numeric values"
  const QualityRangeMessage := "Quality must be between 0 and 100"
  const ThreadsRangeMessage := "Threads must be at least 1"
  const FolderMessage := "Source folder is not valid"
  const CompletedMessage := "Conversion completed"

  /** `request.form.get(key, default)`: a present field is used as sent, even when empty. */
  function FieldOr(form: map<string, string>, key: string, default: string): string
  {
    if key in form then form[key] else default
  }

  /** The settings a valid form yields. */
  datatype WebSettings = WebSettings(sourceFolder: string, quality: nat, threads: nat)

  /** The quality field as the endpoint reads it, the default when absent. */
  function QualityField(form: map<string, string>): string
  {
    FieldOr(form, "quality", DefaultQualityField)
  }

  /** The threads field as the endpoint reads it, the default when absent. */
  function ThreadsField(form: map<string, string>): string
  {
    FieldOr(form, "threads", DefaultThreadsField)
  }

  /**
    The checks before the conversion, in the order of the code: the folder
    field, both numbers as digit strings, the quality range, the thread
    count, then the folder on disk (`exists() and is_dir()` is `isDir`).
    A form is accepted exactly when it passes all of them, and a refused
    form gets the message of the first check it fails.
   */
  function ValidateForm(form: map<string, string>, isDir: string -> bool): (r: Result<WebSettings, Response>)
    ensures r.Err? ==> r.error.status == 400
    ensures r.Ok? <==>
      && "source_folder" in form
      && IsDigits(QualityField(form)) && IsDigits(ThreadsField(form))
      && DigitsValue(QualityField(form)) <= 100
      && DigitsValue(ThreadsField(form)) >= 1
      && isDir(form["source_folder"])
    ensures r.Ok? ==>
      && r.value.sourceFolder == form["source_folder"]
      && r.value.quality == DigitsValue(QualityField(form))
      && r.value.threads == DigitsValue(ThreadsField(form))
    ensures "source_folder" !in form <==> r == Err(Response(MissingFolderMessage, 400))
    ensures "source_folder" in form && !(IsDigits(QualityField(form)) && IsDigits(ThreadsField(form)))
            ==> r == Err(Response(NotNumericMessage, 400))
    ensures "source_folder" in form && IsDigits(QualityField(form)) && IsDigits(ThreadsField(form))
            && DigitsValue(QualityField(form)) > 100
            ==> r == Err(Response(QualityRangeMessage, 400))
    ensures "source_folder" in form && IsDigits(QualityField(form)) && IsDigits(ThreadsField(form))
            && DigitsValue(QualityField(form)) <= 100 && DigitsValue(ThreadsField(form)) < 1
            ==> r == Err(Response(ThreadsRangeMessage, 400))
    ensures "source_folder" in form && IsDigits(QualityField(form)) && IsDigits(ThreadsField(form))
            && DigitsValue(QualityField(form)) <= 100 && DigitsValue(ThreadsField(form)) >= 1
            && !isDir(form["source_folder"])
            ==> r == Err(Response(FolderMessage, 400))
  {
    if "source_folder" !in form then Err(Response(MissingFolderMessage, 400))
    else
      var sourceFolder := form["source_folder"];
      var quality := QualityField(form);
      var threads := ThreadsField(form);
      if !IsDigits(quality) || !IsDigits(threads) then Err(Response(NotNumericMessage, 400))
      else
        var q, t := DigitsValue(quality), DigitsValue(threads);
        if !(0 <= q <= 100) then Err(Response(QualityRangeMessage, 400))
        else if t < 1 then Err(Response(ThreadsRangeMessage, 400))
        else if !isDir(sourceFolder) then Err(Response(FolderMessage, 400))
        else Ok(WebSettings(sourceFolder, q, t))
  }

  /** The text `str(e)` gives for the exceptions the pipeline raises (an `OSError`'s errno and path are not modelled). */
  function ErrorText(e: PyError): string
  {
    match e
    case ValueError(m) => m
    case TypeError(m) => m
    case ZeroDivisionError => "division by zero"
    case EOFError => "EOF when reading a line"
    case OperationCancelled => "Operation cancelled by the user."
    case OSError => "OS error"
    case FileNotFound => "No such file or directory"
  }

  /**
    The response for a run of the pipeline: `convert_images` returns nothing,
    so a run with no images or a cancelled replace is still "completed";
    `ValueError` is a 400, any other exception a 500.
   */
  function RunResponse(run: PyRun): (r: Response)
    ensures r.status == 200 <==> !run.Raised?
    ensures r.status == 400 <==> run.Raised? && run.error.ValueError?
    ensures r.status == 500 <==> run.Raised? && !run.error.ValueError?
    ensures run.Raised? && run.error.ValueError? ==> r.message == "Invalid input: " + run.error.message
    ensures run.Raised? && !run.error.ValueError? ==> r.message == "An error occurred: " + ErrorText(run.error)
    ensures !run.Raised? ==> r.message == CompletedMessage
  {
    match run
    case Raised(e) =>
      if e.ValueError? then Response("Invalid input: " + e.message, 400)
      else Response("An error occurred: " + ErrorText(e), 500)
    case _ => Response(CompletedMessage, 200)
  }

  /**
    `convert`: validate, run the pipeline on the folder (`Path(source_folder)`
    is `toPath`; the format is `OutputImageFormat.WEBP`, value "WEBP"), and
    send the JSON reply.
   */
  method Convert(form: map<string, string>, isDir: string -> bool, toPath: string -> PurePath, env: RunEnv)
    returns (reply: HttpReply)
    ensures ValidateForm(form, isDir).Err? ==> reply == Jsonify(ValidateForm(form, isDir).error)
    ensures ValidateForm(form, isDir).Ok? ==>
      reply == Jsonify(RunResponse(Outcome(env, toPath(form["source_folder"]), "WEBP")))
  {
    var validated := ValidateForm(form, isDir);
    if validated.Err? {
      return Jsonify(validated.error);
    }
    var run, _ := ConvertImages(env, toPath(validated.value.sourceFolder), "WEBP");
    reply := Jsonify(RunResponse(run));
  }

  /** A quality of 0 passes here, although the console prompt requires a positive quality. */
  lemma QualityZeroAcceptedOnlyHere(isDir: string -> bool, folder: string)
    requires isDir(folder)
    ensures ValidateForm(map["source_folder" := folder, "quality" := "0"], isDir).Ok?
    ensures !PositiveInt(0)
  {
    var form := map["source_folder" := folder, "quality" := "0"];
    assert QualityField(form) == "0";
    assert DigitsValue("0") == DigitsValue("") * 10 + 0 == 0;
    assert "threads" !in form;
    assert DigitsValue("16") == DigitsValue("1") * 10 + 6 == 16 by {
      assert "16"[..1] == "1" && "1"[..0] == "";
    }
  }

  /** An empty quality field is sent as is, not replaced by the default, and is refused. */
  lemma EmptyQualityRefused(isDir: string -> bool, folder: string)
    ensures ValidateForm(map["source_folder" := folder, "quality" := ""], isDir) == Err(Response(NotNumericMessage, 400))
  {
    var form := map["source_folder" := folder, "quality" := ""];
    assert QualityField(form) == "";
  }

  /** Quality is checked before threads: both out of range reports the quality. */
  lemma QualityCheckedFirst(isDir: string -> bool, folder: string)
    ensures ValidateForm(map["source_folder" := folder, "quality" := "101", "threads" := "0"], isDir)
         == Err(Response(QualityRangeMessage, 400))
  {
    var form := map["source_folder" := folder, "quality" := "101", "threads" := "0"];
    assert QualityField(form) == "101";
    assert ThreadsField(form) == "0";
    assert "101"[..2] == "10" && "10"[..1] == "1" && "1"[..0] == "";
    assert DigitsValue("101") == 101;
  }
}
