# PicToWebP decision logic in Dafny

PicToWebP converts a folder of images to WebP. It ships three implementations:
- a Python package (`src/utils.py`, `src/convert.py`, and the Flask endpoint in `src/app.py`);
- a Rust port (`src_rust/src/utils.rs`, `src_rust/src/main.rs`);
- an earlier single-file script (`convert_to_webp.py`).

This project models the deterministic layer around the image codec and the file system, for all three:
- which files are discovered;
- how the output folder and each destination path are named;
- how console answers and form fields are validated;
- how the Rust version cuts the files into batches and collects errors;
- how per-file results are folded into the conversion statistics and the final report.

The file system, the codec, the clock and the console are inputs:
- A run sees a list of directory entries.
- A per-file "facts" function tells whether the directory could be created, the original size, and the codec's outcome.
- A sequence of console lines stands in for stdin.
- A flag says whether the output folder already exists.

The Python dictionary and the legacy script's shared `stats` dictionary are updated in place. Both are the class `Stats.ConversionStats`.

The modules follow the program:

| file | models |
|---|---|
| `py_utils.dfy` | `src/utils.py` |
| `py_convert.dfy` | `src/convert.py` |
| `web_app.dfy` | `src/app.py` |
| `rust_utils.dfy` | `src_rust/src/utils.rs` |
| `rust_main.dfy` | `src_rust/src/main.rs` |
| `legacy.dfy` | `convert_to_webp.py` |
| `pure_paths.dfy` | the parts of Python's `pathlib.PurePosixPath` that the code uses, following CPython 3.8 to 3.11: `relative_to`, `suffix`, `stem`, `with_suffix`, `parent`, `/` |
| `os_paths.dfy` | the parts of Rust's `Path`/`PathBuf` that the code uses: `strip_prefix`, `push`, `set_extension`, `extension`, `file_stem`, `to_str`. An `OsStr` may hold bytes that are not Unicode. |
| `text.dfy` | ASCII lowering, `trim`, `rfind`, decimal digits |
| `stats.dfy` | the `(original, converted, count)` tuple, its field-wise sum, and the stats class |
| `effects.dfy` | file-system actions (remove, create, move) as values |
| `comparisons.dfy` | where the three implementations disagree |
| `wrappers.dfy` | `Option` and `Result` |

Imperative code is modelled as methods, each proved against a function:
- the discovery loops;
- the prompt loops;
- the stats updates;
- the per-batch error collection;
- the result fold.

## Model

| member | source | states |
|---|---|---|
| Text.Lower | src/utils.py:33 | Lowering keeps the length, and lowers each character on its own (ASCII). |
| Text.LowerIsLower | src/utils.py:33 | A lowered answer has no upper-case letter. Lowering twice changes nothing. |
| Text.TrimStart | src_rust/src/utils.rs:71 | The result is a suffix of the input. It is empty or starts with a non-whitespace character. Every character dropped is whitespace. |
| Text.TrimEnd | src_rust/src/utils.rs:71 | The result is a prefix of the input. It is empty or ends with a non-whitespace character. Every character dropped is whitespace. |
| Text.NatToString | convert_to_webp.py:30 | The text of `int(time())` consists of decimal digits only. |
| Text.NatToStringRoundTrip | convert_to_webp.py:30 | Reading the digits back gives the number. |
| Text.NatToStringInjective | convert_to_webp.py:30 | Different times give different texts. |
| Stats.ConversionStats.constructor | src/convert.py:91 | A new stats record starts with all three counters at zero. |
| Stats.SumAppend | src/convert.py:111-113 | The sum of two runs of tuples concatenated is the field-wise sum of their sums. |
| Stats.SumPermutation | src/convert.py:108-113 | Two tuple sequences that hold the same tuples, in any order, have the same sum. |
| Stats.SumOfZeros | src/utils.py:138-140 | Tuples that are all `(0, 0, 0)` sum to `(0, 0, 0)`. |
| Stats.SumCountBounded | src/utils.py:138-143 | Summing per-file tuples gives a count between 0 and the number of files, and non-negative sizes. |
| Stats.SumCountAll | src/utils.py:138-143 | The count equals the number of files if and only if every file was converted. |
| Stats.SumCountZero | src/utils.py:138-143 | A count of zero means the totals are all zero, so the original total is 0. |
| PurePaths.RelativeTo | src/utils.py:131 | `relative_to` succeeds exactly when the file lies under the base, and otherwise fails with the not-relative error. Joining the base with the result gives back the file. |
| PurePaths.Suffix | src/utils.py:131 | A suffix is either empty, or a dot and non-dot characters that end the name, with something before them. |
| PurePaths.WithSuffix | src/utils.py:131 | `with_suffix` succeeds exactly when the suffix is valid and the path has a name. An invalid suffix gives the invalid-suffix error. A success keeps the parent and the anchor. |
| PurePaths.StemNotEmpty | src/utils.py:131 | A non-empty name has a non-empty stem. |
| PurePaths.WithSuffixThenSuffix | src/utils.py:131 | After `with_suffix(s)`, the new name's suffix is `s`. |
| OsPaths.ToStr | src_rust/src/utils.rs:22 | `to_str` succeeds exactly when the string is Unicode, and the text converts back to the same string. |
| OsPaths.ToStrFromStr | src_rust/src/utils.rs:22 | Text turned into an OS string comes back unchanged. |
| OsPaths.SplitAtDot | src_rust/src/utils.rs:124 | With no extension the whole name is the stem. Otherwise the name is the stem, a dot and the extension; the stem is non-empty and the extension has no dot. |
| OsPaths.SplitJoined | src_rust/src/utils.rs:124 | Splitting `stem.ext` gives back `stem` and `ext`. |
| OsPaths.WithFileName | src_rust/src/utils.rs:124 | Replacing the file name keeps the parent and the anchor, and sets the name. |
| OsPaths.SetExtension | src_rust/src/utils.rs:124 | A path without a file name is left alone. Otherwise only the last component changes, and it becomes the stem with the new extension. |
| OsPaths.SetExtensionThenExtension | src_rust/src/utils.rs:124 | After `set_extension(e)`, the extension is `e` and the stem is unchanged. |
| OsPaths.StripPrefix | src_rust/src/utils.rs:121 | `strip_prefix` succeeds exactly when the path lies under the base, or the base is empty. Joining the base with the result gives back the path. |
| PyUtils.FolderAnswerFrom | src/utils.py:32-37 | It returns the first lowered answer that is allowed, and every earlier answer was not allowed. It reads at most `max_retries` lines. It raises ValueError after `max_retries` refused answers. It raises EOFError only if the console ends before then. |
| PyUtils.GetUserInputForFolder | src/utils.py:21-37 | The `for` loop returns what `FolderAnswer` specifies. |
| PyUtils.FolderAnswerStep | src/utils.py:32-36 | A refused answer only moves the loop on to the next line. |
| PyUtils.ValidateInput | src/utils.py:39-64 | Non-empty input that converts and passes validation is returned converted. Non-empty input that fails is None, even with a default. Empty input gives the default, or None. |
| PyUtils.UserInputFrom | src/utils.py:78-84 | The result is the first line that validates, and every earlier line failed. When no line validates, it is EOFError once the console is exhausted. |
| PyUtils.GetUserInput | src/utils.py:66-84 | The `while True` loop returns what `UserInputFrom` specifies. |
| PyUtils.Rglob | src/utils.py:97 | The paths found are exactly the walked entries whose name matches `*.ext`. |
| PyUtils.GetImageFiles | src/utils.py:86-98 | The list is the matches for `png`, `jpeg`, `jpg` and `webp`, grouped in that enum order. |
| PyUtils.ImageFilesMembership | src/utils.py:95-97 | A path is found if and only if it was walked and its name ends in one of the four patterns. |
| PyUtils.PatternsDisjoint | src/utils.py:95 | No name matches two of the four patterns. |
| PyUtils.RglobDisjoint | src/utils.py:95-97 | The matches of two different patterns share no path. |
| PyUtils.RglobDistinct | src/utils.py:97 | One pattern finds each walked path at most once. |
| PyUtils.ImageFilesDistinct | src/utils.py:94-98 | No path appears twice in the discovered list. |
| PyUtils.OutputFolderIsSibling | src/utils.py:110 | For a non-root source, the output folder is a sibling named `<name>_<format lowered>`. Neither folder lies inside the other. |
| PyUtils.OutputFolderOfAnchor | src/utils.py:110 | For a root source, the output folder is `_<format>` inside the source itself. |
| PyUtils.CreateOutputFolder | src/utils.py:100-117 | On error nothing is done. On success the folder is returned and its creation is the last action. With no existing folder, the only action is creating it and no console line is read. For an existing folder: an 'n' cancels; a 'y' removes the folder and creates it again, in that order; an error of the prompt (ValueError after three refusals, EOFError) is passed on with nothing done. Removal happens exactly after a 'y'. |
| PyUtils.ThreeRefusalsRaise | src/utils.py:111-115 | Three answers that are neither 'y' nor 'n' raise ValueError after three lines, with nothing removed or created. |
| PyUtils.Destination | src/utils.py:131 | A file outside the source gives the not-relative error. A file under the source gets `output / relative dirs / stem.<format lowered>`. A file equal to the source fails. |
| PyUtils.DestinationSuffix | src/utils.py:131 | A destination's suffix is `.<format lowered>`. |
| PyUtils.DestinationCollision | src/utils.py:131 | Two files in one folder with the same stem get the same destination. |
| PyUtils.SiblingSuffixesCollide | src/utils.py:131 | `a.png` and `a.jpg` are written to the same destination. |
| PyUtils.ProcessFile | src/utils.py:119-143 | The tuple is returned exactly when the path maps, the directory is made, the size is read, and the codec error is not an unlisted one. A saved file gives `(original, converted, 1)`. A listed codec error gives `(0, 0, 0)`. |
| PyUtils.GenerateReport | src/utils.py:145-157 | It raises ZeroDivisionError exactly when the original total is 0. Otherwise the reduction is `original - converted`, the MB and percentage values are in exact ratio to it, and the count and time are copied. |
| PyUtils.GuardedReport | src/utils.py:152-153 | With a nonzero original total it is the report above. With a zero total the percentage is 0 instead of a division error. |
| PyConvert.Worker | src/convert.py:23-37 | None exactly when `process_file` raised. Otherwise the per-file tuple. |
| PyConvert.UpdateConversionStats | src/convert.py:39-50 | Each argument is added to its own counter. The same object is returned. `total_time` is untouched. |
| PyConvert.FoldWorkerResults | src/convert.py:111-113 | The unpacking loop fails if and only if some worker returned None, and then with the unpacking TypeError. |
| PyConvert.FoldIsSum | src/convert.py:111-113 | With no None, the loop ends with the field-wise sum of all tuples. |
| PyConvert.FoldWorkerResultsCorrected | src/convert.py:111-113 | The fold that counts None as `(0, 0, 0)` is the sum of the tuples, and agrees with the loop as written whenever that loop succeeds. |
| PyConvert.FoldCorrectedOrderIndependent | src/convert.py:108-113 | The corrected totals do not depend on the order of the worker results. |
| PyConvert.UnlistedCodecErrorAbortsRun | src/convert.py:111-113 | An unlisted codec error makes the worker return None, and the loop then raises TypeError. |
| PyConvert.CorrectedSkipsFailure | src/convert.py:111-113 | The corrected fold steps over a None without changing the totals. |
| PyConvert.UnidentifiedCountsZero | src/utils.py:138-140 | An unidentifiable image counts as `(0, 0, 0)`. |
| PyConvert.AllFailedRunFoldsToZero | src/convert.py:111-113 | A run in which every file was such a failure folds to `(0, 0, 0)`. |
| PyConvert.GetUserSettings | src/convert.py:52-80 | The folder is the answer of `get_user_input` on the console lines. Quality is its answer on the lines after the folder's, and threads on the lines after that. The settings exist exactly when all three prompts answer. The folder passed `is_dir`. Quality and threads are positive or the defaults. The only error is EOFError. |
| PyConvert.WorkerResults | src/convert.py:108-111 | There is one worker result per file, in file order. |
| PyConvert.Outcome | src/convert.py:82-116 | There is no images exactly when discovery is empty. Cancelled exactly when the replace prompt was answered 'n'. A report only when every worker returned a tuple: its totals are their sum, and the report is built from them. |
| PyConvert.OutcomeUnpackError | src/convert.py:111-113 | The run raises the unpacking TypeError if and only if there were images, the folder was prepared, and some worker returned None. |
| PyConvert.OutcomeZeroDivision | src/convert.py:111-116 | The run raises ZeroDivisionError if and only if the folder was prepared, every worker returned a tuple, and the original sizes sum to 0. |
| PyConvert.OutcomeActions | src/convert.py:93-102 | No file-system action without images or after a cancel. A reported run ends by creating the output folder. A removal happens only if the folder existed. |
| PyConvert.ConvertImages | src/convert.py:82-116 | The run's outcome and actions are `Outcome` and `OutcomeActions`. |
| PyConvert.FoldIntoStats | src/convert.py:111-115 | The loop of in-place `update_conversion_stats` calls computes `FoldWorkerResults`. `total_time` is stamped with the elapsed time exactly when the loop completes. |
| RustUtils.ImageFiles | src_rust/src/utils.rs:17-27 | The kept paths are exactly the walked files whose Unicode extension is an image extension. There are at most as many as walked items. |
| RustUtils.GetImageFiles | src_rust/src/utils.rs:13-29 | The push loop returns `ImageFiles`. |
| RustUtils.ImageExtensionCases | src_rust/src/utils.rs:14-23 | `PNG`, `Jpg` and `jpeg` match, ignoring case. `webp` and `gif` do not. |
| RustUtils.NonUnicodeExtensionSkipped | src_rust/src/utils.rs:22 | A file whose extension is not Unicode is never kept. |
| RustUtils.ValidateInput | src_rust/src/utils.rs:31-48 | The result is `Some(x)` exactly when the converted value is `Some(x)` and passes. Otherwise it is None. |
| RustUtils.AnswerAtEof | src_rust/src/utils.rs:71-80 | At end of input the empty line gives the default when there is one. Any value given is valid or is the default. |
| RustUtils.UserInputFrom | src_rust/src/utils.rs:63-82 | With a default, the loop always produces a value. A value is valid or is the default. Without an answer every line has been consumed. |
| RustUtils.FirstAnsweringLine | src_rust/src/utils.rs:63-82 | The answer comes from the first line the loop does not pass over. Every earlier line failed to read or, without a default, held no valid value after trimming and conversion. The answer is that line's valid value, or else the default. When every line is passed over, the answer is what the end of file gives. |
| RustUtils.GetUserInput | src_rust/src/utils.rs:50-83 | The `loop` returns what `UserInput` specifies; the lemma `FirstAnsweringLine` says which line answers. |
| RustUtils.DefaultAfterOneInvalidLine | src_rust/src/utils.rs:74-80 | With a default, the first invalid line returns the default after reading one line. |
| RustUtils.ReadFailuresSkipped | src_rust/src/utils.rs:66-69 | Lines that fail to read are skipped, and the prompt repeats. |
| RustUtils.TrimmedBeforeConversion | src_rust/src/utils.rs:71-72 | The line is trimmed, newline included, before conversion. |
| RustUtils.TrimNewline | src_rust/src/utils.rs:71 | Trimming ignores the line's newline. |
| RustUtils.OutputFolder | src_rust/src/utils.rs:98-100 | No parent or no file name gives the invalid-path error. A name that is not Unicode gives the UTF-8 error. Otherwise the result is the sibling `<name>_<format lowered>`. |
| RustUtils.CreateOutputFolder | src_rust/src/utils.rs:97-118 | An error of `OutputFolder` comes back unchanged, with nothing done. A missing folder is created and returned. For an existing folder: a failed read gives `Io`; a trimmed `n`, ignoring case, cancels; any other answer removes the folder and creates it again. Removal happens exactly when the folder existed and the run goes on. |
| RustUtils.AnsweringNoStillReplaces | src_rust/src/utils.rs:109-113 | Answering "no" removes and re-creates the existing folder. |
| RustUtils.PaddedUpperNCancels | src_rust/src/utils.rs:109-110 | The answer " N " cancels. |
| RustUtils.Destination | src_rust/src/utils.rs:121-124 | It fails exactly when `strip_prefix` fails. |
| RustUtils.DestinationLayout | src_rust/src/utils.rs:121-124 | The destination is the output folder, the relative directories, and the file stem with the format extension. |
| RustUtils.ProcessFile | src_rust/src/utils.rs:120-156 | Success gives `(original, converted, 1)`. "File not found" and decode errors occur exactly when the open fails in those ways. A file outside a non-empty source fails at `strip_prefix`. |
| RustMain.GetUserSettings | src_rust/src/main.rs:22-52 | The folder is the answer of `get_user_input` on the console lines. Quality is its answer on the lines after the folder's, threads on the lines after that, and the lines read are the three prompts' lines. The folder passed `is_dir`. Quality and threads are positive or the defaults. No settings exactly when the folder prompt never gets a valid line. |
| RustMain.BatchSize | src_rust/src/main.rs:69 | The batch size is at least 1. It is the floor of `len / (threads*32)` when that is at least 1, and 1 otherwise. |
| RustMain.Chunks | src_rust/src/main.rs:71 | Every chunk is non-empty and at most the batch size. All but the last have exactly the batch size. |
| RustMain.ChunksFlatten | src_rust/src/main.rs:71 | The chunks concatenate back to the file list, so each file is in exactly one batch. |
| RustMain.ChunksCount | src_rust/src/main.rs:71 | The number of chunks is `ceil(len / batch_size)`. |
| RustMain.NarrowToU8 | src_rust/src/main.rs:56-62 | Narrowing succeeds exactly for 0..255 and keeps the value. |
| RustMain.Failures | src_rust/src/main.rs:72-79 | There is at most one error per file. |
| RustMain.FailuresEmpty | src_rust/src/main.rs:90-92 | The error list is empty if and only if every file converted. |
| RustMain.FailuresAppend | src_rust/src/main.rs:71-79 | The errors of two consecutive runs of files are the errors of each, in order. |
| RustMain.ConvertBatch | src_rust/src/main.rs:72-80 | A batch's loop collects exactly the errors of its files, in order. |
| RustMain.ProcessFiles | src_rust/src/main.rs:54-98 | A quality outside u8 stops before any file. Otherwise the errors are those of all files in order, and the counter ends at the number of batches. |
| RustMain.RunProgram | src_rust/src/main.rs:100-116 | It hangs exactly when the folder prompt never gets a valid line. A panic carries a folder-creation error. A finished run's output folder is the sibling folder, created last, and the files were processed exactly when the quality fits u8. |
| Legacy.StepImages | convert_to_webp.py:20-22 | A directory's files are kept exactly when their names end in `png`, `jpeg` or `jpg`. |
| Legacy.ImageFiles | convert_to_webp.py:17-23 | The list holds exactly the matching files of every walked directory. |
| Legacy.NameTestCases | convert_to_webp.py:22 | `xpng` and `a.jpeg` are taken. `photo.PNG` and `photo.webp` are not. |
| Legacy.OutputFolder | convert_to_webp.py:28 | The output folder is the source text followed by `_webp`. |
| Legacy.BackupFolder | convert_to_webp.py:30 | The backup name extends the output folder's name. |
| Legacy.CreateOutputFolder | convert_to_webp.py:27-34 | Nothing is ever removed. An existing folder is moved to the backup name first. The last action creates the output folder. |
| Legacy.BackupNamesDistinct | convert_to_webp.py:29-31 | The backup never has the output folder's name, and different times give different backups. |
| Legacy.TrailingSlashNestsOutput | convert_to_webp.py:28 | For a source ending in `/`, the output path is the source directory followed by one more component with no `/`: a folder directly inside the source. |
| Legacy.SplitExt | convert_to_webp.py:41 | The two parts rejoin to the name. The extension is empty, or a dot with no further dot. There is an extension exactly when the name's last dot has a character other than a dot before it. |
| Legacy.Destination | convert_to_webp.py:38-41 | Every destination lies under `output/` and ends in `.webp`. Dropping `.webp` and putting back the file's own extension gives `output/`, the file's directories relative to the source, and its name. |
| Legacy.DestinationNames | convert_to_webp.py:38-41 | `photo.png` becomes `photo.webp`, and `xpng` becomes `xpng.webp`. |
| Legacy.TopLevelDestination | convert_to_webp.py:38-41 | A top-level file keeps its name without its extension, plus `.webp`. |
| Legacy.FileTally | convert_to_webp.py:43-52 | A raised step adds nothing. Otherwise the original size is added whether or not the conversion worked, and the converted size only when it worked. The count is 1 exactly on success. |
| Legacy.ProcessFile | convert_to_webp.py:37-54 | The shared stats grow by `FileTally`. The exception raised before the `try` is reported. `total_time` is untouched. |
| Legacy.FileTallyCorrected | convert_to_webp.py:43-52 | A file counts exactly when no step raised and the conversion worked. A file that was not converted adds nothing. A converted one adds what the script adds. |
| Legacy.GenerateReport | convert_to_webp.py:57-63 | It raises ZeroDivisionError exactly when the original total is 0. |
| Legacy.ReportsAgree | convert_to_webp.py:58-59 | The script's report equals the package's report. |
| Legacy.FailedFileReportedAsReduction | convert_to_webp.py:43-44 | One failed 1000-byte file is reported as a 100% reduction with 0 conversions. |
| Legacy.CorrectedClaimsNothingWithoutConversions | convert_to_webp.py:43-63 | With the corrected per-file tally, a run in which no file was converted has zero totals. The unguarded report then raises ZeroDivisionError, and the guarded report shows 0% and nothing reduced. |
| Legacy.FirstError | convert_to_webp.py:86 | No exception exactly when no file raised. |
| Legacy.ProcessAll | convert_to_webp.py:85-86 | The stats grow by the totals of every file. The first exception is the one `list(...)` re-raises. |
| Legacy.ConvertImagesToWebp | convert_to_webp.py:66-89 | A missing folder does nothing. Otherwise the output folder is prepared, the files are processed in order, and the run raises the first file error, the report's error, or reports the totals. |
| Legacy.EmptyFolderDividesByZero | convert_to_webp.py:81-89 | An empty folder has no error and zero totals, and its report raises ZeroDivisionError for any time. |
| WebApp.Jsonify | src/app.py:63-64 | The reply is `{"message": m}` with the status. |
| WebApp.ValidateForm | src/app.py:28-52 | Every refusal is a 400. A form is accepted exactly when `source_folder` is present, both numeric fields are digits, quality is at most 100, threads is at least 1, and the folder is a directory. Accepted settings are the digit values. A refusal carries the message of the first failed check, in the code's order: missing field, not numeric, quality range, threads range, folder. |
| WebApp.RunResponse | src/app.py:50-61 | 200 with "Conversion completed" exactly when nothing was raised. 400 with "Invalid input: …" exactly for ValueError. 500 with "An error occurred: …" for any other exception. |
| WebApp.Convert | src/app.py:24-64 | A refused form is sent as its message. Otherwise the pipeline's outcome is sent. |
| WebApp.QualityZeroAcceptedOnlyHere | src/app.py:40-41 | Quality 0 passes the form, though the console prompt refuses it. |
| WebApp.EmptyQualityRefused | src/app.py:29-34 | An empty quality field is used as sent and refused as not numeric. |
| WebApp.QualityCheckedFirst | src/app.py:40-43 | When quality and threads are both out of range, the quality message wins. |
| Comparisons.StemsAgree | src_rust/src/utils.rs:124 | Unless a name ends in its last dot, Python's `stem` and Rust's `file_stem` agree. |
| Comparisons.TrailingDotDiffers | src_rust/src/utils.rs:124 | For `a.`, Python keeps the dot in the stem and Rust drops it. |
| Comparisons.UpperCaseFoundOnlyByRust | src_rust/src/utils.rs:23 | `photo.PNG` is found only by the Rust version. |
| Comparisons.WebpFoundOnlyByPython | src/utils.py:95 | `photo.webp` is found only by the Python package. |
| Comparisons.DotlessFoundOnlyByLegacy | convert_to_webp.py:22 | `xpng` is found by the earlier script. The Python package does not find it, and the Rust version does not find any path named `xpng`. |

## Left out

- Image decoding and encoding (PIL, the `image` and `webp` crates) are foreign libraries. Each file's codec outcome is an input: saved with a size, or one of the failures the code distinguishes.
- File-system effects are not performed:
  - `rglob`, `WalkDir` and `os.walk` are given as entry lists.
  - `mkdir`, `rmtree`, `remove_dir_all` and `shutil.move` are returned as action values.
  - `stat` and `metadata` sizes are inputs.
  - `is_dir` and `exists` are inputs.
- `shutil.move` into a backup folder that already exists is not modelled; it would nest the old output.
- PyUtils.CreateOutputFolder: a failing `rmtree` or `mkdir` (`FileExistsError`, permissions) is not modelled. The actions always succeed.
- RustUtils.CreateOutputFolder: a failing `remove_dir_all` or `create_dir_all`, and an I/O error while flushing the prompt, are not modelled. The `?` error those would return never happens in the model.
- Legacy.CreateOutputFolder: a failing `shutil.move` or `os.makedirs` is not modelled.
- Legacy.ConvertImagesToWebp: `list(executor.map(...))` re-raises at the first failed result in file order, and pending futures are cancelled on leaving the pool. The model processes every file before raising, so it may count files the script never converts. The exception raised is the same.
- Concurrency is modelled sequentially:
  - `ThreadPoolExecutor` and rayon's `par_chunks().for_each_with` run one file or batch after another.
  - The legacy script's unsynchronised `stats` updates (lost updates) are not modelled.
  - The Rust error list is modelled in file order; under rayon its order can differ.
  - The Rust progress counter's `Relaxed` ordering is not modelled.
- The thread count sets no pool size in the model.
- RustMain.BatchSize: `threads * 32` does not wrap on `usize` overflow, because integers are unbounded.
- RustMain.ProcessFiles: requires `threads > 0`. `get_user_settings` guarantees this, and the code would otherwise divide by zero.
- Floating point: the report's MB and percentage are exact reals, and `quality as f32` is not modelled.
- Timing is an input: `time()` and `Instant` are given, and `print_completion_message` is not modelled.
- Text handling is ASCII only:
  - `str.lower` and `to_lowercase` are ASCII lowering.
  - `str.isdigit` is ASCII digits.
  - Unicode case rules are not modelled.
- `int()`, `i32::from_str`, `usize::from_str` and `PathBuf::from_str` are parameters.
- `OSError`'s message text (errno and path) is not modelled.
- WebApp.ValidateForm: the text after "Missing form field: " is werkzeug's `BadRequestKeyError` text as raised outside debug mode. Werkzeug is not part of this model, and other werkzeug versions word it differently.
- Console I/O is modelled as follows:
  - stdin is a sequence of lines.
  - A Rust read failure is a `ReadFailed` line.
  - Prompts, warnings, logging, `print_separator` and the progress bars (`tqdm`, `initialize_progress_bar`) are not modelled.
- The web conversion's replace prompt reads the server's console; the model gives it the same line sequence.
- `src/app.py` imports `global_conversion_progress`, which `src/convert.py` does not define. The `/progress` stream and the `/` page are not part of this model.
- `DEFAULT_QUALITY` and `DEFAULT_THREADS` of the Python package come from a `constants` module that is not part of this model, so they are parameters. The Rust constants (80, 16, "WebP") are modelled.
- The legacy script reads `source_folder` as a module global set at its entry point. The model passes it, and the file's directories relative to it, as values.
- The module entry points (`main` in `src/convert.py`, the script's `__main__` block) only chain the modelled operations and are not modelled separately.

## Findings

| source | as written | input that shows it | evidently intended | confidence | as-written member | corrected member |
|---|---|---|---|---|---|---|
| src/convert.py:111-113 | `worker` returns None when `process_file` raises. Unpacking that None raises TypeError and ends the run with no report. | A file whose codec error is not one of the three listed errors: an unlisted codec failure. | A failed file counts as not converted, and the run goes on to the report. | not executed | PyConvert.UnlistedCodecErrorAbortsRun | PyConvert.FoldWorkerResultsCorrected |
| src/utils.py:152-153 | The percentage divides by `total_original_size` with no guard. | Every file fails with a listed codec error, so the totals are `(0, 0, 0)`. | Report a 0% reduction when nothing was measured. | not executed | PyConvert.OutcomeZeroDivision | PyUtils.GuardedReport |
| convert_to_webp.py:81-89 | There is no early return for an empty file list, so the report divides by a zero original total. | A source folder without images. | Return before the report, as src/convert.py:94-96 does, or guard the division. | not executed | Legacy.EmptyFolderDividesByZero | PyUtils.GuardedReport |
| convert_to_webp.py:43-44 | The original size is added before the conversion is tried, so a failed file counts as saved space. | One 1000-byte file that fails to convert: the report shows 100% reduced and 0 converted. | Count sizes only for converted files. | not executed | Legacy.FailedFileReportedAsReduction | Legacy.CorrectedClaimsNothingWithoutConversions |
