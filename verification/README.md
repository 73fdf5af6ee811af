# aicontexter: the file-selection and aggregation engine, in Dafny

aicontexter is a small Tkinter application (`FileCollectorApp`). It walks a
source folder, keeps the files whose extension passes its filters, and writes
them into one text document. The document opens with a short preamble: the
folder and an optional task prompt. Each file then gets a framed block. This
project models the engine behind the window:

- `Text`: the Python string operations the filters use. These are
  `str.strip()`, `str.lower()`, `str.lstrip('.')` and `str.split(',')`, on
  ASCII text.
- `Extensions`: how `_parse_extensions` turns a comma-separated list into a
  set of extensions. Also the extension of a file name, taken from pathlib's
  `suffix`, and the form it takes in a file's header.
- `Filters`: the guard chain of `should_process_file`. Also a class
  `FileCollector` holding the settings and the two fields
  `_include_ext_set` and `_exclude_ext_set`. Its methods rebuild or clear
  those fields in place, as `_build_filter_sets`, `update_file_type_state`
  and `generate_file` do.
- `Selection`: `files_to_process`, the order-preserving filter over the
  listing of the source folder.
- `Reading`: the per-file loop over the encodings `utf-8`, `latin-1` and
  `cp1252`. A method with the loop's `break`s is proved equal to a
  state-machine function, and the outcome is characterised by lemmas.
- `Aggregation`: the output document. The output file is an object whose
  text each write extends. `CollectFiles` is the body of
  `collect_files_thread`. It is proved to return before creating the output
  file when nothing matches. Otherwise it writes exactly the preamble and
  one block per selected file, in order, and its counter ends at the number
  of selected files.
- `Sequences`: facts about concatenation used by the proofs.

The file-system listing and the outcome of reading a file under each
encoding are inputs. A listing entry carries its name, its relative path as
printed, whether it is a regular file, and a function from encoding name to
the outcome of reading under that encoding (`Decoded(text)`,
`DecodeFailure`, or `OtherFailure(type, message)`).

The code, and so the model, does none of the following:

- prune directories (such as version-control or dependency folders) from
  the walk;
- exclude files by full file name (exclusion is by extension only);
- apply the exclude list in all-files mode;
- test file contents for null bytes to skip binary files;
- write a file count in the preamble (it says "Collected Files:");
- label a file without a suffix "no extension" (it writes `unknown`);
- keep the output file out of the selection (it only warns when the output
  lies inside the source folder);
- count the files that could not be read.

## Model

| member | source | states |
|---|---|---|
| `Text.Strip` | aicontexter.py:234 | `strip()`: the result is a contiguous part of the token with a blank prefix before it and a blank suffix after it, and neither of its ends is whitespace. It is empty exactly when the token is blank, the test `if ext.strip()` applies. |
| `Text.Lower` | aicontexter.py:234 | `lower()`: same length; each upper-case letter becomes the letter 32 code points above it (`P` to `p`); every other character is unchanged. So `PY` and `py` give the same extension. |
| `Text.TrimLeadingDots` | aicontexter.py:234 | `lstrip('.')`: the result is a suffix of the input and does not start with `.`. Everything removed was a `.`. |
| `Text.Split` | aicontexter.py:234 | `split(',')` always gives at least one piece, and no piece holds a comma. |
| `Text.JoinSplit` | aicontexter.py:234 | Joining the pieces of a split with the separator gives back the string. |
| `Text.SplitJoin` | aicontexter.py:234 | Splitting a join of comma-free pieces gives back the pieces, so Split and Join are mutual inverses. |
| `Text.SplitAround` | aicontexter.py:234 | A separator between two strings splits them apart: `Split(a + "," + b) == Split(a) + Split(b)`. |
| `Extensions.Normalize` | aicontexter.py:234 | A normalised token is lower-case and does not start with `.`. |
| `Extensions.ParseTokens` | aicontexter.py:234 | The set comprehension over the comma-separated tokens, in both directions: every non-blank token contributes its normalised form, and every element is the normalised form of some token whose `strip()` is non-empty (by `Strip`'s contract, a non-blank token). The set is empty exactly when every token is blank. |
| `Extensions.ParseExtensions` | aicontexter.py:230-234 | Every element is lower-case and has no leading dot. The set is empty exactly when every comma-separated token is blank, including for the empty string. |
| `Extensions.EmptyGuardRedundant` | aicontexter.py:232-234 | The early `return set()` for an empty string gives the same result as the comprehension. |
| `Extensions.ParseSingle` | aicontexter.py:234 | A comma-free list contributes exactly one element, its normalised token, unless the token is blank. |
| `Extensions.ParseConcat` | aicontexter.py:234 | Parsing distributes over the comma: `parse(a + "," + b) == parse(a) ∪ parse(b)`. |
| `Extensions.ParseCommutes` | aicontexter.py:234 | The order of tokens does not change the set. |
| `Extensions.ParseAbsorbs` | aicontexter.py:234 | Repeating tokens does not change the set. |
| `Extensions.RFind` | aicontexter.py:286 | The index of the last dot, or -1 when there is none. Nothing after it is a dot. |
| `Extensions.Suffix` | aicontexter.py:286 | pathlib's `suffix`: when non-empty it is the tail of the name from a dot, at least two characters long, shorter than the name, with no further dot. It is empty exactly when the name is shorter than two characters, has no dot after its first character, or ends in a dot. |
| `Extensions.Extension` | aicontexter.py:286 | The extension is lower-case and dot-free. When non-empty, it is the lower-cased tail after a dot that has at least one character before it and no dot after it. |
| `Extensions.ExtensionOfParts` | aicontexter.py:286 | For a non-empty stem, a dot and a non-empty dot-free tail, the extension is the lower-cased tail. This is the converse of `Extension`'s contract. |
| `Extensions.NoExtension` | aicontexter.py:286-288 | A name with no dot, a name whose only dot is its first character, and a name ending in a dot all have no extension. |
| `Extensions.HeaderExtension` | aicontexter.py:396 | The header label is the extension, or `unknown` when the extension is empty. |
| `Filters.ShouldProcessFile` | aicontexter.py:279-299 | All-files mode accepts every file whatever the sets hold. Otherwise a file is rejected when it has no extension, when its extension is excluded (even if also included), or when the include set is empty. Overall it is accepted iff the extension is non-empty, not excluded and included. |
| `Filters.FileCollector.constructor` | aicontexter.py:23-40 | Initial settings: all-files mode, only py/js/css checked, no custom includes, the default binary/font exclude list, and both sets empty. |
| `Filters.FileCollector.CheckedCommonTypes` | aicontexter.py:242-250 | The extensions gathered from the check boxes are exactly those of the checked common types, with the YAML box adding both `yml` and `yaml`. |
| `Filters.FileCollector.BuildFilterSets` | aicontexter.py:236-256 | The exclude set becomes the parsed custom excludes. The include set becomes the checked common types (YAML adds `yml` and `yaml`) together with the parsed custom includes. The settings are not changed. |
| `Filters.FileCollector.UpdateFileTypeState` | aicontexter.py:221-227 | Filter mode rebuilds both sets from the settings. All-files mode leaves both empty. |
| `Filters.FileCollector.RefreshFilterSets` | aicontexter.py:334-339 | The refresh before a run: filter mode rebuilds both sets, all-files mode empties both. |
| `Selection.Select` | aicontexter.py:359 | The list comprehension `files_to_process`, recursive over the listing and keeping its order: no longer than the listing. Its members are stated by `SelectMembers`, its order by `SelectAppend` and `SelectKeepsOrder`. |
| `Selection.SelectMembers` | aicontexter.py:357-359 | An entry is in `files_to_process` exactly when it is in the listing, its name holds a dot (the `*.*` glob), it is a regular file and `should_process_file` accepts it. |
| `Selection.SelectAppend` | aicontexter.py:359 | Filtering a concatenated listing gives the concatenation of the two filtered parts. |
| `Selection.SelectKeepsOrder` | aicontexter.py:359 | A selected entry at listing position j is in the result, at the index equal to the number of entries selected before it. Nothing is dropped or reordered. |
| `Selection.SelectEmpty` | aicontexter.py:359-363 | `total_files == 0` exactly when no entry of the listing qualifies. |
| `Selection.SelectAllFiles` | aicontexter.py:281-282 | In all-files mode the sets play no part: every regular file whose name holds a dot is collected, including files with excluded extensions. |
| `Reading.DecodeFailureMarker` | aicontexter.py:409 | The message a `UnicodeDecodeError` leaves is bracketed and ends with the name of the encoding that failed. |
| `Reading.OtherFailureMarker` | aicontexter.py:412 | The message any other exception leaves is bracketed, has the exception's class name right after `[Read Error: ` and its text right before the closing bracket. |
| `Reading.Fallback` | aicontexter.py:402-414 | The encoding loop as a state machine over the encodings still to try. Any message it records is one of the bracketed markers. Its outcome is characterised by `FallbackOutcome`. |
| `Reading.FirstDecisive` | aicontexter.py:402-414 | The position of the first encoding whose attempt is not a decode failure. Every earlier attempt failed to decode. |
| `Reading.FallbackOutcome` | aicontexter.py:400-414 | First success wins, with the marker of the encoding tried just before it. Another failure stops the loop with `[Read Error: <Type> - <msg>]`. When all decodes fail, there is no content and the marker names the last encoding. |
| `Reading.ReadWithFallback` | aicontexter.py:400-414 | The loop with its `break`s and `continue` leaves exactly the `content` and `error_msg` that the state machine `Fallback` computes. |
| `Reading.Body` | aicontexter.py:416-422 | What is written for a file: the content verbatim when there is some; otherwise a line ending in a newline (the error message, or the unknown-issue marker when there is no message). |
| `Reading.UnknownIssueUnreachable` | aicontexter.py:416-422 | With a non-empty encoding list, the loop leaves content or a non-empty `[Read Error…` message. So the body is the content if any, otherwise that message plus a newline, and the "Unknown issue" branch is never taken. |
| `Reading.BodyUnderEncodings` | aicontexter.py:376-419 | For the real list, every case: the text of the first encoding that decodes is written as is, with no marker, whichever of `utf-8`, `latin-1` or `cp1252` it is. The first failure other than decoding, on any of the three after decode failures on all earlier ones, writes its own `[Read Error: <Type> - <msg>]` marker. Three decode failures write the cp1252 marker. `FallbackOutcome` states the same for any encoding list. |
| `Reading.Latin1EndsTheSearch` | aicontexter.py:402-410 | When the Latin-1 attempt is not a decode failure (Python's codec never raises one), cp1252 is never tried. |
| `Aggregation.PromptSection` | aicontexter.py:384-387 | A given prompt is written after exactly `Task Prompt:`, a newline, `---` and a newline, and appears verbatim right there. An empty prompt gives exactly `Task Prompt: (Not provided)` and a blank line. |
| `Aggregation.Preamble` | aicontexter.py:383-389 | The source folder appears right after the `Source Folder: ` label, and the preamble ends with the rule of 80 `=` and a blank line. |
| `Aggregation.Header` | aicontexter.py:398 | The relative path appears right after the `==== FILE: ` opening of a file's header. |
| `Aggregation.Block` | aicontexter.py:398-424 | A file's block is its header, the body chosen by the encoding fallback, and the closing rule. `WriteFileBlock` is proved to write exactly this. |
| `Aggregation.Blocks` | aicontexter.py:392-424 | The blocks of the files in order; empty exactly when there are no files (every block is non-empty). |
| `Aggregation.Document` | aicontexter.py:383-424 | The preamble followed by the blocks. Its layout is stated by `DocumentLayout`, and `CollectFiles` is proved to write exactly this. |
| `Aggregation.BlocksAppend` | aicontexter.py:392-424 | The blocks of two file lists, one after the other, are the blocks of the concatenated list. |
| `Aggregation.BlocksOfLonger` | aicontexter.py:392-424 | One more file adds exactly that file's block at the end. |
| `Aggregation.DocumentLayout` | aicontexter.py:383-424 | The document starts with the preamble. The k-th file's block comes right after the preamble and the blocks of the files before it. |
| `Aggregation.OutputFile.constructor` | aicontexter.py:381 | A file opened with mode `'w'` starts empty. |
| `Aggregation.OutputFile.Write` | aicontexter.py:383 | Each write appends its text and changes nothing else. |
| `Aggregation.WritePreamble` | aicontexter.py:383-389 | Appends `Source Folder: …`, then the prompt section or `Task Prompt: (Not provided)`, then `Collected Files:` and a rule of 80 `=`. |
| `Aggregation.WriteFileBlock` | aicontexter.py:393-424 | Appends `==== FILE: <rel> [<ext>] ====`, then the body chosen by the encoding fallback, then the closing rule: exactly the file's block. |
| `Aggregation.WriteFileBlocks` | aicontexter.py:391-427 | The per-file loop appends exactly the blocks of the files, in order, and `processed_files` ends equal to the number of files. |
| `Aggregation.CollectFiles` | aicontexter.py:357-427 | Returns before the output file is created exactly when nothing is selected. Otherwise the file holds the preamble followed by one block per selected file, in listing order, and `processed_files` equals `total_files`. |

## Left out

- The Tkinter user interface is not modelled: windows, tabs, widgets, themes, the file dialogs, message boxes, and the `StringVar`/`BooleanVar` plumbing (aicontexter.py:10-218, 259-277, 458-483). The settings are plain fields of `FileCollector`, and the prompt is a plain argument. The `.strip()` that `generate_file` applies to the prompt (aicontexter.py:305) happens before the model is called.
- The checks in `generate_file` are not modelled: the missing source or output path and the is-relative-to warning with its dialog (aicontexter.py:303-326). They are user interaction; the warning removes nothing from the selection.
- Threading and `root.after` scheduling are not modelled (aicontexter.py:343-347, 365-372, 437, 449, 455). The run reads one snapshot of the filter state (`Criteria`). The thread instead reads `use_all_files`, `_include_ext_set` and `_exclude_ext_set` live in `should_process_file`. The "Process all files" check box stays enabled during a run, and clicking it calls `update_file_type_state`, which rebuilds or clears both sets (aicontexter.py:222-227) while the selection is being made.
- Status messages and the float progress percentage are not modelled (aicontexter.py:351, 371, 394, 428-439). Only the integer counter `processed_files` is.
- The file system is an input: the order and contents of `rglob`, `is_file`, `relative_to` and `resolve`.
- The model assumes that creating the output directory, opening the output file and every write to it succeed (aicontexter.py:379-424). In the code such a failure is caught by the outer `except` (aicontexter.py:442-451), and the run ends there, possibly leaving a partly written file.
- A previous output file inside the source folder is not modelled as it behaves. It is listed (aicontexter.py:357) before `open(output_path, 'w')` truncates it (aicontexter.py:381). When the loop reaches it, it is read back while being written, so its block holds part of the new document. An entry's read outcome is fixed in advance, so it cannot depend on what the run has written.
- Codecs are an input: each read attempt's outcome is given per encoding name. Text-mode newline translation on reading and writing is part of that abstraction.
- `Text.Lower` and `Text.Strip`: case and whitespace are ASCII only (Python's `str.isspace` on characters 0-127). Python's Unicode-aware `lower()` and `strip()` treat non-ASCII letters and spaces differently.
- `Extensions.Extension`: follows pathlib's `suffix` before Python 3.14, where a name ending in a dot has no suffix. Under 3.14 such a name would get the header label `[]` instead of `[unknown]`. Either way it is rejected in filter mode.
