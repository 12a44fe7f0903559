# Math solver: from composed response to saved report

This project models the deterministic core of `math_solver.py`, the
interactive math solver that asks Claude a question and gets back a response
composed with the code-execution tool. For each question the solver:

- projects the composed response onto the ids of the files the tool
  generated, the code it ran and the narrative text;
- downloads the files, skipping every id whose fetch fails;
- derives a sanitised report file name from the question;
- renders a markdown report section by section.

The model follows the source's own shape:

- The loops that append to `file_ids`, `code_blocks`, `text_content` and
  `downloaded_files` are methods with loops.
- The report's `+=` loops are methods too.
- Each method is proved equal to a specification function.
- The properties the source promises are lemmas about those functions.
- The file-name sanitiser is a set of pure functions.

Modules:

- `Wrappers` holds `Option` and `Result`.
- `Sequences` holds order-preserving selection (`Collect`) and concatenation
  (`Concat`), with their algebra.
- `Text` holds the Python string operations the core uses:
  - `str.strip()` with Python's whitespace set;
  - slicing;
  - one-character `replace`;
  - ASCII `isalnum`, `lower` and `upper`;
  - decimal rendering of an `int`;
  - `Path(p).name`.
- `Content` holds the response as a closed tagged union of blocks, whose
  payloads are Python values.
- `Extractor` models `extract_files_from_response`, `extract_code_blocks`
  and the text-gathering loop.
- `Downloader` models `download_files` over a fetch oracle.
- `ReportName` models the sanitised question and the report path.
- `Markdown` holds the report document and its rendering loops.
- `Pipeline` models one question's path through these steps, as
  `run_interactive_session` chains them.
- `Session` models the reading of one input line.

Extraction raises in one case. The loop at `math_solver.py` line 132
raises `TypeError` when a `code_execution_result` payload holds "content" as
`None`, a number or a boolean. The model represents this as
`Failure(NotIterable(...))`. `Pipeline.ProcessResult` then produces no
report, as the exception would. Every other malformed shape contributes
nothing.

## Model

| member | source | states |
|---|---|---|
| Extractor.ExtractFilesFromResponse | math_solver.py:120-136 | The nested loops return exactly `FileIds(response.content)`. That is:<br>- the file ids of all blocks, in block order and then entry order, duplicates kept;<br>- or the error of the first block whose result "content" cannot be iterated. |
| Extractor.AppendEntryFileIds | math_solver.py:132-134 | The inner loop appends, in entry order, the "file_id" of each entry that is a dict holding one. Nothing else changes. |
| Extractor.FileIdsMembership | math_solver.py:124-134 | When extraction succeeds, a value is among the ids exactly when some block is a code-execution tool result with these properties:<br>- its payload is a dict of type "code_execution_result";<br>- the payload's "content" list has a dict entry whose "file_id" is that value.<br>Both directions are proved. |
| Extractor.FileIdsAppend | math_solver.py:124-136 | Extracting from a split block list gives the first part's ids followed by the second part's. If an error occurs, it is the first one. Extraction never reorders ids across blocks. |
| Extractor.FileIdsFailure | math_solver.py:129-132 | Extraction fails exactly when some block is a code-execution result whose "content" is present and is `None`, a number or a boolean. |
| Extractor.BlockFileIdsOfMalformed | math_solver.py:125-133 | Each of these blocks contributes no id and raises nothing:<br>- a block of another type;<br>- a payload that is not a dict;<br>- a payload with a missing or different "type";<br>- a payload without "content", where the default is `[]`;<br>- a "content" that is a string or a dict;<br>- a "content" list none of whose entries is a dict holding "file_id". |
| Extractor.BlockFileIdsMembership | math_solver.py:125-134 | One block contributes a value exactly when one of its result entries is a dict whose "file_id" is that value. |
| Extractor.EmptyResponse | math_solver.py:122-136 | An empty `response.content` yields no file ids, no code blocks and no text. |
| Extractor.ExtractCodeBlocks | math_solver.py:160-173 | The loop returns exactly `CodeBlocks(response.content)`: the `input["code"]` of the qualifying tool uses, in order. |
| Extractor.CodeBlocksMembership | math_solver.py:164-171 | A value is extracted exactly when some block meets all of these conditions:<br>- it is a "server_tool_use";<br>- its name is "code_execution";<br>- its `input` exists, is a dict and holds "code";<br>- that "code" is the value.<br>Both directions are proved. |
| Extractor.CodeBlocksAppend | math_solver.py:164-173 | The code blocks of a split response are those of the first part followed by those of the second. |
| Extractor.GatherText | math_solver.py:184-189 | The loop returns exactly `TextContent(response.content)`: the texts of the "text" blocks, in order. |
| Extractor.TextContentMembership | math_solver.py:187-189 | A text is gathered exactly when some block is a "text" block carrying it. |
| Extractor.TextContentAppend | math_solver.py:187-189 | Gathered texts keep the order of the parts of a split response. |
| Downloader.DownloadFiles | math_solver.py:138-158 | The loop returns exactly `Downloaded(fileIds, fetch)`: one path for each successful fetch, in id order. A failed fetch is skipped. |
| Downloader.DownloadedMembership | math_solver.py:142-152 | A path is returned exactly when some id's fetch saved a file. The path is then `math_solver_output/images/` joined with that file's name. |
| Downloader.DownloadedAppend | math_solver.py:142-156 | The downloads of a split id list are those of the first part followed by those of the second. A failure in one part does not disturb the other. |
| Downloader.DownloadedCount | math_solver.py:142-158 | There are never more paths than ids. There are exactly as many when every fetch succeeds, and both directions are proved. |
| Downloader.ImagePathName | math_solver.py:149-152 | The basename of a downloaded path is the filename the metadata gave it, provided that filename holds no `/`. |
| ReportName.KeptChars | math_solver.py:192-193 | Every character of the kept characters is alphanumeric, a space, `-` or `_`. |
| ReportName.SafeQuestionLength | math_solver.py:192-195 | The sanitised question is at most 50 characters, and no longer than the question. |
| ReportName.SafeQuestionAlphabet | math_solver.py:192-195 | After the replacement, the sanitised question holds only ASCII letters and digits, `-` and `_`. |
| ReportName.StripThenReplace | math_solver.py:194-195 | This holds for any string whose only whitespace is the space:<br>- strip-then-replace cuts a run of spaces from each end;<br>- it maps each remaining character to itself, or a space to `_`;<br>- it keeps no space at either end. |
| ReportName.SafeQuestionShape | math_solver.py:192-195 | The sanitised question is the kept characters with the spaces at both ends cut off and the inner spaces turned into `_`. So it never starts or ends with an `_` that came from a space. |
| ReportName.SafeQuestionPrefixOnly | math_solver.py:192-193 | Characters after the fiftieth never change the sanitised question. |
| ReportName.ReportFilenameNoSeparator | math_solver.py:195-196 | The name `<stamp>_<sanitised>.md` contains no `/` when the stamp has none. So the report lands directly in the reports directory. |
| Text.SkipSpaceCuts | math_solver.py:194 | The front cut of `strip()` removes only whitespace, and stops at a character that is not whitespace. |
| Text.BackSpaceCuts | math_solver.py:194 | The back cut of `strip()` removes only whitespace, and stops after a character that is not whitespace. |
| Text.StripShape | math_solver.py:194 | `strip()` returns a contiguous slice of its input. Everything it cuts is whitespace, and the result neither starts nor ends with whitespace. |
| Text.NatToStringDigits | math_solver.py:224 | The decimal text of a number is all digits. It has a leading zero only for 0. |
| Text.NatToStringRoundTrip | math_solver.py:224 | Reading the decimal text of a number back gives the number. |
| Text.NatToStringInjective | math_solver.py:242 | Two numbers print the same exactly when they are equal. |
| Text.BasenameIsLastComponent | math_solver.py:230 | `Path(p).name` is the longest suffix of `p` without a `/`. It is preceded by a `/` whenever it is not the whole path. |
| Text.BasenameOfJoin | math_solver.py:149-152 | The name of `dir/name` is `name`, provided `name` holds no `/`. |
| Markdown.AppendSolution | math_solver.py:212-218 | After the loop, the document is the earlier document followed by the `## Solution` heading and then each text followed by a blank line. |
| Markdown.AppendCodeSection | math_solver.py:220-224 | After the loop, the document is the earlier document followed by the code section. The section is empty when there is no code. |
| Markdown.AppendVisualizations | math_solver.py:226-232 | After the loop, the document is the earlier document followed by the visualizations section. The section is empty when no file was downloaded. |
| Markdown.BuildMarkdown | math_solver.py:199-247 | The `+=` construction yields `Render(r)`. The sections come in a fixed order:<br>- title;<br>- problem statement;<br>- solution;<br>- optional code used;<br>- optional visualizations;<br>- report details. |
| Markdown.GenerateMarkdownReport | math_solver.py:175-253 | The report is saved at `math_solver_output/reports/<stamp>_<sanitised>.md`. Its document is the rendering of these parts of the solve result:<br>- the timestamp and question;<br>- the gathered texts;<br>- the extracted code, each printed as by an f-string;<br>- the downloaded files. |
| Markdown.SolutionTextAt | math_solver.py:216-218 | Text `i` is emitted followed by exactly a blank line. It comes after the heading and the texts before it, and before the texts after it. |
| Markdown.CodeBlockAt | math_solver.py:221-224 | Code block `i` is emitted as `### Code Block i+1` with a python fence around `codes[i]`. The blocks before it are those of `codes[..i]`, so numbering follows appearance order from 1. |
| Markdown.CodeSectionOfThree | math_solver.py:222-224 | Three code blocks render under the heading as blocks 1, 2 and 3, in order. |
| Markdown.ImageLinkAt | math_solver.py:227-232 | File `i` yields `![name](../images/name)`, where `name` is the basename of its path. The files before it yield their own links, in order. |
| Markdown.OptionalSections | math_solver.py:221-228 | The code section is empty exactly when there is no code, and otherwise opens with its heading. The same holds for the visualizations section and the downloaded files. |
| Markdown.FooterDeterminesCount | math_solver.py:235-247 | The footer's "Files created" count identifies the number: footers for the same timestamp are equal exactly when the counts are. The count itself is `len(downloaded_files)` in `Render`. |
| Markdown.RenderWithoutOptionals | math_solver.py:199-247 | With no code and no files, the document is title, problem, solution and footer, and the footer counts 0 files. |
| Markdown.EmptyResponseReport | math_solver.py:183-247 | An empty response renders only these parts:<br>- the title;<br>- the problem statement;<br>- the bare solution heading;<br>- a footer that counts no files. |
| Pipeline.ProcessResult | math_solver.py:286-295 | If extraction raises, no report is produced. Otherwise the report is the one for the files downloaded from the extracted ids. The download is skipped when there are no ids. |
| Pipeline.PartialFetch | math_solver.py:286-295 | Take three ids whose second fetch fails. The report then counts two files and links the first and the third, in that order. |
| Session.ReadCommand | math_solver.py:269-279 | A question is the stripped line. It is nonempty, with no whitespace at either end. A quit word has length 1 or 4. A line is blank exactly when it is all whitespace. |
| Session.QuitWordInAnyCase | math_solver.py:269-273 | "quit", "exit" or "q", with any of its letters in capitals and any whitespace around it, ends the session. |
| Session.QuitOnlyForQuitWords | math_solver.py:269-273 | A line that ends the session is a word between two runs of whitespace, and that word spells a quit word in some letter case. With `QuitWordInAnyCase` this is an if-and-only-if. |
| Text.StripEmpty | math_solver.py:269-275 | `strip()` gives the empty string exactly when the line is all whitespace. |
| Text.StripPadded | math_solver.py:269 | `strip()` of a word between runs of whitespace is the word, when the word neither starts nor ends with whitespace. |
| Session.ReadCommandIgnoresCase | math_solver.py:269-277 | Upper-casing the input line changes neither whether it quits the session nor whether it is blank. |
| Session.QuitInCapitals | math_solver.py:269-273 | `" QUIT "` ends the session. |
| Session.LongerWordIsAQuestion | math_solver.py:271-279 | `"quitting"` is asked as a question: only whole quit words end the session. |
| Session.SpacesAreBlank | math_solver.py:275-277 | A line of spaces asks again instead of asking a question. |

## Left out

- `MathSolver.__init__`: reading the API key from the environment, building the client and creating the output directories are configuration and I/O. The two directory paths appear as constants.
- `solve_problem`: the streaming exchange, its progress printing and `datetime.now().isoformat()` are external I/O. The model starts from its result, whose timestamp is a field.
- `run_interactive_session` and `main`: the model leaves out the input loop, the session counter, the printing, the `KeyboardInterrupt` handling and the exit codes. It covers reading one line (`Session.ReadCommand`) and handling one solve result (`Pipeline.ProcessResult`), with `if not result: continue` falling outside the latter.
- `demo_problems.py` is not part of this model. It is a static catalogue chosen from with `random.choice`.
- File retrieval and writing: `retrieve_metadata`, `download` and `write_to_file` are one fetch oracle per id that either saves a file under a name or fails at one of the three stages. A file partly written before a failure is not modelled.
- Downloader.DownloadFiles: the two progress messages (`✅ Downloaded`, `❌ Error downloading`) are not modelled. A raising print after the append would keep the path and also log an error; the model keeps the path.
- Downloader.DownloadFiles: the oracle is a function of the id, so two fetches of the same id always agree. Over the network they need not.
- Markdown.GenerateMarkdownReport: `open(...).write` is left out. The method returns the path and the document it would write, and a failing write, which would raise, is not modelled.
- `datetime.now().strftime('%Y%m%d_%H%M%S')` is the parameter `stamp`.
- ReportName.SafeQuestion: `str.isalnum` is approximated by ASCII letters and digits. Python also accepts letters and digits of other scripts.
- Session.ReadCommand: `str.lower` is modelled on ASCII letters only.
- Markdown.Display: Python's `str()` of a code value that is not a string is the parameter `strOther`.
- Content.Value: Python floats and other object types inside payloads are left out. A payload that is an SDK object rather than a dict fails `isinstance(..., dict)` in the source and is modelled by any non-dict value.
- Extractor.Entries: iterating a "content" that is a string or a dict yields strings, which are never dicts. The model therefore gives such a "content" no entries, which produces the same result.
- Text.Basename and Downloader.ImagePath: pathlib's normalisation of a joined path is not modelled. That covers repeated or trailing `/`, `.` components, an empty name, and an absolute name, for which pathlib's join drops the images directory (`Path(d) / "/tmp/a.png"` is `/tmp/a.png`) while `ImagePath` keeps it. A name of `.` is joined by pathlib to the images directory itself, whose name is `images`, while the model gives `math_solver_output/images/.` with name `.`; in the source such a fetch fails at the write. The two agree with pathlib when the metadata filename is a nonempty name without `/` other than `.`.
