# Youtube-Auto-SRT-Generator: the orchestration core in Dafny

The program asks for a YouTube link, downloads the video's audio track, checks
that a reference lyrics file exists, and then runs two external tools one after
the other. Stage A is WhisperHallu, which builds a word-level timing scaffold.
Stage B is WhisperTimeSync, which aligns the lyrics with the audio. At the end
the program reports where the aligned subtitle file lies. When the run ends, it
deletes the downloaded audio if the download returned a path and the file is
still there.

This project models that orchestration, found in `main.py`:

- the title sanitiser `clean_filename`;
- the names derived from the audio file and the title;
- the two command lines handed to the external stages;
- `run_alignment_process` and `main`, with their exception handling.

The modules are:

- `PyStr` (`pystr.dfy`): Python's `str.strip()`, with the exact set of
  characters for which `str.isspace()` holds.
- `PosixPath` (`posixpath.dfy`): the POSIX `os.path.join` of two components,
  `os.path.basename`, and the root half of `os.path.splitext`.
- `Filename` (`filename.dfy`): `clean_filename`. It deletes the nine
  characters `\ / : * ? " < > |`, strips the result, and keeps its first 100
  characters.
- `Config` (`config.dfy`): the configuration constants. Paths the source joins
  from constants are written out, and one lemma per path ties it to
  `PosixPath.Join`.
- `Commands` (`commands.dfy`): the derived names. These are the audio stem,
  the final subtitle path and the unused timing-scaffold path. The module also
  holds the argument vectors of Stage A and Stage B. Stage A's options are
  read the way an argparse-style reader would read them.
- `Pipeline` (`pipeline.dfy`): `main` and `run_alignment_process` as pure
  functions of a `World`.
  - The `World` gives the input line and the download's outcome. It also
    answers every file-existence check and says how each stage ends.
  - A run produces a trace of `Event`s, a final `Report` and an exit status.
  - Python's control flow is written out as a `Flow`: a block either finishes
    normally, raises an exception that `except Exception` catches, or calls
    `sys.exit`, whose `SystemExit` that clause does not catch. The `finally`
    clause is applied after the block in every case.
- `PipelineFacts` (`pipeline_facts.dfy`): a flat reference description of a
  run, written as a decision table in program order. The module proves that
  the nested model agrees with it on every input, then derives the pipeline's
  properties.

Stage B gets only the audio file, the lyrics file and the model size
(`main.py:102-108`). The scaffold path computed at `main.py:68` is never used.
It is modelled as `Commands.HalluTimingPath` and appears in no event.

## Model

| member | source | states |
|---|---|---|
| PyStr.IsSpace | main.py:27 | exactly the characters for which Python's `str.isspace()` holds: TAB to CR, FS to US, SPACE, NEL, NO-BREAK SPACE, OGHAM SPACE MARK, U+2000 to U+200A, the line and paragraph separators, U+202F, U+205F and U+3000 |
| PyStr.Strip | main.py:27 | the stripped string is the slice of the input after its leading whitespace; only whitespace follows it; it neither starts nor ends with whitespace |
| PyStr.StripUnique | main.py:27 | any slice with only whitespace outside it and no whitespace at its ends is the stripped string, so the contract of `Strip` fixes it completely |
| PyStr.StripIdempotent | main.py:27 | stripping twice is stripping once |
| PyStr.StripEmptyIff | main.py:130-132 | the input line strips to the empty URL exactly when every character is whitespace |
| PyStr.StripNoop | main.py:27 | a string with no whitespace at either end strips to itself |
| PosixPath.Join | main.py:63 | an absolute second part replaces the first; otherwise the result starts with the first part and ends with the second, with exactly one added separator between them when the first part is non-empty and does not already end with one, and nothing added otherwise |
| PosixPath.JoinRelative | main.py:63 | a relative name joined to a directory that does not end with `/` gives directory, one `/`, name |
| PosixPath.Basename | main.py:59 | the result is the longest separator-free suffix of the path |
| PosixPath.BasenameOfJoin | main.py:59 | the basename of a separator-free name joined to a directory is that name |
| Config.SyncVenvPythonJoined | main.py:13 | Stage B's interpreter path is the folded POSIX join of `WhisperTimeSync`, `venv`, `bin` and `python` |
| Config.HalluScriptJoined | main.py:76 | Stage A's entry script is `WhisperHallu` joined with `transcribeHallu.py` |
| Config.SyncScriptJoined | main.py:104 | Stage B's entry script is `WhisperTimeSync` joined with `transcribe.py` |
| Config.LyricsPathJoined | main.py:149 | the lyrics path is the output directory joined with `ifonly.txt` |
| PosixPath.SplitExtRoot | main.py:59 | the root is a prefix of the path; when it is shorter, a dot follows it; no dot or separator occurs after that dot; the part of the last component before the dot is not dots only |
| PosixPath.SplitExtRootOfName | main.py:59 | `stem.ext` with a dot-free, separator-free extension splits back to `stem`, unless the stem is dots only |
| Filename.RemoveForbidden | main.py:26 | the result is no longer than the input and holds no forbidden character; an input without forbidden characters is unchanged |
| Filename.RemoveForbiddenKeepsAllowed | main.py:26 | every allowed character is kept, as many times as it occurs |
| Filename.RemoveForbiddenConcat | main.py:26 | deleting characters distributes over concatenation, so the kept characters stay in input order |
| Filename.CleanFilename | main.py:25-27 | the result is at most 100 characters long, holds no forbidden character and does not start with whitespace; it is a prefix of the filtered and stripped title, and equals it exactly when that title has at most 100 characters |
| Filename.CleanFilenameKeepsCharacters | main.py:25-27 | sanitising never adds a character: the result's multiset of characters is contained in the title's |
| Filename.CleanFilenameTwice | main.py:25-27 | sanitising a sanitised name only strips it, and the result is a prefix of the first result |
| Filename.CleanFilenameIdempotentIff | main.py:25-27 | sanitising is idempotent on a title exactly when the filtered, stripped title has at most 100 characters or its 100th character is not whitespace |
| Filename.CleanFilenameNotIdempotent | main.py:27 | for 99 letters, a space and a letter, the first pass keeps a trailing space and the second pass removes it |
| Commands.AudioStem | main.py:59 | the stem is a prefix of the audio file's basename and holds no separator |
| Commands.AudioStemOfDownload | main.py:40-43 | for the stored file `<dir>/<title>.<subtype>`, the stem is the title, unless the title is dots only |
| Commands.FinalSrtPath | main.py:62-63 | for a separator-free title the path is `subtitles_output/<title>_aligned.srt` |
| Commands.FinalSrtPathBasename | main.py:62-63 | for a separator-free title the final file's basename is `<title>_aligned.srt` |
| Commands.FinalSrtPathOfVideo | main.py:34 | for every sanitised title the final path is `subtitles_output/<title>_aligned.srt` |
| Commands.TimingFileOf | main.py:68 | for a separator-free stem the scaffold is `subtitles_output/<stem>_hallu_timing.srt`, named `<stem>_hallu_timing.srt` |
| Commands.OutputFileOf | main.py:63 | a separator-free name joined onto the output directory is `subtitles_output/<name>`, and its basename is the name |
| Commands.HalluTimingPath | main.py:68 | the scaffold path is `subtitles_output/<stem>_hallu_timing.srt`, with the audio stem |
| Commands.HalluCommand | main.py:74-81 | ten words: the interpreter, `WhisperHallu/transcribeHallu.py`, then the flags `--input --output --model --language` in order, with the values audio file, `subtitles_output`, `small` and `en` |
| Commands.SyncCommand | main.py:102-108 | five words: the tool's virtual-environment interpreter, `WhisperTimeSync/transcribe.py`, audio file, lyrics file, `small` |
| Pipeline.RunStageB | main.py:96-119 | Stage B is launched once; exit status 0 reports the final path; a non-zero exit reports its error text; any other exception is left uncaught and carries its own message |
| Pipeline.RunAlignment | main.py:52-122 | Stage A is always launched first; Stage B is launched exactly when Stage A exits with status 0; the final path is reported exactly when both succeed; a non-zero exit of Stage A reports its error text; any other exception from Stage A is left uncaught with its own message; the function never exits the process |
| Pipeline.AfterDownload | main.py:145-164 | after the download, the block launches nothing more than the stages, in order, ends without `sys.exit`, and keeps the downloaded path for cleanup; without the lyrics file the download is the only event and the block ends normally, reporting the missing lyrics path |
| Pipeline.TryBlock | main.py:140-164 | the block starts with the download; a failed download exits with status 1 before `audio_file_path` is set; otherwise the variable holds the downloaded path |
| Pipeline.Handle | main.py:166-167 | `SystemExit` passes the clause with its report and status; a normal end keeps its report and any other exception is reported as a crash with its message, both with exit status 0 |
| Pipeline.VideoTitle | main.py:34 | the title `main` receives is at most 100 characters long, holds no forbidden character and no separator, and is the prefix of the filtered, stripped site title of length min(its length, 100), which is `clean_filename` of the site title; after a failed download it is empty |
| Pipeline.Finally | main.py:169-172 | the audio is removed exactly when `audio_file_path` is non-empty and the file exists |
| Pipeline.Conclude | main.py:136-172 | around any attempt of the block, events stay in order; the exit status is 1 exactly for a download error; the removal happens, as the last event, exactly when the download gave a non-empty path that still exists |
| Pipeline.RunWithUrl | main.py:136-172 | the same for the whole run after a non-blank URL |
| Pipeline.RunPipeline | main.py:128-172 | events are in program order; a blank input line produces no event and the empty-URL report; exit status 1 exactly after a download error; the audio is removed, last, exactly when the URL was not blank, the download gave a non-empty path, and the file still exists |
| PipelineFacts.TryBlockMatchesReference | main.py:140-164 | the `try` block produces the download followed by the reference's stage launches, and its handled outcome is the reference's report and exit status |
| PipelineFacts.RunWithUrlMatchesReference | main.py:136-172 | after a non-blank URL the nested model equals the reference run |
| PipelineFacts.RunPipelineMatchesReference | main.py:128-172 | on every input the nested model of `main` equals the flat reference run |
| PipelineFacts.DownloadFailureExits | main.py:48-50 | a failed download reports the error and exits with status 1 right after the download attempt; no stage is launched and nothing is removed |
| PipelineFacts.LyricsMissingSkipsStages | main.py:149-157 | without the lyrics file no stage is launched, the missing path is reported, the exit status is 0, and the audio is still removed when it exists |
| PipelineFacts.StageALaunch | main.py:150-164 | Stage A is launched exactly when the URL is not blank, the download succeeded and the lyrics file exists, and only with the command for the downloaded file |
| PipelineFacts.StageBLaunch | main.py:87-110 | Stage B is launched exactly when, in addition, Stage A exited with status 0, and only with the downloaded file and the lyrics file |
| PipelineFacts.StagesShareAudioAndModel | main.py:74-108 | in every run both stages get the same audio file and the same model size |
| PipelineFacts.LaunchesAgree | main.py:74-108 | Stage A's `--input` and `--model` values are Stage B's first and third positional arguments, for commands built for one audio file |
| PipelineFacts.StageAFailureSkipsStageB | main.py:87-90 | a non-zero exit of Stage A is reported with its error text, Stage B is never launched, and the exit status is 0 |
| PipelineFacts.StageBFailureReported | main.py:114-119 | a non-zero exit of Stage B is reported with its error text, and the exit status is 0 |
| PipelineFacts.UnexpectedExceptionCaught | main.py:166-167 | any other exception from a stage is reported as a crash with its message; the exit status is 0; cleanup happens as usual |
| PipelineFacts.AlignedIff | main.py:121-122 | the final subtitle path is reported exactly when the URL is not blank, the download succeeded, the lyrics file exists and both stages exit with status 0 |
| PipelineFacts.AlignedPath | main.py:62-63 | the reported path is `subtitles_output/<clean_filename(title)>_aligned.srt` |

## Left out

- Downloading (`download_audio`, `main.py:30-50`) is not modelled. This covers the YouTube client, stream selection and the "no audio stream" error. The `World` supplies the outcome: the stored path and the site's title, or an error message. The model applies `clean_filename` to that title (`main.py:34`). `AudioStemOfDownload` covers the stored file's name pattern.
- A download or stage that never returns is not modelled. `main.py` sets no timeout, neither on the download nor on `subprocess.run` (`main.py:84`, `main.py:110`), so such a run blocks before its `finally` clause. Every property here is about runs that end.
- Running the external stages is not modelled. Each stage's ending is an input: exit status 0, a non-zero status with its error text, or another exception such as a missing interpreter.
- Printed messages, their wording and the `MODEL_RAM_INFO` table are not modelled. Only the information they carry appears, as the `Report`.
- Each file-system query is a boolean the `World` answers once: the output directory, the lyrics file, and the audio file at cleanup time.
- Failures outside the `try` block (`input()`, `os.makedirs`) and a failing `os.remove` in `finally` are not modelled.
- `KeyboardInterrupt` and other `BaseException`s apart from `SystemExit` are not modelled.
- Paths follow POSIX rules only. The source builds `venv/bin/python`, which is a POSIX layout.
- Python strings may hold lone surrogate code points. Dafny's `char` cannot, so such titles are not modelled.
- `sys.executable` is the `World`'s `interpreter` string.
- `Commands.OptionValue` abstracts the external script's command-line parser. It gives the value after the last occurrence of a flag.
- `PosixPath.Join` takes two components. The source's multi-part join of `venv/bin/python` is the left fold of two-part joins, which is what `posixpath.join` computes; `Config.SyncVenvPythonJoined` states it.

