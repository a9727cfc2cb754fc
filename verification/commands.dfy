/**
 The names and argument vectors `run_alignment_process` derives from its
 inputs before it launches the two external stages.
 */
module Commands {
  import opened PosixPath
  import opened Config
  import Filename

  datatype Option<T> = None | Some(value: T)

  /** Suffix of the final subtitle file's name. */
  const AlignedSuffix: string := "_aligned.srt"

  /** Suffix of the timing scaffold's name. */
  const TimingSuffix: string := "_hallu_timing.srt"

  /** The audio file's name without directory and without extension. */
  function AudioStem(audioPath: string): (r: string)
    ensures r <= Basename(audioPath)
    ensures Sep !in r
  {
    SplitExtRoot(Basename(audioPath))
  }

  /** Where the final subtitle file is reported: `<title>_aligned.srt` inside
      the output directory, for any title without a separator (the titles the
      download step produces have none). */
  function FinalSrtPath(title: string): (r: string)
    ensures Sep !in title ==> r == OutputDir + [Sep] + title + AlignedSuffix
  {
    Join(OutputDir, title + AlignedSuffix)
  }

  /** For a title without a separator, the final subtitle file is named
      `<title>_aligned.srt`. */
  lemma FinalSrtPathBasename(title: string)
    requires Sep !in title
    ensures Basename(FinalSrtPath(title)) == title + AlignedSuffix
  {
    BasenameOfJoin(OutputDir, title + AlignedSuffix);
  }

  /** The timing scaffold's path: the audio file's stem followed by
      `_hallu_timing.srt`, inside the output directory. */
  function HalluTimingPath(audioPath: string): (r: string)
    ensures r == OutputDir + [Sep] + AudioStem(audioPath) + TimingSuffix
    ensures Basename(r) == AudioStem(audioPath) + TimingSuffix
  {
    var stem := AudioStem(audioPath);
    TimingFileOf(stem);
    Join(OutputDir, stem + TimingSuffix)
  }

  /** The scaffold of a separator-free stem lies directly in the output
      directory and is named after the stem. */
  lemma TimingFileOf(stem: string)
    requires Sep !in stem
    ensures Join(OutputDir, stem + TimingSuffix) == OutputDir + [Sep] + stem + TimingSuffix
    ensures Basename(Join(OutputDir, stem + TimingSuffix)) == stem + TimingSuffix
  {
    var name := stem + TimingSuffix;
    assert Sep !in name;
    OutputFileOf(name);
    assert OutputDir + [Sep] + name == OutputDir + [Sep] + stem + TimingSuffix;
  }

  /** A separator-free name joined onto the output directory is that
      directory, one separator and the name, and its basename is the name. */
  lemma OutputFileOf(name: string)
    requires Sep !in name
    ensures Join(OutputDir, name) == OutputDir + [Sep] + name
    ensures Basename(Join(OutputDir, name)) == name
  {
    JoinRelative(OutputDir, name);
    BasenameOfJoin(OutputDir, name);
  }

  /** True for a command-line flag of the `--name` form. */
  predicate IsFlag(s: string) {
    |s| >= 2 && s[..2] == "--"
  }

  /** True when `args` is a sequence of `--flag value` pairs. */
  predicate IsOptionList(args: seq<string>) {
    |args| == 0 || (|args| >= 2 && IsFlag(args[0]) && IsOptionList(args[2..]))
  }

  /** The flags of an option list, in order. */
  function Flags(args: seq<string>): seq<string>
    requires IsOptionList(args)
  {
    if |args| == 0 then [] else [args[0]] + Flags(args[2..])
  }

  /** The value an option list gives `flag`: the value after its last
      occurrence in a flag position, as argparse's default store action keeps
      it; `None` when the flag does not occur. */
  function OptionValue(args: seq<string>, flag: string): Option<string>
    requires IsOptionList(args)
  {
    if |args| == 0 then None
    else
      match OptionValue(args[2..], flag)
      case Some(v) => Some(v)
      case None => if args[0] == flag then Some(args[1]) else None
  }

  /** How the option readers see a list that starts with one more pair. */
  lemma OptionPair(flag: string, value: string, rest: seq<string>)
    requires IsFlag(flag) && IsOptionList(rest)
    ensures IsOptionList([flag, value] + rest)
    ensures Flags([flag, value] + rest) == [flag] + Flags(rest)
    ensures forall f :: OptionValue([flag, value] + rest, f)
                        == if OptionValue(rest, f).Some? then OptionValue(rest, f)
                           else if f == flag then Some(value) else None
  {
    assert ([flag, value] + rest)[2..] == rest;
  }

  /** The Stage A (WhisperHallu) command: the running interpreter, the
      `transcribeHallu.py` script, then four options, the audio file as
      `--input`, the output directory as `--output`, the model size as
      `--model` and English as `--language`. */
  function HalluCommand(interpreter: string, audioPath: string): (argv: seq<string>)
    ensures |argv| == 10
    ensures argv[0] == interpreter && argv[1] == "WhisperHallu/transcribeHallu.py"
    ensures IsOptionList(argv[2..])
    ensures Flags(argv[2..]) == ["--input", "--output", "--model", "--language"]
    ensures OptionValue(argv[2..], "--input") == Some(audioPath)
    ensures OptionValue(argv[2..], "--output") == Some("subtitles_output")
    ensures OptionValue(argv[2..], "--model") == Some("small")
    ensures OptionValue(argv[2..], "--language") == Some("en")
  {
    var language := ["--language", Language];
    OptionPair("--language", Language, []);
    assert language == ["--language", Language] + [];
    var model := ["--model", ModelSize] + language;
    OptionPair("--model", ModelSize, language);
    var output := ["--output", OutputDir] + model;
    OptionPair("--output", OutputDir, model);
    var options := ["--input", audioPath] + output;
    OptionPair("--input", audioPath, output);
    var argv := [interpreter, HalluScript] + options;
    assert argv[2..] == options;
    argv
  }

  /** The Stage B (WhisperTimeSync) command: the tool's own virtual-environment
      interpreter, its `transcribe.py`, then three positional arguments, the
      audio file, the reference lyrics file and the model size. */
  function SyncCommand(audioPath: string, lyricsPath: string): (argv: seq<string>)
    ensures argv == ["WhisperTimeSync/venv/bin/python", "WhisperTimeSync/transcribe.py",
                     audioPath, lyricsPath, "small"]
  {
    [SyncVenvPython, SyncScript, audioPath, lyricsPath, ModelSize]
  }

  /** For the file the download step stores, `<dir>/<title>.<subtype>` with a
      separator-free title and subtype, the audio stem is the title, except that
      a title of dots only (the empty title included) does not count as a stem,
      so then the whole file name is the stem. */
  lemma AudioStemOfDownload(dir: string, title: string, subtype: string)
    requires Sep !in title
    requires Sep !in subtype && ExtSep !in subtype
    ensures AudioStem(Join(dir, title + [ExtSep] + subtype))
            == if AllDots(title) then title + [ExtSep] + subtype else title
  {
    var name := title + [ExtSep] + subtype;
    assert Sep !in name;
    BasenameOfJoin(dir, name);
    SplitExtRootOfName(title, subtype);
  }

  /** The reported subtitle path for a downloaded video is fixed by its
      sanitised title. */
  lemma FinalSrtPathOfVideo(rawTitle: string)
    ensures var title := Filename.CleanFilename(rawTitle);
            FinalSrtPath(title) == OutputDir + [Sep] + title + AlignedSuffix
  {
    var title := Filename.CleanFilename(rawTitle);
    assert Sep in Filename.ForbiddenChars;
    assert Sep !in title;
  }
}
