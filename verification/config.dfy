/**
 The fixed configuration of the alignment pipeline: directory and file names,
 the model size applied to every stage, and the language passed to Stage A.
 Paths the source builds with `os.path.join` from these names are written out
 as the POSIX join produces them.
 */
module Config {
  import opened PosixPath

  /** Working and output directory; created when missing. */
  const OutputDir: string := "subtitles_output"

  /** Model size tier given to both stages. */
  const ModelSize: string := "small"

  /** Name of the reference lyrics file inside `OutputDir`. */
  const LyricsFileName: string := "ifonly.txt"

  /** Directory of the Stage A tool (WhisperHallu). */
  const HalluDir: string := "WhisperHallu"

  /** Directory of the Stage B tool (WhisperTimeSync). */
  const SyncDir: string := "WhisperTimeSync"

  /** The interpreter of Stage B's own virtual environment,
      `SyncDir` joined with `venv`, `bin` and `python`. */
  const SyncVenvPython: string := "WhisperTimeSync/venv/bin/python"

  /** Language code passed to Stage A. */
  const Language: string := "en"

  /** The Stage A entry script, `HalluDir` joined with `transcribeHallu.py`. */
  const HalluScript: string := "WhisperHallu/transcribeHallu.py"

  /** The Stage B entry script, `SyncDir` joined with `transcribe.py`. */
  const SyncScript: string := "WhisperTimeSync/transcribe.py"

  /** The well-known path of the reference lyrics file, `OutputDir` joined
      with `LyricsFileName`. */
  const LyricsPath: string := "subtitles_output/ifonly.txt"

  /** Stage B's interpreter path is `SyncDir` joined with `venv`, `bin` and
      `python`, as the three-part join folds it. */
  lemma SyncVenvPythonJoined()
    ensures SyncVenvPython == Join(Join(Join(SyncDir, "venv"), "bin"), "python")
  {
    var venv := Join(SyncDir, "venv");
    assert venv == "WhisperTimeSync/venv" by {
      JoinRelative(SyncDir, "venv");
    }
    var bin := Join(venv, "bin");
    assert bin == "WhisperTimeSync/venv/bin" by {
      JoinRelative(venv, "bin");
    }
    assert Join(bin, "python") == SyncVenvPython by {
      JoinRelative(bin, "python");
    }
  }

  /** Stage A's entry script is `HalluDir` joined with its file name. */
  lemma HalluScriptJoined()
    ensures HalluScript == Join(HalluDir, "transcribeHallu.py")
  {
    JoinRelative(HalluDir, "transcribeHallu.py");
  }

  /** Stage B's entry script is `SyncDir` joined with its file name. */
  lemma SyncScriptJoined()
    ensures SyncScript == Join(SyncDir, "transcribe.py")
  {
    JoinRelative(SyncDir, "transcribe.py");
  }

  /** The lyrics file lies in the output directory. */
  lemma LyricsPathJoined()
    ensures LyricsPath == Join(OutputDir, LyricsFileName)
  {
    JoinRelative(OutputDir, LyricsFileName);
  }
}
