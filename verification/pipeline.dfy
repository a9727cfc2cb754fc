/**
 The orchestration of one run: read a URL, download its audio, check for the
 reference lyrics, run Stage A (WhisperHallu) and Stage B (WhisperTimeSync),
 report, and remove the downloaded audio on the way out.

 Everything the run does to the world outside (the download, the file-system
 checks, the two external processes) is an input of the model, and what it
 does to the world is a trace of events. Python's exception handling is
 written out: a `Flow` says how a block of code ended, and `RunPipeline`
 applies the `except Exception` clause and the `finally` clause of `main`.
 */
module Pipeline {
  import opened PyStr
  import opened Config
  import opened Commands
  import Filename
  import PosixPath

  /** What the download step returns: the stored audio file and the video's
      title as the site gives it, or the error that made it give up. */
  datatype DownloadOutcome =
    | Downloaded(path: string, rawTitle: string)
    | DownloadFailed(message: string)

  /** How an external stage ends: exit status 0; a non-zero exit status with
      the captured error stream; or any other exception while launching it,
      such as a missing interpreter. */
  datatype StageOutcome =
    | StageOk
    | ProcessError(stderr: string)
    | OtherException(message: string)

  /** The inputs of one run: the line the user typed, and the answers the
      world gives to each question the run asks of it. */
  datatype World = World(
    input: string,
    outputDirExists: bool,
    download: DownloadOutcome,
    lyricsExists: bool,
    interpreter: string,
    stageA: StageOutcome,
    stageB: StageOutcome,
    audioExistsAtCleanup: bool)

  /** The effects of a run on the world outside. */
  datatype Event =
    | CreateOutputDir(dir: string)
    | Download(url: string, dir: string)
    | InvokeStageA(argv: seq<string>)
    | InvokeStageB(argv: seq<string>)
    | RemoveAudio(path: string)

  /** What a run tells the user at its end. */
  datatype Report =
    | EmptyUrl
    | DownloadError(message: string)
    | LyricsMissing(lyricsPath: string)
    | StageAFailed(stderr: string)
    | StageBFailed(stderr: string)
    | Crashed(message: string)
    | Aligned(srtPath: string)

  /** A whole run: its events in order, its final report and the process's
      exit status. */
  datatype RunResult = RunResult(trace: seq<Event>, report: Report, exitStatus: int)

  /** How a block of Python code ends: normally with a report, by an
      exception that `except Exception` catches, or by `sys.exit`, whose
      `SystemExit` that clause does not catch. */
  datatype Flow =
    | Finished(report: Report)
    | Raised(message: string)
    | Exited(report: Report, status: int)

  /** The events of `run_alignment_process` and how it ended. */
  datatype Segment = Segment(events: seq<Event>, flow: Flow)

  /** The events of the `try` block of `main`, the value of
      `audio_file_path` when the block was left, and how it was left. */
  datatype Attempt = Attempt(events: seq<Event>, audioFilePath: string, flow: Flow)

  /** The position of each kind of event in the fixed order of a run. */
  function Rank(e: Event): nat {
    match e
    case CreateOutputDir(_) => 0
    case Download(_, _) => 1
    case InvokeStageA(_) => 2
    case InvokeStageB(_) => 3
    case RemoveAudio(_) => 4
  }

  /** Events strictly in the order of their ranks: every kind of event occurs
      at most once and never before an event of a lower rank. */
  predicate Ordered(trace: seq<Event>) {
    forall i, j :: 0 <= i < j < |trace| ==> Rank(trace[i]) < Rank(trace[j])
  }

  /** True when the trace holds an event of rank `k`. */
  predicate Occurs(trace: seq<Event>, k: nat) {
    exists e :: e in trace && Rank(e) == k
  }

  /** True when the trace launches Stage A. */
  predicate LaunchesStageA(trace: seq<Event>) {
    Occurs(trace, 2)
  }

  /** True when the trace launches Stage B. */
  predicate LaunchesStageB(trace: seq<Event>) {
    Occurs(trace, 3)
  }

  /** True when the trace removes the downloaded audio file. */
  predicate RemovesAudio(trace: seq<Event>) {
    Occurs(trace, 4)
  }

  /** An event kind occurs in a concatenation exactly when it occurs in one
      of the parts. */
  lemma OccursConcat(x: seq<Event>, y: seq<Event>, k: nat)
    ensures Occurs(x + y, k) <==> Occurs(x, k) || Occurs(y, k)
  {
    if Occurs(x + y, k) {
      var e :| e in x + y && Rank(e) == k;
      assert e in x || e in y;
    }
    if Occurs(x, k) {
      var e :| e in x && Rank(e) == k;
      assert e in x + y;
    }
    if Occurs(y, k) {
      var e :| e in y && Rank(e) == k;
      assert e in x + y;
    }
  }

  /** A one-event trace holds exactly the kind of its event. */
  lemma OccursSingle(e: Event, k: nat)
    ensures Occurs([e], k) <==> Rank(e) == k
  {
    assert e in [e];
  }

  /** Two ordered traces concatenate into an ordered trace when the last
      event of the first ranks below the first event of the second. */
  lemma OrderedConcat(x: seq<Event>, y: seq<Event>)
    requires Ordered(x) && Ordered(y)
    requires x == [] || y == [] || Rank(x[|x| - 1]) < Rank(y[0])
    ensures Ordered(x + y)
  {
    forall i, j | 0 <= i < j < |x + y| ensures Rank((x + y)[i]) < Rank((x + y)[j]) {
      if j < |x| {
        assert (x + y)[i] == x[i] && (x + y)[j] == x[j];
      } else if i < |x| {
        assert (x + y)[i] == x[i] && (x + y)[j] == y[j - |x|];
        assert Rank(x[i]) <= Rank(x[|x| - 1]);
        assert Rank(y[0]) <= Rank(y[j - |x|]);
      } else {
        assert (x + y)[i] == y[i - |x|] && (x + y)[j] == y[j - |x|];
      }
    }
  }

  /** In an ordered trace no event ranks above the last one. */
  lemma OrderedBelowLast(t: seq<Event>, i: nat)
    requires Ordered(t) && i < |t|
    ensures Rank(t[i]) <= Rank(t[|t| - 1])
  {
  }

  /** The second `try` block of `run_alignment_process`: launch Stage B with
      the audio file, the lyrics file and the model size. Exit status 0 leads
      to the report of the final subtitle path; a non-zero status ends the
      function with the stage's error text; any other exception is left
      unhandled. */
  function RunStageB(audioPath: string, lyricsPath: string, title: string, stageB: StageOutcome): (s: Segment)
    ensures s.events == [InvokeStageB(SyncCommand(audioPath, lyricsPath))]
    ensures s.flow == Finished(Aligned(FinalSrtPath(title))) <==> stageB.StageOk?
    ensures stageB.ProcessError? ==> s.flow == Finished(StageBFailed(stageB.stderr))
    ensures s.flow.Raised? <==> stageB.OtherException?
    ensures stageB.OtherException? ==> s.flow == Raised(stageB.message)
    ensures !s.flow.Exited?
  {
    var invokeB := [InvokeStageB(SyncCommand(audioPath, lyricsPath))];
    match stageB
    case ProcessError(err) => Segment(invokeB, Finished(StageBFailed(err)))
    case OtherException(msg) => Segment(invokeB, Raised(msg))
    case StageOk => Segment(invokeB, Finished(Aligned(FinalSrtPath(title))))
  }

  /** `run_alignment_process`. Stage A is always launched, with the audio
      file; Stage B only when Stage A exited with status 0. A non-zero exit of
      Stage A ends the function with that stage's error text before Stage B;
      any other exception leaves it unhandled; when both stages succeed the
      final subtitle path is reported. The function never exits the
      process. */
  function RunAlignment(audioPath: string, lyricsPath: string, title: string,
                        interpreter: string, stageA: StageOutcome, stageB: StageOutcome): (s: Segment)
    ensures 1 <= |s.events| <= 2 && Ordered(s.events)
    ensures Rank(s.events[|s.events| - 1]) <= 3
    ensures s.events[0] == InvokeStageA(HalluCommand(interpreter, audioPath))
    ensures |s.events| == 2 <==> stageA.StageOk?
    ensures |s.events| == 2 ==> s.events[1] == InvokeStageB(SyncCommand(audioPath, lyricsPath))
    ensures !s.flow.Exited?
    ensures s.flow == Finished(Aligned(FinalSrtPath(title))) <==> stageA.StageOk? && stageB.StageOk?
    ensures stageA.ProcessError? ==> s.flow == Finished(StageAFailed(stageA.stderr))
    ensures stageA.StageOk? ==> s.flow == RunStageB(audioPath, lyricsPath, title, stageB).flow
    ensures s.flow.Raised? <==> stageA.OtherException? || (stageA.StageOk? && stageB.OtherException?)
    ensures stageA.OtherException? ==> s.flow == Raised(stageA.message)
    ensures s.flow.Finished? ==> s.flow.report.StageAFailed? || s.flow.report.StageBFailed? || s.flow.report.Aligned?
  {
    var invokeA := InvokeStageA(HalluCommand(interpreter, audioPath));
    match stageA
    case ProcessError(err) => Segment([invokeA], Finished(StageAFailed(err)))
    case OtherException(msg) => Segment([invokeA], Raised(msg))
    case StageOk =>
      var b := RunStageB(audioPath, lyricsPath, title, stageB);
      assert [invokeA] + b.events == [invokeA, b.events[0]];
      Segment([invokeA] + b.events, b.flow)
  }

  /** The `try` block of `main` after a successful download: a missing lyrics
      file ends the block normally; otherwise the title is sanitised and the
      block ends as `run_alignment_process` does. */
  function AfterDownload(url: string, path: string, title: string, w: World): (a: Attempt)
    ensures 1 <= |a.events| <= 3 && Ordered(a.events)
    ensures a.events[0] == Download(url, OutputDir)
    ensures Rank(a.events[|a.events| - 1]) <= 3
    ensures !a.flow.Exited?
    ensures a.flow.Finished? ==> !a.flow.report.EmptyUrl? && !a.flow.report.DownloadError?
    ensures a.audioFilePath == path
    ensures !w.lyricsExists
            ==> a.events == [Download(url, OutputDir)] && a.flow == Finished(LyricsMissing(LyricsPath))
  {
    var fetch := [Download(url, OutputDir)];
    if !w.lyricsExists then
      Attempt(fetch, path, Finished(LyricsMissing(LyricsPath)))
    else
      var s := RunAlignment(path, LyricsPath, title, w.interpreter, w.stageA, w.stageB);
      OrderedConcat(fetch, s.events);
      var events := fetch + s.events;
      assert events[0] == fetch[0];
      assert events[|events| - 1] == s.events[|s.events| - 1];
      Attempt(events, path, s.flow)
  }

  /** The `try` block of `main`: download, check for the lyrics file, align.
      A failed download ends the process with status 1 before
      `audio_file_path` is set; after a successful download the variable holds
      the stored file's path. */
  function TryBlock(url: string, title: string, w: World): (a: Attempt)
    ensures IsAttemptOf(a, url, w)
  {
    match w.download
    case DownloadFailed(msg) => Attempt([Download(url, OutputDir)], "", Exited(DownloadError(msg), 1))
    case Downloaded(path, _) => AfterDownload(url, path, title, w)
  }

  /** The `except Exception` clause of `main`: an exception is reported and
      swallowed, so the process ends with status 0; `sys.exit` passes through
      with its own status. */
  function Handle(flow: Flow): (r: (Report, int))
    ensures flow.Exited? ==> r == (flow.report, flow.status)
    ensures !flow.Exited? ==> r.1 == 0
    ensures flow.Finished? ==> r.0 == flow.report
    ensures flow.Raised? ==> r.0 == Crashed(flow.message)
  {
    match flow
    case Finished(report) => (report, 0)
    case Raised(message) => (Crashed(message), 0)
    case Exited(report, status) => (report, status)
  }

  /** The `finally` clause of `main`: remove the audio file when
      `audio_file_path` is non-empty and the file exists. */
  function Finally(audioFilePath: string, audioExists: bool): (cleanup: seq<Event>)
    ensures Ordered(cleanup)
    ensures cleanup != [] <==> audioFilePath != "" && audioExists
    ensures cleanup != [] ==> cleanup == [RemoveAudio(audioFilePath)]
  {
    if audioFilePath != "" && audioExists then [RemoveAudio(audioFilePath)] else []
  }

  /** The title `main` receives from the download step: the site's title as
      `clean_filename` sanitises it (empty when the download failed, where no
      title is ever read). */
  function VideoTitle(d: DownloadOutcome): (r: string)
    ensures d.DownloadFailed? ==> r == ""
    ensures |r| <= Filename.MaxNameLength && Filename.NoForbidden(r) && PosixPath.Sep !in r
    ensures d.Downloaded? ==> r <= Strip(Filename.RemoveForbidden(d.rawTitle))
    ensures d.Downloaded? ==>
              var t := Strip(Filename.RemoveForbidden(d.rawTitle));
              |r| == if |t| <= Filename.MaxNameLength then |t| else Filename.MaxNameLength
  {
    if d.Downloaded? then Filename.CleanFilename(d.rawTitle) else ""
  }

  /** True when the `finally` clause of `main` removes the audio file: the URL
      was not blank, the download returned a non-empty path, and that file
      still exists when the run ends. */
  predicate CleanupApplies(w: World) {
    !AllSpace(w.input) && RemovalDue(w.download, w.audioExistsAtCleanup)
  }

  /** True when the `finally` clause finds `audio_file_path` set to a
      non-empty path and the file still there: the download succeeded with a
      non-empty path, and the file exists when the run ends. */
  predicate RemovalDue(d: DownloadOutcome, audioExists: bool) {
    d.Downloaded? && d.path != "" && audioExists
  }

  /** An ordered trace followed by at most one removal, which outranks all
      its events, is ordered, and has a removal exactly when one was
      appended. */
  lemma AppendCleanup(body: seq<Event>, cleanup: seq<Event>)
    requires Ordered(body) && body != [] && Rank(body[|body| - 1]) <= 3
    requires cleanup == [] || (|cleanup| == 1 && cleanup[0].RemoveAudio?)
    ensures Ordered(body + cleanup)
    ensures RemovesAudio(body + cleanup) <==> cleanup != []
  {
    OrderedConcat(body, cleanup);
    var trace := body + cleanup;
    if cleanup != [] {
      assert Rank(trace[|trace| - 1]) == 4;
    } else {
      assert trace == body;
      forall i | 0 <= i < |body| ensures Rank(body[i]) != 4 {
        OrderedBelowLast(body, i);
      }
    }
  }

  /** The optional directory creation, then the events of the `try` block,
      then the optional removal form an ordered trace that removes the audio
      exactly when the removal was appended, as its last event. */
  lemma FrameAttempt(setup: seq<Event>, events: seq<Event>, cleanup: seq<Event>)
    requires setup == [] || setup == [CreateOutputDir(OutputDir)]
    requires events != [] && Ordered(events) && Rank(events[0]) >= 1
    requires Rank(events[|events| - 1]) <= 3
    requires cleanup == [] || (|cleanup| == 1 && cleanup[0].RemoveAudio?)
    ensures var trace := setup + events + cleanup;
            && Ordered(trace) && trace != []
            && (RemovesAudio(trace) <==> cleanup != [])
            && (cleanup != [] ==> trace[|trace| - 1] == cleanup[0])
  {
    OrderedConcat(setup, events);
    var body := setup + events;
    assert body[|body| - 1] == events[|events| - 1];
    AppendCleanup(body, cleanup);
  }

  /** What `TryBlock` promises about the attempt it returns. */
  predicate IsAttemptOf(a: Attempt, url: string, w: World) {
    && 1 <= |a.events| <= 3 && Ordered(a.events)
    && a.events[0] == Download(url, OutputDir)
    && Rank(a.events[|a.events| - 1]) <= 3
    && (a.flow.Exited? <==> w.download.DownloadFailed?)
    && (a.flow.Exited? ==> a.flow == Exited(DownloadError(w.download.message), 1))
    && (a.flow.Finished? ==> !a.flow.report.EmptyUrl? && !a.flow.report.DownloadError?)
    && a.audioFilePath == if w.download.Downloaded? then w.download.path else ""
  }

  /** The rest of `main` around an attempt of its `try` block: the directory
      creation before it, then the `except` and `finally` clauses after it. */
  function Conclude(url: string, w: World, a: Attempt): (r: RunResult)
    requires IsAttemptOf(a, url, w)
    ensures Ordered(r.trace) && r.trace != []
    ensures r.report != EmptyUrl
    ensures r.exitStatus == if r.report.DownloadError? then 1 else 0
    ensures RemovesAudio(r.trace)
            <==> RemovalDue(w.download, w.audioExistsAtCleanup)
    ensures RemovalDue(w.download, w.audioExistsAtCleanup)
            ==> r.trace[|r.trace| - 1] == RemoveAudio(w.download.path)
  {
    var setup := if w.outputDirExists then [] else [CreateOutputDir(OutputDir)];
    var handled := Handle(a.flow);
    var cleanup := Finally(a.audioFilePath, w.audioExistsAtCleanup);
    assert cleanup != [] <==> RemovalDue(w.download, w.audioExistsAtCleanup);
    FrameAttempt(setup, a.events, cleanup);
    RunResult(setup + a.events + cleanup, handled.0, handled.1)
  }

  /** `main` after a non-blank URL was read: make sure the output directory
      exists, run the `try` block, apply the `except` and `finally` clauses.
      The events are ordered; the audio is removed, as the last event, exactly
      when a download returned a non-empty path that still exists; the exit
      status is 1 after a failed download and 0 otherwise. */
  function RunWithUrl(url: string, title: string, w: World): (r: RunResult)
    ensures Ordered(r.trace) && r.trace != []
    ensures r.report != EmptyUrl
    ensures r.exitStatus == if r.report.DownloadError? then 1 else 0
    ensures RemovesAudio(r.trace)
            <==> RemovalDue(w.download, w.audioExistsAtCleanup)
    ensures RemovalDue(w.download, w.audioExistsAtCleanup)
            ==> r.trace[|r.trace| - 1] == RemoveAudio(w.download.path)
  {
    var a := TryBlock(url, title, w);
    Conclude(url, w, a)
  }

  /** `main`. A blank input line does nothing at all; any other line is
      stripped and run as a URL. */
  function RunPipeline(w: World): (r: RunResult)
    ensures Ordered(r.trace)
    ensures r.trace == [] <==> AllSpace(w.input)
    ensures r.report == EmptyUrl <==> AllSpace(w.input)
    ensures r.exitStatus == if r.report.DownloadError? then 1 else 0
    ensures RemovesAudio(r.trace) <==> CleanupApplies(w)
    ensures CleanupApplies(w) ==> r.trace[|r.trace| - 1] == RemoveAudio(w.download.path)
  {
    var url := Strip(w.input);
    StripEmptyIff(w.input);
    if url == [] then
      assert !CleanupApplies(w);
      RunResult([], EmptyUrl, 0)
    else
      var r := RunWithUrl(url, VideoTitle(w.download), w);
      r
  }
}
