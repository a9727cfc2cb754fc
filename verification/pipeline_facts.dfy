/**
 A flat reference description of one run of `main`, read off the source in
 program order without any exception handling, and the properties of the
 pipeline that follow once the nested model is shown to agree with it.
 */
module PipelineFacts {
  import opened PyStr
  import opened Config
  import opened Commands
  import opened Pipeline
  import Filename
  import PosixPath

  /** True when the run gets as far as the alignment stages: the download
      succeeded and the lyrics file exists. */
  predicate Aligning(w: World) {
    w.download.Downloaded? && w.lyricsExists
  }

  /** The Stage A launch, when the run gets that far. */
  function ExpectedStageA(w: World): seq<Event> {
    if Aligning(w) then [InvokeStageA(HalluCommand(w.interpreter, w.download.path))] else []
  }

  /** The Stage B launch, when Stage A exited with status 0. */
  function ExpectedStageB(w: World): seq<Event> {
    if Aligning(w) && w.stageA.StageOk? then [InvokeStageB(SyncCommand(w.download.path, LyricsPath))] else []
  }

  /** The removal of the audio file, when a download returned a non-empty
      path and the file is still there at the end. */
  function ExpectedCleanup(w: World): seq<Event> {
    if RemovalDue(w.download, w.audioExistsAtCleanup)
    then [RemoveAudio(w.download.path)] else []
  }

  /** The events of the `try` block: the download and the stage launches. */
  function ExpectedTryEvents(url: string, w: World): seq<Event> {
    [Download(url, OutputDir)] + ExpectedStageA(w) + ExpectedStageB(w)
  }

  /** The events of a run with a non-blank URL, in program order. */
  function ExpectedTrace(url: string, w: World): seq<Event> {
    (if w.outputDirExists then [] else [CreateOutputDir(OutputDir)])
    + ExpectedTryEvents(url, w) + ExpectedCleanup(w)
  }

  /** The report of a run with a non-blank URL: the first failure in program
      order, an unexpected exception being reported as a crash, or the final
      subtitle path when nothing failed. */
  function ExpectedReport(title: string, w: World): Report {
    match w.download
    case DownloadFailed(msg) => DownloadError(msg)
    case Downloaded(_, _) =>
      if !w.lyricsExists then LyricsMissing(LyricsPath)
      else
        match w.stageA
        case ProcessError(err) => StageAFailed(err)
        case OtherException(msg) => Crashed(msg)
        case StageOk =>
          match w.stageB
          case ProcessError(err) => StageBFailed(err)
          case OtherException(msg) => Crashed(msg)
          case StageOk => Aligned(FinalSrtPath(title))
  }

  /** The exit status of a run with a non-blank URL: 1 exactly when the
      download failed. */
  function ExpectedExitStatus(w: World): int {
    if w.download.DownloadFailed? then 1 else 0
  }

  /** The whole reference run. */
  function ExpectedRun(w: World): RunResult {
    if AllSpace(w.input) then RunResult([], EmptyUrl, 0)
    else RunResult(ExpectedTrace(Strip(w.input), w), ExpectedReport(VideoTitle(w.download), w), ExpectedExitStatus(w))
  }

  /** The `try` block yields the download followed by the stage launches of
      the reference, and its way out, once handled, gives the reference report
      and exit status. */
  lemma TryBlockMatchesReference(url: string, title: string, w: World)
    ensures TryBlock(url, title, w).events == ExpectedTryEvents(url, w)
    ensures Handle(TryBlock(url, title, w).flow) == (ExpectedReport(title, w), ExpectedExitStatus(w))
  {
    var fetch := [Download(url, OutputDir)];
    if Aligning(w) {
      var s := RunAlignment(w.download.path, LyricsPath, title, w.interpreter, w.stageA, w.stageB);
      assert TryBlock(url, title, w).events == fetch + s.events;
      if w.stageA.StageOk? {
        assert s.events == ExpectedStageA(w) + ExpectedStageB(w);
      } else {
        assert s.events == ExpectedStageA(w);
      }
    }
  }

  /** After a non-blank URL, the nested model of `main` agrees with the
      reference. */
  lemma RunWithUrlMatchesReference(url: string, title: string, w: World)
    ensures RunWithUrl(url, title, w)
            == RunResult(ExpectedTrace(url, w), ExpectedReport(title, w), ExpectedExitStatus(w))
  {
    TryBlockMatchesReference(url, title, w);
    var a := TryBlock(url, title, w);
    assert Finally(a.audioFilePath, w.audioExistsAtCleanup) == ExpectedCleanup(w);
    assert RunWithUrl(url, title, w) == Conclude(url, w, a);
  }

  /** The model of `main` agrees with the reference on every input. */
  lemma RunPipelineMatchesReference(w: World)
    ensures RunPipeline(w) == ExpectedRun(w)
  {
    StripEmptyIff(w.input);
    if !AllSpace(w.input) {
      RunWithUrlMatchesReference(Strip(w.input), VideoTitle(w.download), w);
    }
  }

  /** Which kinds of event the reference trace holds, and with which
      arguments the stages are launched. */
  lemma ExpectedTraceContents(url: string, w: World)
    ensures var t := ExpectedTrace(url, w);
            && (LaunchesStageA(t) <==> Aligning(w))
            && (LaunchesStageB(t) <==> Aligning(w) && w.stageA.StageOk?)
            && (RemovesAudio(t) <==> RemovalDue(w.download, w.audioExistsAtCleanup))
  {
    var setup := if w.outputDirExists then [] else [CreateOutputDir(OutputDir)];
    var fetch := [Download(url, OutputDir)];
    var a, b, c := ExpectedStageA(w), ExpectedStageB(w), ExpectedCleanup(w);
    OccursInParts(setup, fetch, a, b, c, 2);
    OccursInParts(setup, fetch, a, b, c, 3);
    OccursInParts(setup, fetch, a, b, c, 4);
  }

  /** The reference launches Stage A and Stage B only with the commands built
      from the downloaded file. */
  lemma ExpectedTraceLaunches(url: string, w: World)
    ensures var t := ExpectedTrace(url, w);
            forall argv :: InvokeStageA(argv) in t
              ==> w.download.Downloaded? && argv == HalluCommand(w.interpreter, w.download.path)
    ensures var t := ExpectedTrace(url, w);
            forall argv :: InvokeStageB(argv) in t
              ==> w.download.Downloaded? && argv == SyncCommand(w.download.path, LyricsPath)
  {
    var setup := if w.outputDirExists then [] else [CreateOutputDir(OutputDir)];
    var fetch := [Download(url, OutputDir)];
    var a, b, c := ExpectedStageA(w), ExpectedStageB(w), ExpectedCleanup(w);
    var t := ExpectedTrace(url, w);
    forall argv | InvokeStageA(argv) in t
      ensures w.download.Downloaded? && argv == HalluCommand(w.interpreter, w.download.path)
    {
      assert InvokeStageA(argv) in a;
    }
    forall argv | InvokeStageB(argv) in t
      ensures w.download.Downloaded? && argv == SyncCommand(w.download.path, LyricsPath)
    {
      assert InvokeStageB(argv) in b;
    }
  }

  /** An event kind occurs in a trace of five parts exactly when it occurs
      in one of them. */
  lemma OccursInParts(setup: seq<Event>, fetch: seq<Event>, a: seq<Event>, b: seq<Event>, c: seq<Event>, k: nat)
    requires |setup| <= 1 && |fetch| <= 1 && |a| <= 1 && |b| <= 1 && |c| <= 1
    ensures Occurs(setup + (fetch + a + b) + c, k)
            <==> || (setup != [] && Rank(setup[0]) == k)
                 || (fetch != [] && Rank(fetch[0]) == k)
                 || (a != [] && Rank(a[0]) == k)
                 || (b != [] && Rank(b[0]) == k)
                 || (c != [] && Rank(c[0]) == k)
  {
    forall x: seq<Event> | |x| <= 1 ensures Occurs(x, k) <==> x != [] && Rank(x[0]) == k {
      if x != [] {
        assert x == [x[0]];
        OccursSingle(x[0], k);
      }
    }
    OccursConcat(fetch, a, k);
    OccursConcat(fetch + a, b, k);
    OccursConcat(setup, fetch + a + b, k);
    OccursConcat(setup + (fetch + a + b), c, k);
  }

  /** A failed download ends the process with status 1 right after the
      download attempt: no stage is launched and, `audio_file_path` being
      still empty, nothing is removed. */
  lemma DownloadFailureExits(w: World)
    requires !AllSpace(w.input) && w.download.DownloadFailed?
    ensures var r := RunPipeline(w);
            && r.report == DownloadError(w.download.message)
            && r.exitStatus == 1
            && r.trace != [] && r.trace[|r.trace| - 1] == Download(Strip(w.input), OutputDir)
            && !LaunchesStageA(r.trace) && !LaunchesStageB(r.trace) && !RemovesAudio(r.trace)
  {
    RunPipelineMatchesReference(w);
    ExpectedTraceContents(Strip(w.input), w);
  }

  /** Without the lyrics file no stage is launched, the missing file is
      reported, and the downloaded audio is still removed when it exists. */
  lemma LyricsMissingSkipsStages(w: World)
    requires !AllSpace(w.input) && w.download.Downloaded? && !w.lyricsExists
    ensures var r := RunPipeline(w);
            && r.report == LyricsMissing(LyricsPath)
            && r.exitStatus == 0
            && !LaunchesStageA(r.trace) && !LaunchesStageB(r.trace)
            && (RemovesAudio(r.trace) <==> RemovalDue(w.download, w.audioExistsAtCleanup))
  {
    RunPipelineMatchesReference(w);
    ExpectedTraceContents(Strip(w.input), w);
  }

  /** Stage A is launched exactly when the URL is not blank, the download
      succeeded and the lyrics file exists, and always with the command built
      from the running interpreter and the downloaded file. */
  lemma StageALaunch(w: World)
    ensures var t := RunPipeline(w).trace;
            LaunchesStageA(t) <==> !AllSpace(w.input) && Aligning(w)
    ensures var t := RunPipeline(w).trace;
            forall argv :: InvokeStageA(argv) in t
              ==> w.download.Downloaded? && argv == HalluCommand(w.interpreter, w.download.path)
  {
    RunPipelineMatchesReference(w);
    ExpectedTraceContents(Strip(w.input), w);
    ExpectedTraceLaunches(Strip(w.input), w);
  }

  /** Stage B is launched exactly when Stage A was launched and exited with
      status 0, and always with the downloaded file and the lyrics file. */
  lemma StageBLaunch(w: World)
    ensures var t := RunPipeline(w).trace;
            LaunchesStageB(t) <==> !AllSpace(w.input) && Aligning(w) && w.stageA.StageOk?
    ensures var t := RunPipeline(w).trace;
            forall argv :: InvokeStageB(argv) in t
              ==> w.download.Downloaded? && argv == SyncCommand(w.download.path, LyricsPath)
  {
    RunPipelineMatchesReference(w);
    ExpectedTraceContents(Strip(w.input), w);
    ExpectedTraceLaunches(Strip(w.input), w);
  }

  /** Both stages of a run work on the same audio file with the same model
      size: Stage A's `--input` and `--model` options are Stage B's first and
      third positional arguments. */
  lemma StagesShareAudioAndModel(w: World)
    ensures var t := RunPipeline(w).trace;
            forall a, b :: InvokeStageA(a) in t && InvokeStageB(b) in t ==>
                && |a| == 10 && |b| == 5 && IsOptionList(a[2..])
                  && OptionValue(a[2..], "--input") == Some(b[2])
                  && OptionValue(a[2..], "--model") == Some(b[4])
  {
    StageALaunch(w);
    StageBLaunch(w);
    if w.download.Downloaded? {
      LaunchesAgree(RunPipeline(w).trace, w.interpreter, w.download.path);
    }
  }

  /** A non-zero exit of Stage A is reported with its error text, Stage B is
      never launched, and the process ends with status 0. */
  lemma StageAFailureSkipsStageB(w: World)
    requires !AllSpace(w.input) && Aligning(w) && w.stageA.ProcessError?
    ensures var r := RunPipeline(w);
            && r.report == StageAFailed(w.stageA.stderr)
            && r.exitStatus == 0
            && LaunchesStageA(r.trace) && !LaunchesStageB(r.trace)
  {
    RunPipelineMatchesReference(w);
    ExpectedTraceContents(Strip(w.input), w);
  }

  /** A non-zero exit of Stage B is reported with its error text and the
      process ends with status 0. */
  lemma StageBFailureReported(w: World)
    requires !AllSpace(w.input) && Aligning(w) && w.stageA.StageOk? && w.stageB.ProcessError?
    ensures var r := RunPipeline(w);
            r.report == StageBFailed(w.stageB.stderr) && r.exitStatus == 0
  {
    RunPipelineMatchesReference(w);
  }

  /** Any other exception while launching a stage is caught by `main`,
      reported with its message, and the process ends with status 0 after
      the audio file is cleaned up as usual. */
  lemma UnexpectedExceptionCaught(w: World)
    requires !AllSpace(w.input) && Aligning(w)
    requires w.stageA.OtherException? || (w.stageA.StageOk? && w.stageB.OtherException?)
    ensures var r := RunPipeline(w);
            && r.report == Crashed(if w.stageA.OtherException? then w.stageA.message else w.stageB.message)
            && r.exitStatus == 0
            && (RemovesAudio(r.trace) <==> RemovalDue(w.download, w.audioExistsAtCleanup))
  {
    RunPipelineMatchesReference(w);
    ExpectedTraceContents(Strip(w.input), w);
  }

  /** In any trace that launches Stage A and Stage B only with the commands
      built for one audio file, both stages get that file and the same model
      size. */
  lemma LaunchesAgree(t: seq<Event>, interpreter: string, audioPath: string)
    requires forall argv :: InvokeStageA(argv) in t ==> argv == HalluCommand(interpreter, audioPath)
    requires forall argv :: InvokeStageB(argv) in t ==> argv == SyncCommand(audioPath, LyricsPath)
    ensures forall a, b :: InvokeStageA(a) in t && InvokeStageB(b) in t ==>
                && |a| == 10 && |b| == 5 && IsOptionList(a[2..])
                && OptionValue(a[2..], "--input") == Some(b[2])
                && OptionValue(a[2..], "--model") == Some(b[4])
  {
  }

  /** The reference reports the final subtitle path exactly when both stages
      exited with status 0, and that path is the one built from the title. */
  lemma ExpectedReportAligned(title: string, w: World)
    ensures ExpectedReport(title, w).Aligned? <==> Aligning(w) && w.stageA.StageOk? && w.stageB.StageOk?
    ensures ExpectedReport(title, w).Aligned? ==> ExpectedReport(title, w).srtPath == FinalSrtPath(title)
  {
  }

  /** The final subtitle path is reported exactly when both stages exited
      with status 0. */
  lemma AlignedIff(w: World)
    ensures RunPipeline(w).report.Aligned?
            <==> !AllSpace(w.input) && Aligning(w) && w.stageA.StageOk? && w.stageB.StageOk?
  {
    RunPipelineMatchesReference(w);
    ExpectedReportAligned(VideoTitle(w.download), w);
  }

  /** The reported subtitle path is `<title>_aligned.srt` in the output
      directory, for the video's title as `clean_filename` sanitises it. */
  lemma AlignedPath(w: World)
    ensures var r := RunPipeline(w);
            r.report.Aligned? ==>
              && w.download.Downloaded?
              && r.report.srtPath == OutputDir + [PosixPath.Sep] + Filename.CleanFilename(w.download.rawTitle) + AlignedSuffix
  {
    RunPipelineMatchesReference(w);
    var r := RunPipeline(w);
    if r.report.Aligned? {
      var title := VideoTitle(w.download);
      assert !AllSpace(w.input) && r.report == ExpectedReport(title, w);
      ExpectedReportAligned(title, w);
      assert w.download.Downloaded? && title == Filename.CleanFilename(w.download.rawTitle);
      FinalSrtPathOfVideo(w.download.rawTitle);
    }
  }
}
