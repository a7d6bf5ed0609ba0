/**
  Properties of one `upscaler` job: which calls it makes and in what order,
  when it succeeds, and which files it leaves behind.
*/
module Jobs {
  import opened Wrappers
  import opened Text
  import opened Paths
  import opened Probe
  import opened Pipeline

  /** How many library calls a job makes before it ends with `outcome`. */
  function CallCount(outcome: Outcome): nat {
    match outcome
    case Failed(ExtractAudio) => 0
    case Failed(GetInfo) => 1
    case Failed(AddAudio) => 4
    case Failed(RemoveTemp) => 5
    case Failed(RemoveAudio) => 6
    case Done(_) => 7
  }

  /**
    The calls of a job in which no stage raises, `info` being what
    `get_video_info` returns: every later stage uses the frame rate read.
  */
  function Plan(video: string, size: string, info: Info): (plan: seq<Event>)
    ensures |plan| == 7
  {
    var audio := AudioPath(video);
    var paths := OutputPaths(video, size);
    [ AudioWritten(audio), InfoRead(info), PathsChosen(paths),
      FramesWritten(video, paths.temp, size, info.fps),
      Muxed(paths.temp, audio, info.fps, paths.output),
      Removed(paths.temp), Removed(audio) ]
  }

  /**
    A job makes the calls of the plan in order and stops at the stage that
    raises: the calls made are the first `CallCount(outcome)` of the plan.
    When the frame rate is zero the information stage raises, after at
    most the audio extraction.
  */
  lemma CallsFollowPlan(files: set<string>, video: string, size: string, env: Environment)
    ensures var run := Upscale(files, video, size, env);
      && |run.events| == CallCount(run.outcome)
      && (env.reported.fps != 0 ==>
            run.events == Plan(video, size, GetVideoInfo(env.reported).value)[..CallCount(run.outcome)])
      && (env.reported.fps == 0 ==>
            CallCount(run.outcome) <= 1 && run.events == [AudioWritten(AudioPath(video))][..CallCount(run.outcome)])
  {
  }

  /** The frame rate of a call, for the calls that take one. */
  function RateOf(e: Event): Option<int> {
    match e
    case InfoRead(info) => Some(info.fps)
    case FramesWritten(_, _, _, fps) => Some(fps)
    case Muxed(_, _, fps, _) => Some(fps)
    case _ => None
  }

  /**
    The frame rate read from the source is the one the writer and the
    muxer are given: every call of a job that takes a frame rate takes the
    (rounded) rate the capture reports.
  */
  lemma FrameRateShared(files: set<string>, video: string, size: string, env: Environment)
    ensures var run := Upscale(files, video, size, env);
      forall i :: 0 <= i < |run.events| && RateOf(run.events[i]).Some? ==>
        RateOf(run.events[i]).value == env.reported.fps
  {
    CallsFollowPlan(files, video, size, env);
  }

  /**
    A job succeeds exactly when the source exists and has audio, the audio
    write succeeds, the frame rate is not zero, the temporary file exists
    after the frame loop (the writer made it, or it was there before), the
    mux succeeds, and the audio and temporary paths differ. It then returns
    the output path, and removing the temporary file never raises.
  */
  lemma SucceedsIff(files: set<string>, video: string, size: string, env: Environment)
    ensures var run := Upscale(files, video, size, env);
      var audio := AudioPath(video);
      var paths := OutputPaths(video, size);
      && (run.outcome.Done? <==>
            && video in files && env.hasAudio && env.audioWritten
            && env.reported.fps != 0
            && (env.writerOpens || paths.temp in files)
            && env.muxWritten
            && audio != paths.temp)
      && (run.outcome.Done? ==> run.outcome.output == paths.output)
      && run.outcome != Failed(RemoveTemp)
  {
  }

  /**
    After a successful job the temporary and audio files are gone. The
    output survives exactly when it is neither the temporary nor the audio
    path (removing the temporary file deletes an output of the same name),
    and the source survives exactly when its path holds `.mp4` and is not
    the temporary path.
  */
  lemma SuccessLeavesOutput(files: set<string>, video: string, size: string, env: Environment)
    ensures var run := Upscale(files, video, size, env);
      var audio := AudioPath(video);
      var paths := OutputPaths(video, size);
      run.outcome.Done? ==>
        && run.files == (files + {paths.output}) - {paths.temp} - {audio}
        && (paths.output in run.files <==> paths.output != paths.temp && paths.output != audio)
        && (video in run.files <==> Contains(video, VideoExt) && video != paths.temp)
  {
  }

  /**
    A path none of whose segments holds `.mp4`, and whose rebuilt output
    holds neither `480` nor `720`, has its output path equal to its
    temporary path: a successful job deletes the output it just wrote.
  */
  lemma NoVideoSegmentLosesOutput(files: set<string>, video: string, size: string, env: Environment)
    requires forall i :: 0 <= i < |Segments(video)| ==> !IsVideoSegment(Segments(video)[i])
    requires !Contains(Rebuilt(video, OutputLabel), "480") && !Contains(Rebuilt(video, OutputLabel), "720")
    ensures var run := Upscale(files, video, size, env);
      && OutputPaths(video, size).output == OutputPaths(video, size).temp
      && (run.outcome.Done? ==> OutputPaths(video, size).output !in run.files)
  {
    NoVideoSegmentSamePaths(video);
    SuccessLeavesOutput(files, video, size, env);
  }

  /**
    A job that fails before the removals deletes nothing: the files it
    leaves are the old ones plus, at most, the audio file and the temporary
    file, and it removes nothing. Once the audio was written it stays behind,
    and so does the temporary file when the mux fails after the writer made it.
  */
  lemma FailureLeavesIntermediates(files: set<string>, video: string, size: string, env: Environment)
    ensures var run := Upscale(files, video, size, env);
      var audio := AudioPath(video);
      var paths := OutputPaths(video, size);
      && (run.outcome in {Failed(ExtractAudio), Failed(GetInfo), Failed(AddAudio)} ==>
            && files <= run.files <= files + {audio, paths.temp}
            && forall i :: 0 <= i < |run.events| ==> !run.events[i].Removed?)
      && (run.outcome in {Failed(GetInfo), Failed(AddAudio)} ==> audio in run.files)
      && (run.outcome == Failed(AddAudio) && env.writerOpens ==> paths.temp in run.files)
  {
  }

  /**
    A source named by a bare file name without `.mp4` (`clip.mov`, `clip.MP4`)
    is its own audio path and its own temporary path. When every library call
    succeeds, the job writes the audio and the frames over the source, removes
    it as the temporary file, and then raises removing the audio file. The
    source is gone; the output survives only when the `480`/`720`
    substitution gave it another name, since otherwise it is the source path
    as well.
  */
  lemma BareOtherNameDeletesSource(files: set<string>, video: string, size: string, env: Environment)
    requires !Contains(video, "/") && !Contains(video, Sep) && !Contains(video, VideoExt)
    requires video in files && env.hasAudio && env.audioWritten && env.reported.fps != 0 && env.muxWritten
    ensures var run := Upscale(files, video, size, env);
      && AudioPath(video) == OutputPaths(video, size).temp == video
      && run.outcome == Failed(RemoveAudio)
      && run.files == (files + {OutputPaths(video, size).output}) - {video}
      && video !in run.files
  {
    BareOtherNameRebuiltAsItself(video, TempLabel);
  }
}
