/**
  `upscaler`: the stage sequence of one job and its effect on the files.
  The file system is a set of existing paths; each library call is a stage
  that creates files or fails, and what the libraries decide (whether the
  source has audio, whether a write succeeds, what the capture reports and
  decodes) is an Environment. A ghost log records the library calls made.
*/
module Pipeline {
  import opened Wrappers
  import opened Text
  import opened Paths
  import opened Frames
  import opened Probe

  /** The stages of `upscaler` that can raise an exception. */
  datatype Stage = ExtractAudio | GetInfo | AddAudio | RemoveTemp | RemoveAudio

  /** How a job ends: it returns normally, or a stage raises. */
  datatype Outcome = Done(output: string) | Failed(stage: Stage)

  /** What the media libraries and the disk decide, outside the program. */
  datatype Environment = Environment(
    hasAudio: bool,                 // the source has an audio track
    audioWritten: bool,             // `write_audiofile` succeeds
    reported: Reported,             // what the capture reports, frame rate rounded
    captureOpens: bool,             // the frame loop's capture opens an existing source
    outcomes: seq<Option<Frame>>,   // the results of successive `cap.read()` calls
    interp: Interpolation,          // the pixels `cv2.resize` produces
    writerOpens: bool,              // `cv2.VideoWriter` can create the temporary file
    muxWritten: bool                // `write_videofile` succeeds
  )

  /** One library call of a job, in the order the job makes them. */
  datatype Event =
    | AudioWritten(path: string)
    | InfoRead(info: Info)
    | PathsChosen(paths: JobPaths)
    | FramesWritten(source: string, temp: string, size: string, fps: int)
    | Muxed(silent: string, audio: string, fps: int, output: string)
    | Removed(path: string)

  /** The end of a job: its outcome, the files that exist, the calls made. */
  datatype Run = Run(outcome: Outcome, files: set<string>, events: seq<Event>)

  /**
    One run of `upscaler(video, size)` from the existing files `files`:
    extract the audio, read the video information, derive the paths, write
    the resized frames to the temporary file, add the audio into the output
    file, then remove the temporary file and the audio file. An exception
    stops the job where it is raised; nothing is cleaned up then.
  */
  function Upscale(files: set<string>, video: string, size: string, env: Environment): Run {
    if !(video in files && env.hasAudio && env.audioWritten) then Run(Failed(ExtractAudio), files, [])
    else
      var audio := AudioPath(video);
      AfterAudio(files + {audio}, [AudioWritten(audio)], video, size, env)
  }

  /** The job from `get_video_info` on, with `log` the calls made so far. */
  function AfterAudio(files: set<string>, log: seq<Event>, video: string, size: string, env: Environment): Run {
    var probed := GetVideoInfo(env.reported);
    if probed.Failure? then Run(Failed(GetInfo), files, log)
    else
      var info := probed.value;
      var paths := OutputPaths(video, size);
      AfterFrames(
        if env.writerOpens then files + {paths.temp} else files,
        log + [InfoRead(info), PathsChosen(paths), FramesWritten(video, paths.temp, size, info.fps)],
        AudioPath(video), info.fps, paths, env)
  }

  /** The job from `add_audio_to_video` on. */
  function AfterFrames(files: set<string>, log: seq<Event>, audio: string, fps: int, paths: JobPaths, env: Environment): Run {
    if !(paths.temp in files && audio in files && env.muxWritten) then Run(Failed(AddAudio), files, log)
    else Cleanup(files + {paths.output}, log + [Muxed(paths.temp, audio, fps, paths.output)], audio, paths)
  }

  /** The two `os.remove` calls that end `upscaler`. */
  function Cleanup(files: set<string>, log: seq<Event>, audio: string, paths: JobPaths): Run {
    if paths.temp !in files then Run(Failed(RemoveTemp), files, log)
    else if audio !in files - {paths.temp} then
      Run(Failed(RemoveAudio), files - {paths.temp}, log + [Removed(paths.temp)])
    else
      Run(Done(paths.output), files - {paths.temp} - {audio}, log + [Removed(paths.temp), Removed(audio)])
  }

  /** The file system one job works on. */
  class Workspace {
    var files: set<string>
    ghost var events: seq<Event>

    constructor (existing: set<string>)
      ensures files == existing && events == []
    {
      files := existing;
      events := [];
    }

    /**
      `convert_video_to_audio`: opening a missing source, a source without
      audio, or a failed write raises; otherwise the audio file exists.
    */
    method ConvertVideoToAudio(video: string, env: Environment) returns (audio: Option<string>)
      modifies this
      ensures audio.Some? <==> video in old(files) && env.hasAudio && env.audioWritten
      ensures audio.Some? ==>
        && audio.value == AudioPath(video)
        && files == old(files) + {audio.value}
        && events == old(events) + [AudioWritten(audio.value)]
      ensures audio.None? ==> files == old(files) && events == old(events)
    {
      if video !in files || !env.hasAudio || !env.audioWritten {
        return None;
      }
      var path := ReplaceAll(video, VideoExt, AudioExt);
      files := files + {path};
      events := events + [AudioWritten(path)];
      audio := Some(path);
    }

    /**
      `upscale_video`: never raises. The frames go to the writer, and the
      temporary file exists afterwards when the writer could create it.
    */
    method WriteTempVideo(video: string, temp: string, size: string, fps: int, env: Environment) returns (silent: Video)
      modifies this
      ensures silent == Resampled(video in old(files) && env.captureOpens, env.outcomes, size, fps, env.interp)
      ensures files == if env.writerOpens then old(files) + {temp} else old(files)
      ensures events == old(events) + [FramesWritten(video, temp, size, fps)]
    {
      silent := UpscaleVideo(video in files && env.captureOpens, env.outcomes, size, fps, env.interp);
      if env.writerOpens {
        files := files + {temp};
      }
      events := events + [FramesWritten(video, temp, size, fps)];
    }

    /**
      `add_audio_to_video`: opening a missing temporary or audio file, or a
      failed write, raises; otherwise the output file exists.
    */
    method AddAudioToVideo(temp: string, audio: string, fps: int, output: string, env: Environment) returns (ok: bool)
      modifies this
      ensures ok <==> temp in old(files) && audio in old(files) && env.muxWritten
      ensures files == if ok then old(files) + {output} else old(files)
      ensures events == old(events) + if ok then [Muxed(temp, audio, fps, output)] else []
    {
      ok := temp in files && audio in files && env.muxWritten;
      if ok {
        files := files + {output};
        events := events + [Muxed(temp, audio, fps, output)];
      }
    }

    /** `os.remove`: raises for a missing file, else the file is gone. */
    method Remove(path: string) returns (ok: bool)
      modifies this
      ensures ok <==> path in old(files)
      ensures files == old(files) - {path}
      ensures events == old(events) + if ok then [Removed(path)] else []
    {
      ok := path in files;
      if ok {
        files := files - {path};
        events := events + [Removed(path)];
      }
    }

    /** `upscaler`: the stages in order, each stopping the job if it raises. */
    method Upscaler(video: string, size: string, env: Environment) returns (outcome: Outcome)
      modifies this
      ensures var run := Upscale(old(files), video, size, env);
        outcome == run.outcome && files == run.files && events == old(events) + run.events
    {
      ghost var before := events;
      var audio := ConvertVideoToAudio(video, env);
      if audio.None? {
        return Failed(ExtractAudio);
      }
      ghost var log := [AudioWritten(audio.value)];
      ghost var run := AfterAudio(files, log, video, size, env);
      assert run == Upscale(old(files), video, size, env);
      ghost var files1 := files;
      var probed := GetVideoInfo(env.reported);
      if probed.Failure? {
        return Failed(GetInfo);
      }
      var info := probed.value;
      events := events + [InfoRead(info)];
      var output, temp := GetOutputPath(video, size);
      var paths := JobPaths(output, temp);
      events := events + [PathsChosen(paths)];
      var silent := WriteTempVideo(video, temp, size, info.fps, env);
      log := log + [InfoRead(info), PathsChosen(paths), FramesWritten(video, temp, size, info.fps)];
      assert events == before + log;
      assert run == AfterFrames(files, log, audio.value, info.fps, paths, env);
      var muxed := AddAudioToVideo(temp, audio.value, info.fps, output, env);
      if !muxed {
        return Failed(AddAudio);
      }
      log := log + [Muxed(temp, audio.value, info.fps, output)];
      assert events == before + log;
      assert run == Cleanup(files, log, audio.value, paths);
      var removed := Remove(temp);
      if !removed {
        return Failed(RemoveTemp);
      }
      removed := Remove(audio.value);
      if !removed {
        return Failed(RemoveAudio);
      }
      return Done(output);
    }
  }
}
