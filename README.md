# Simple video upscaler: a verified model

`SimpleVideoUpscaler.py` resizes a video to a chosen resolution. It extracts the audio
track next to the source, reads the frame rate and frame count, derives an
output path and a temporary path from the source path, and copies every frame
into the temporary video resized to the size the chosen token names. It then
muxes the temporary video with the audio into the output file and removes the
temporary and audio files. This project models that job in Dafny:

- `text.dfy` (module `Text`): the Python string operations the program relies
  on, over `seq<char>`. These are `p in s`, `s.replace(p, r)` (all occurrences,
  left to right, non-overlapping), `s.split(p)` and `sep.join(parts)`. The
  replacement is characterised as `r.join(s.split(p))` over pieces free of `p`.
- `paths.dfy` (module `Paths`): the audio path (`.mp4` → `.mp3`) and
  `get_output_path`.
  - The loop over the segments is a method with a loop invariant, proved
    against a left fold (`Rebuild`) of the loop body.
  - The lemmas pin down its quirks: a later non-video segment equal to the first
    segment resets both paths, and the labels go on every segment that contains
    `.mp4`.
  - The `480`/`720` substitution rewrites the whole output path and never the
    temporary one.
  - Separators always come out as `\`, and a bare video name gets a leading `\`.
- `resolution.dfy` (module `Resolution`): the size token → frame size table and
  its default.
- `frames.dfy` (module `Frames`): the read-until-failure loop of `upscale_video`.
  - It is a method proved against a specification function (`Resampled`): the
    frames read before the first failed read, each resized, in order.
  - The capture's read results are an input sequence, and the interpolation of
    `cv2.resize` is a function parameter.
- `probe.dfy` (module `Probe`): `get_video_info`. Its failure is the zero frame rate.
- `pipeline.dfy` (module `Pipeline`): `upscaler` as a class `Workspace`.
  - The existing files are a set of path strings. A ghost log records the
    library calls made.
  - Each stage is a method that creates or removes files, or fails.
  - What the media libraries decide is an `Environment`: whether the source has
    audio, whether each write succeeds, what the capture reports and decodes.
  - `Upscaler` is proved against the specification function `Upscale`. Upscale
    is itself split at the stages that can raise.
- `jobs.dfy` (module `Jobs`): properties of a whole job.
  - The calls follow the fixed plan and stop at the raising stage.
  - One frame rate (the one read) is used throughout.
  - The exact success condition, the files left after success, and the
    intermediates left after a failure.
  - A bare file name without `.mp4` makes the job delete its own source.
  - A path without `.mp4`, `480` or `720` loses its output on success.
- `wrappers.dfy` (module `Wrappers`): `Option` and `Result`.

Quirks of the code the model keeps:

- The temporary path never gets the size substitution, so it keeps any `480`
  or `720` of the source path. `Paths.TempIndependentOfSize` shows it does
  not depend on the size.
- Every `/` becomes `\`, so both derived paths use `\` throughout. See
  `Paths.NormalizePointwise` and `Paths.SegmentsJoin`.
- The labels go on every segment that contains `.mp4`, and the substitution
  rewrites the whole output path, not only the file name.
- Nothing is cleaned up when a stage fails, and no stage catches an exception.
  See `Jobs.FailureLeavesIntermediates`.
- A zero frame rate makes `frame_count/fps` raise `ZeroDivisionError`, which
  the model's `ZeroDivision` error stands for.
- The audio, temporary, output and source paths are not always distinct:
  - A bare file name without `.mp4` is its own audio and temporary path, so
    the job deletes its source. See `Jobs.BareOtherNameDeletesSource`.
  - A path without `.mp4`, `480` or `720` has its output path equal to its
    temporary path, so a successful job removes the output it just wrote. See
    `Jobs.NoVideoSegmentLosesOutput` and `Jobs.SuccessLeavesOutput`.

## Model

| member | source | states |
|---|---|---|
| `Text.Split` | SimpleVideoUpscaler.py:55 | `str.split` gives at least one piece, and the first piece is a prefix of the string |
| `Text.ContainsIffOccurs` | SimpleVideoUpscaler.py:59 | specifies `Text.Contains`, the model of Python's `in` (also at :68 and :70): `p in s` holds exactly when `p` occurs in `s` at some index |
| `Text.OccursContains` | SimpleVideoUpscaler.py:59 | an occurrence at any index makes `p in s` true |
| `Text.ContainsOccurs` | SimpleVideoUpscaler.py:59 | when `p in s`, an index of an occurrence exists (returned) |
| `Text.JoinSplit` | SimpleVideoUpscaler.py:55 | joining the pieces of `s.split(p)` by `p` gives back `s` |
| `Text.SplitPiecesFree` | SimpleVideoUpscaler.py:55 | no piece of `s.split(p)` contains `p` |
| `Text.SplitAbsent` | SimpleVideoUpscaler.py:55 | a string without `p` splits into itself alone |
| `Text.ReplaceAllIsJoinSplit` | SimpleVideoUpscaler.py:29 | `s.replace(p, r) == r.join(s.split(p))` |
| `Text.ReplaceAllSpec` | SimpleVideoUpscaler.py:69 | specifies `Text.ReplaceAll`, the model of `str.replace` (also at :29, :55 and :71): `s` is the `p`-join of `p`-free pieces and `s.replace(p, r)` is their `r`-join, so nothing outside the replaced occurrences changes; which occurrences a self-overlapping pattern gives is fixed by `Split`, and no pattern of the program overlaps itself |
| `Text.ReplaceAllAbsent` | SimpleVideoUpscaler.py:29 | replacing an absent pattern leaves the string unchanged |
| `Text.ReplaceAllLength` | SimpleVideoUpscaler.py:29 | a replacement as long as the pattern keeps the length |
| `Text.ReplaceAllChanges` | SimpleVideoUpscaler.py:29 | a different replacement of the same length changes the string exactly when the pattern occurs |
| `Text.ReplaceCharPointwise` | SimpleVideoUpscaler.py:55 | replacing one character by another maps it position by position and keeps every other character |
| `Paths.AudioPath` | SimpleVideoUpscaler.py:29 | the audio path has the video path's length, and equals it exactly when the video path holds no `.mp4` |
| `Paths.GetOutputPath` | SimpleVideoUpscaler.py:54-72 | the loop over the segments and the substitution return exactly the paths of the fold `OutputPaths` |
| `Paths.TempIndependentOfSize` | SimpleVideoUpscaler.py:58-72 | the temporary path is the same for every size token |
| `Paths.RebuildConcat` | SimpleVideoUpscaler.py:58-67 | the loop over `xs + ys` is the loop over `ys` started from the result over `xs` |
| `Paths.RebuildIgnoresTag` | SimpleVideoUpscaler.py:58-67 | over segments without `.mp4` the label never appears |
| `Paths.NoVideoSegmentSamePaths` | SimpleVideoUpscaler.py:58-67 | with no `.mp4` segment, the output path before substitution is the temporary path |
| `Paths.ResetForgetsEarlierSegments` | SimpleVideoUpscaler.py:62-64 | of the fold `Paths.Rebuild` of the loop body `Paths.Step`: a later non-video segment equal to the first resets both paths, dropping every earlier segment |
| `Paths.RebuildAppends` | SimpleVideoUpscaler.py:58-67 | without resets, the loop appends `\` and the labelled segments joined by `\` |
| `Paths.RebuiltIsJoin` | SimpleVideoUpscaler.py:55-67 | specifies the fold `Paths.Rebuild` of the loop body `Paths.Step`: for a non-video first segment that never recurs, each path is the segments joined by `\`, video segments prefixed by the label |
| `Paths.PlainPathRebuiltAsNormalized` | SimpleVideoUpscaler.py:55-67 | such a path without any `.mp4` segment is rebuilt as the source with `/` turned into `\` |
| `Paths.BareVideoNameGetsLeadingSeparator` | SimpleVideoUpscaler.py:56-61 | a bare video file name becomes `\` + label + name |
| `Paths.BareOtherNameRebuiltAsItself` | SimpleVideoUpscaler.py:56-64 | a bare file name without `.mp4` is rebuilt as itself |
| `Paths.SplitContainsCount` | SimpleVideoUpscaler.py:68-71 | a string holding the token splits on it into at least two pieces |
| `Paths.JoinContainsSep` | SimpleVideoUpscaler.py:68-71 | a join of at least two pieces contains the separator |
| `Paths.SubstitutePrecedence` | SimpleVideoUpscaler.py:68-71 | specifies `Paths.Substitute`: with a `480`, every `480` becomes the size (`720` untouched); otherwise every `720`; otherwise unchanged; the result contains the size whenever a token was there |
| `Paths.NoTokenOutputIndependentOfSize` | SimpleVideoUpscaler.py:68-72 | without `480` and `720` the output path is the rebuilt path for every size |
| `Paths.NormalizePointwise` | SimpleVideoUpscaler.py:55 | normalising keeps the length, turns every `/` into `\` and keeps every other character |
| `Paths.SegmentsJoin` | SimpleVideoUpscaler.py:55 | the segments joined by `\` are the normalised path, and no segment contains `\` |
| `Resolution.TargetSize` | SimpleVideoUpscaler.py:101-118 | the five listed tokens select their table sizes, every other string 1920x1080 |
| `Resolution.OptionsSelectDistinctSizes` | SimpleVideoUpscaler.py:101-118 | the six drop-down options select six distinct sizes, and `1080` is the option that takes the default |
| `Frames.Decoded` | SimpleVideoUpscaler.py:124-127 | the decoded frames are the successful reads before the first failed read, in order |
| `Frames.UpscaleVideo` | SimpleVideoUpscaler.py:97-137 | the writer gets the source frame rate, the token's size, one frame per successful read before the first failure, each `Resize` of that read, in order, all of the target size, none when the capture did not open |
| `Frames.DecodedStopsAt` | SimpleVideoUpscaler.py:124-128 | when the first `n` reads succeed and read `n` fails, the decoded frames are those `n` reads |
| `Probe.GetVideoInfo` | SimpleVideoUpscaler.py:82-90 | fails exactly for a zero frame rate; otherwise duration times frame rate is the frame count, rate and count pass through, resolution is `[width, height]` |
| `Pipeline.Workspace.ConvertVideoToAudio` | SimpleVideoUpscaler.py:26-33 | raises exactly for a missing source, no audio or a failed write; otherwise the audio path is created and returned |
| `Pipeline.Workspace.WriteTempVideo` | SimpleVideoUpscaler.py:97-137 | the writer receives `Resampled` of the capture, and the temporary file exists afterwards when the writer could create it |
| `Pipeline.Workspace.AddAudioToVideo` | SimpleVideoUpscaler.py:40-47 | raises exactly when the temporary or the audio file is missing or the write fails; otherwise the output exists |
| `Pipeline.Workspace.Remove` | SimpleVideoUpscaler.py:162-163 | `os.remove` raises exactly for a missing file; otherwise the file is gone |
| `Pipeline.Workspace.Upscaler` | SimpleVideoUpscaler.py:142-164 | the outcome, files and calls of a job are those of `Upscale`, stage by stage |
| `Jobs.CallsFollowPlan` | SimpleVideoUpscaler.py:142-164 | the calls made are the plan's first `CallCount(outcome)`: audio, info, paths, frames, mux, remove temp, remove audio |
| `Jobs.FrameRateShared` | SimpleVideoUpscaler.py:147-158 | the frame rate read, the writer's and the muxer's are all the rate the capture reports |
| `Jobs.SucceedsIff` | SimpleVideoUpscaler.py:142-164 | of `Pipeline.Upscale`, the specification of `upscaler`: a job succeeds exactly when every stage's condition holds and the audio and temporary paths differ; removing the temporary file never raises |
| `Jobs.SuccessLeavesOutput` | SimpleVideoUpscaler.py:161-163 | after success the files are the old ones plus the output minus the temporary and audio paths; the output survives exactly when it is neither the temporary nor the audio path, and the source exactly when its path holds `.mp4` and is not the temporary path |
| `Jobs.FailureLeavesIntermediates` | SimpleVideoUpscaler.py:142-158 | a failure before the removals deletes nothing and may leave the audio and temporary files behind |
| `Jobs.BareOtherNameDeletesSource` | SimpleVideoUpscaler.py:29 | for a bare name without `.mp4`, the audio, temporary and source paths coincide, and a job whose calls succeed deletes the source and raises at the audio removal |
| `Jobs.NoVideoSegmentLosesOutput` | SimpleVideoUpscaler.py:58-72 | a path with no `.mp4` segment and no `480` or `720` gets an output path equal to its temporary path, so a successful job leaves no output |

## Left out

- The Tkinter window, drag and drop, `process_input` and `take_input`
  (SimpleVideoUpscaler.py:166-221) are user interface. The drop-down's option
  list appears only as `Resolution.Options`.
- The thread `take_input` starts a job on is not modelled: a job is one
  sequential run, and concurrent jobs are out of scope.
- OpenCV and moviepy internals are not modelled:
  - decoding, the pixel values of `cv2.resize` with `INTER_CUBIC` (a function parameter);
  - the fourcc code and codec;
  - the 320k audio bitrate and libx264 encoding;
  - the contents of every file: files are present or absent.
  Whether each library call succeeds is a field of `Environment`.
- The float frame rate and its `int(round(...))` are inputs, because floating
  point is out of scope. In the same way the duration `frame_count/fps` is the
  exact real quotient rather than a float.
- `print` and `gc.collect()` have no effect on the modelled state.
- File identity is path text. `dir/a.mp4` and `dir\a.mp4` are distinct paths
  here even where the operating system treats them as one file.
- Partial files are not modelled. A write that raises creates nothing in the
  model, though on a real disk it may leave a partial file.
- A capture that stops opening in the middle of the frame loop is not
  modelled: `isOpened()` is decided once per job.
- The frames handed to the writer appear in `Frames.UpscaleVideo`'s result.
  The events record the call but not the frames.
