/**
  `get_video_info`: frame rate, frame count, duration and frame size of the
  source. The capture's properties are inputs; the frame rate arrives
  already rounded to an integer, and the duration is the exact quotient.
*/
module Probe {
  import opened Wrappers

  /** The values the capture reports for the source. */
  datatype Reported = Reported(width: int, height: int, fps: int, frameCount: int)

  /** The tuple `get_video_info` returns. */
  datatype Info = Info(fps: int, frameCount: int, duration: real, resolution: seq<int>)

  /** The exception `frame_count / fps` raises for a zero frame rate. */
  datatype ProbeError = ZeroDivision

  /**
    `get_video_info`: fails exactly when the frame rate is zero; otherwise
    the duration times the frame rate is the frame count, the frame rate and
    count are passed through, and the resolution is `[width, height]`.
  */
  function GetVideoInfo(reported: Reported): (r: Result<Info, ProbeError>)
    ensures r.Failure? <==> reported.fps == 0
    ensures r.Success? ==>
      && r.value.duration * (reported.fps as real) == reported.frameCount as real
      && r.value.fps == reported.fps
      && r.value.frameCount == reported.frameCount
      && r.value.resolution == [reported.width, reported.height]
  {
    if reported.fps == 0 then Failure(ZeroDivision)
    else
      var duration := (reported.frameCount as real) / (reported.fps as real);
      Success(Info(reported.fps, reported.frameCount, duration, [reported.width, reported.height]))
  }
}
