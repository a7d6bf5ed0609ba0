/**
  The frame loop of `upscale_video`: read frames from the capture until the
  first failed read, resize each to the target size, and hand it to the
  writer. Decoding and the interpolation itself belong to the video library
  and are parameters here.
*/
module Frames {
  import opened Wrappers
  import opened Resolution

  /** A decoded frame: its size and its (uninterpreted) pixel data. */
  datatype Frame = Frame(width: nat, height: nat, pixels: seq<int>)

  /** The pixel data a resize to the given width and height produces. */
  type Interpolation = (Frame, nat, nat) -> seq<int>

  /** What the writer of the temporary video receives. */
  datatype Video = Video(fps: int, width: nat, height: nat, frames: seq<Frame>)

  /** `cv2.resize`: a frame of the requested size. */
  function Resize(f: Frame, w: nat, h: nat, interp: Interpolation): (g: Frame)
    ensures g.width == w && g.height == h
  {
    Frame(w, h, interp(f, w, h))
  }

  /**
    The i-th call of `cap.read()`: `outcomes` lists the outcomes the capture
    gives, and every read past them fails.
  */
  function ReadAt(outcomes: seq<Option<Frame>>, i: nat): Option<Frame> {
    if i < |outcomes| then outcomes[i] else None
  }

  /**
    The frames read before the first failed read: the longest prefix of
    successful outcomes.
  */
  function Decoded(outcomes: seq<Option<Frame>>): (fs: seq<Frame>)
    ensures |fs| <= |outcomes|
    ensures forall i :: 0 <= i < |fs| ==> outcomes[i] == Some(fs[i])
    ensures ReadAt(outcomes, |fs|).None?
    decreases |outcomes|
  {
    if outcomes == [] || outcomes[0].None? then []
    else [outcomes[0].value] + Decoded(outcomes[1..])
  }

  /** Every frame of `fs` resized to `w` by `h`, in order. */
  function ResizeAll(fs: seq<Frame>, w: nat, h: nat, interp: Interpolation): (gs: seq<Frame>)
    ensures |gs| == |fs|
    ensures forall i :: 0 <= i < |fs| ==> gs[i] == Resize(fs[i], w, h, interp)
  {
    seq(|fs|, i requires 0 <= i < |fs| => Resize(fs[i], w, h, interp))
  }

  /**
    What `upscale_video` hands to the writer: the source frame rate, the
    size the token selects, and the decoded frames resized to it (none when
    the capture did not open).
  */
  function Resampled(isOpen: bool, outcomes: seq<Option<Frame>>, size: string, fps: int, interp: Interpolation): Video {
    var d := TargetSize(size);
    Video(fps, d.width, d.height, if isOpen then ResizeAll(Decoded(outcomes), d.width, d.height, interp) else [])
  }

  /**
    `upscale_video`: choose the target size from the token, then read until
    the first failed read, writing each frame resized. The writer gets
    exactly one frame per successful read, in order, each of the target size.
  */
  method UpscaleVideo(isOpen: bool, outcomes: seq<Option<Frame>>, size: string, fps: int, interp: Interpolation)
    returns (video: Video)
    ensures video.fps == fps && Dimensions(video.width, video.height) == TargetSize(size)
    ensures !isOpen ==> video.frames == []
    ensures isOpen ==> |video.frames| == |Decoded(outcomes)|
    ensures isOpen ==> forall k :: 0 <= k < |video.frames| ==>
      outcomes[k].Some? && video.frames[k] == Resize(outcomes[k].value, video.width, video.height, interp)
    ensures forall k :: 0 <= k < |video.frames| ==>
      video.frames[k].width == video.width && video.frames[k].height == video.height
    ensures video == Resampled(isOpen, outcomes, size, fps, interp)
  {
    var newWidth, newHeight := 1920, 1080;
    if size == "480" {
      newWidth, newHeight := 640, 480;
    } else if size == "720" {
      newWidth, newHeight := 1280, 720;
    } else if size == "1440" {
      newWidth, newHeight := 2560, 1440;
    } else if size == "4k" {
      newWidth, newHeight := 3840, 2160;
    } else if size == "8k" {
      newWidth, newHeight := 7680, 4320;
    }

    var written: seq<Frame> := [];
    var i := 0;
    while isOpen
      invariant i <= |outcomes| && i == |written|
      invariant isOpen || i == 0
      invariant forall k :: 0 <= k < i ==> outcomes[k].Some?
      invariant forall k :: 0 <= k < i ==> written[k] == Resize(outcomes[k].value, newWidth, newHeight, interp)
      decreases |outcomes| - i
    {
      var r := ReadAt(outcomes, i);
      if r.None? {
        break;
      }
      written := written + [Resize(r.value, newWidth, newHeight, interp)];
      i := i + 1;
    }
    if isOpen {
      DecodedStopsAt(outcomes, i);
    }
    video := Video(fps, newWidth, newHeight, written);
  }

  /**
    The loop stops where Decoded does: if the first `n` reads succeed and
    read `n` fails, the decoded frames are the values of those `n` reads.
  */
  lemma DecodedStopsAt(outcomes: seq<Option<Frame>>, n: nat)
    requires n <= |outcomes| && ReadAt(outcomes, n).None?
    requires forall k :: 0 <= k < n ==> outcomes[k].Some?
    ensures Decoded(outcomes) == seq(n, k requires 0 <= k < n => outcomes[k].value)
  {
  }
}
