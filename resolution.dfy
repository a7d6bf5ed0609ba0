/** The size token chosen in the window, and the frame size it selects. */
module Resolution {

  datatype Dimensions = Dimensions(width: nat, height: nat)

  /** The size used for every token the table does not list. */
  const Default: Dimensions := Dimensions(1920, 1080)

  /** The tokens the window's drop-down offers. */
  const Options: seq<string> := ["480", "720", "1080", "1440", "4k", "8k"]

  /** The tokens `upscale_video` tests for, with the size each selects. */
  const Table: map<string, Dimensions> := map[
    "480" := Dimensions(640, 480),
    "720" := Dimensions(1280, 720),
    "1440" := Dimensions(2560, 1440),
    "4k" := Dimensions(3840, 2160),
    "8k" := Dimensions(7680, 4320)
  ]

  /**
    The target frame size of `upscale_video`: 1920x1080 unless the token is
    one the branch chain tests for.
  */
  function TargetSize(size: string): (d: Dimensions)
    ensures size in Table ==> d == Table[size]
    ensures size !in Table ==> d == Default
  {
    if size == "480" then Dimensions(640, 480)
    else if size == "720" then Dimensions(1280, 720)
    else if size == "1440" then Dimensions(2560, 1440)
    else if size == "4k" then Dimensions(3840, 2160)
    else if size == "8k" then Dimensions(7680, 4320)
    else Default
  }

  /**
    Each drop-down option selects its own frame size, and `1080` is the
    option that falls through to the default.
  */
  lemma OptionsSelectDistinctSizes()
    ensures forall i, j :: 0 <= i < j < |Options| ==> TargetSize(Options[i]) != TargetSize(Options[j])
    ensures TargetSize("1080") == Default && "1080" !in Table
  {
  }
}
