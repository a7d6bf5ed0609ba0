/**
  Path derivation: the audio path of `convert_video_to_audio` and the output
  and temporary video paths of `get_output_path`. Both are plain string
  manipulation on the path text; nothing here touches the file system.
*/
module Paths {
  import opened Text

  /** The separator `get_output_path` splits on and rebuilds with. */
  const Sep: string := "\\"
  const VideoExt: string := ".mp4"
  const AudioExt: string := ".mp3"
  /** Prefix of a video segment in the output path. */
  const OutputLabel: string := "Upscaled "
  /** Prefix of a video segment in the temporary path. */
  const TempLabel: string := "Temp "

  // ---------------------------------------------------------------------
  // Audio path
  // ---------------------------------------------------------------------

  /**
    The audio file's path: every `.mp4` of the video path becomes `.mp3`.
    It has the same length as the video path, and it is the video path
    itself exactly when the video path holds no `.mp4`.
  */
  function AudioPath(video: string): (audio: string)
    ensures |audio| == |video|
    ensures audio == video <==> !Contains(video, VideoExt)
  {
    ReplaceAllLength(video, VideoExt, AudioExt);
    ReplaceAllChanges(video, VideoExt, AudioExt);
    ReplaceAll(video, VideoExt, AudioExt)
  }

  // ---------------------------------------------------------------------
  // Output and temporary paths
  // ---------------------------------------------------------------------

  /** Every `/` of the path turned into `\`. */
  function Normalize(video: string): string {
    ReplaceAll(video, "/", Sep)
  }

  /** The segments `get_output_path` iterates over. */
  function Segments(video: string): (parts: seq<string>)
    ensures |parts| > 0
  {
    Split(Normalize(video), Sep)
  }

  /** A segment that names a video file, and so gets a label. */
  predicate IsVideoSegment(part: string) {
    Contains(part, VideoExt)
  }

  /**
    One pass of the loop body on one accumulator: a video segment is
    appended with the label `tag`, a segment equal to the first segment replaces
    the accumulator, and any other segment is appended plainly.
  */
  function Step(acc: string, part: string, first: string, tag: string): string {
    if IsVideoSegment(part) then acc + Sep + tag + part
    else if part == first then part
    else acc + Sep + part
  }

  /** The loop of `get_output_path` on one accumulator, from `acc` over `parts`. */
  function Rebuild(acc: string, parts: seq<string>, first: string, tag: string): string
    decreases |parts|
  {
    if parts == [] then acc
    else Rebuild(Step(acc, parts[0], first, tag), parts[1..], first, tag)
  }

  /** The loop's result for the label `tag`, before any resolution substitution. */
  function Rebuilt(video: string, tag: string): string {
    var parts := Segments(video);
    Rebuild("", parts, parts[0], tag)
  }

  /**
    The resolution substitution on the output path: every `480` is replaced
    by `size` if there is one, otherwise every `720`, otherwise nothing.
  */
  function Substitute(output: string, size: string): string {
    if Contains(output, "480") then ReplaceAll(output, "480", size)
    else if Contains(output, "720") then ReplaceAll(output, "720", size)
    else output
  }

  /** The paths `get_output_path` returns. */
  datatype JobPaths = JobPaths(output: string, temp: string)

  /** What `get_output_path(video, size)` returns. */
  function OutputPaths(video: string, size: string): JobPaths {
    JobPaths(Substitute(Rebuilt(video, OutputLabel), size), Rebuilt(video, TempLabel))
  }

  /**
    `get_output_path`: normalise the separators, split, rebuild both paths
    segment by segment, then substitute the resolution in the output path.
  */
  method GetOutputPath(video: string, size: string) returns (output: string, temp: string)
    ensures JobPaths(output, temp) == OutputPaths(video, size)
  {
    var parts := Split(ReplaceAll(video, "/", Sep), Sep);
    output := "";
    temp := "";
    for i := 0 to |parts|
      invariant Rebuild(output, parts[i..], parts[0], OutputLabel) == Rebuilt(video, OutputLabel)
      invariant Rebuild(temp, parts[i..], parts[0], TempLabel) == Rebuilt(video, TempLabel)
    {
      var part := parts[i];
      assert parts[i..][1..] == parts[i + 1..];
      if Contains(part, VideoExt) {
        output := output + Sep + OutputLabel + part;
        temp := temp + Sep + TempLabel + part;
      } else if part == parts[0] {
        output := part;
        temp := part;
      } else {
        output := output + Sep + part;
        temp := temp + Sep + part;
      }
    }
    if Contains(output, "480") {
      output := ReplaceAll(output, "480", size);
    } else if Contains(output, "720") {
      output := ReplaceAll(output, "720", size);
    }
  }

  // ---------------------------------------------------------------------
  // Properties of the segment rebuild
  // ---------------------------------------------------------------------

  /** The temporary path does not depend on the size token. */
  lemma TempIndependentOfSize(video: string, size1: string, size2: string)
    ensures OutputPaths(video, size1).temp == OutputPaths(video, size2).temp
  {
  }

  /** Running the loop over `xs` and then `ys` is running it over `xs + ys`. */
  lemma {:induction false} RebuildConcat(acc: string, xs: seq<string>, ys: seq<string>, first: string, tag: string)
    ensures Rebuild(acc, xs + ys, first, tag) == Rebuild(Rebuild(acc, xs, first, tag), ys, first, tag)
    decreases |xs|
  {
    if xs != [] {
      assert (xs + ys)[0] == xs[0];
      assert (xs + ys)[1..] == xs[1..] + ys;
      RebuildConcat(Step(acc, xs[0], first, tag), xs[1..], ys, first, tag);
    } else {
      assert xs + ys == ys;
    }
  }

  /** Without video segments the label never shows, whatever it is. */
  lemma {:induction false} RebuildIgnoresTag(acc: string, parts: seq<string>, first: string, tag1: string, tag2: string)
    requires forall i :: 0 <= i < |parts| ==> !IsVideoSegment(parts[i])
    ensures Rebuild(acc, parts, first, tag1) == Rebuild(acc, parts, first, tag2)
    decreases |parts|
  {
    if parts != [] {
      assert Step(acc, parts[0], first, tag1) == Step(acc, parts[0], first, tag2);
      RebuildIgnoresTag(Step(acc, parts[0], first, tag1), parts[1..], first, tag1, tag2);
    }
  }

  /**
    Output and temporary path are built from the same segments: when no
    segment names a video, the output path before substitution is the
    temporary path.
  */
  lemma NoVideoSegmentSamePaths(video: string)
    requires forall i :: 0 <= i < |Segments(video)| ==> !IsVideoSegment(Segments(video)[i])
    ensures Rebuilt(video, OutputLabel) == Rebuilt(video, TempLabel)
  {
    var parts := Segments(video);
    RebuildIgnoresTag("", parts, parts[0], OutputLabel, TempLabel);
  }

  /**
    A later non-video segment equal to the first one resets both paths: the
    result is what the segments from that one onwards alone would give, so
    every earlier segment is lost.
  */
  lemma ResetForgetsEarlierSegments(video: string, j: nat, tag: string)
    requires 0 < j < |Segments(video)|
    requires Segments(video)[j] == Segments(video)[0] && !IsVideoSegment(Segments(video)[j])
    ensures Rebuilt(video, tag) == Rebuild("", Segments(video)[j..], Segments(video)[0], tag)
  {
    var parts := Segments(video);
    var first := parts[0];
    assert parts == parts[..j] + parts[j..];
    RebuildConcat("", parts[..j], parts[j..], first, tag);
    var acc := Rebuild("", parts[..j], first, tag);
    assert Step(acc, parts[j], first, tag) == Step("", parts[j], first, tag);
  }

  /** The segments with the label in front of every video segment. */
  function Labelled(parts: seq<string>, tag: string): (r: seq<string>)
    ensures |r| == |parts|
  {
    seq(|parts|, i requires 0 <= i < |parts| =>
      if IsVideoSegment(parts[i]) then tag + parts[i] else parts[i])
  }

  /** No non-video segment of `parts` equals `first`. */
  predicate NoReset(parts: seq<string>, first: string) {
    forall i :: 0 <= i < |parts| ==> IsVideoSegment(parts[i]) || parts[i] != first
  }

  /** Without resets, the loop appends every labelled segment after a separator. */
  lemma {:induction false} RebuildAppends(acc: string, parts: seq<string>, first: string, tag: string)
    requires |parts| > 0 && NoReset(parts, first)
    ensures Rebuild(acc, parts, first, tag) == acc + Sep + Join(Labelled(parts, tag), Sep)
    decreases |parts|
  {
    var lab := Labelled(parts, tag);
    var next := Step(acc, parts[0], first, tag);
    assert next == acc + Sep + lab[0];
    if |parts| > 1 {
      RebuildAppends(next, parts[1..], first, tag);
      assert Labelled(parts[1..], tag) == lab[1..];
      assert Join(lab, Sep) == lab[0] + Sep + Join(lab[1..], Sep);
    }
  }

  /**
    For a path whose first segment is not a video and is not repeated, the
    loop rebuilds the path by joining the segments with `\`, each video
    segment carrying the label.
  */
  lemma RebuiltIsJoin(video: string, tag: string)
    requires !IsVideoSegment(Segments(video)[0])
    requires NoReset(Segments(video)[1..], Segments(video)[0])
    ensures Rebuilt(video, tag) == Join(Labelled(Segments(video), tag), Sep)
  {
    var parts := Segments(video);
    var lab := Labelled(parts, tag);
    assert Rebuilt(video, tag) == Rebuild(parts[0], parts[1..], parts[0], tag);
    if |parts| > 1 {
      RebuildAppends(parts[0], parts[1..], parts[0], tag);
      assert Labelled(parts[1..], tag) == lab[1..];
      assert Join(lab, Sep) == lab[0] + Sep + Join(lab[1..], Sep);
    }
  }

  /**
    For such a path with no video segment at all, both rebuilt paths are the
    source path with every `/` turned into `\`.
  */
  lemma PlainPathRebuiltAsNormalized(video: string, tag: string)
    requires forall i :: 0 <= i < |Segments(video)| ==> !IsVideoSegment(Segments(video)[i])
    requires NoReset(Segments(video)[1..], Segments(video)[0])
    ensures Rebuilt(video, tag) == Normalize(video)
  {
    var parts := Segments(video);
    RebuiltIsJoin(video, tag);
    assert Labelled(parts, tag) == parts;
    JoinSplit(Normalize(video), Sep);
  }

  /**
    A bare file name (no separator of either kind) that names a video gets a
    leading `\`: the loop appends it to the empty accumulator.
  */
  lemma BareVideoNameGetsLeadingSeparator(video: string, tag: string)
    requires !Contains(video, "/") && !Contains(video, Sep) && IsVideoSegment(video)
    ensures Rebuilt(video, tag) == Sep + tag + video
  {
    ReplaceAllAbsent(video, "/", Sep);
    SplitAbsent(video, Sep);
    var parts := Segments(video);
    assert parts == [video] && parts[1..] == [];
    assert Step("", video, video, tag) == Sep + tag + video;
    calc {
      Rebuilt(video, tag);
      Rebuild("", parts, video, tag);
      Rebuild(Step("", parts[0], video, tag), parts[1..], video, tag);
      Rebuild(Sep + tag + video, [], video, tag);
    }
  }

  /**
    A bare file name that names no video is rebuilt as itself: its only
    segment equals the first segment, so it replaces the empty accumulator.
  */
  lemma BareOtherNameRebuiltAsItself(video: string, tag: string)
    requires !Contains(video, "/") && !Contains(video, Sep) && !IsVideoSegment(video)
    ensures Rebuilt(video, tag) == video
  {
    ReplaceAllAbsent(video, "/", Sep);
    SplitAbsent(video, Sep);
    var parts := Segments(video);
    assert parts == [video] && parts[1..] == [];
    assert Rebuilt(video, tag) == Rebuild(Step("", video, video, tag), [], video, tag);
  }

  // ---------------------------------------------------------------------
  // Properties of the resolution substitution
  // ---------------------------------------------------------------------

  /** A string that contains `p` splits on `p` into at least two pieces. */
  lemma {:induction false} SplitContainsCount(s: string, p: string)
    requires |p| > 0 && Contains(s, p)
    ensures |Split(s, p)| >= 2
    decreases |s|
  {
    if !StartsWith(s, p) {
      SplitContainsCount(s[1..], p);
    } else if s[|p|..] == [] {
      assert Split(s, p) == [[]] + Split([], p);
    }
  }

  /** A join of two or more pieces contains the separator. */
  lemma JoinContainsSep(parts: seq<string>, sep: string)
    requires |parts| >= 2
    ensures Contains(Join(parts, sep), sep)
  {
    var j := Join(parts, sep);
    assert j == parts[0] + sep + Join(parts[1..], sep);
    assert j[|parts[0]|..|parts[0]| + |sep|] == sep;
    OccursContains(j, sep, |parts[0]|);
  }

  /**
    The substitution, stated through the pieces between the tokens: with a
    `480` in the output, the output is the join by `480` of `480`-free
    pieces and the result joins the same pieces by `size`; failing that the
    same holds for `720`; with neither, the output is kept for every size.
    Whenever a token was present, the result then contains `size`.
  */
  lemma SubstitutePrecedence(output: string, size: string)
    ensures var r := Substitute(output, size);
      && (Contains(output, "480") ==>
            var pieces := Split(output, "480");
            && Join(pieces, "480") == output && r == Join(pieces, size)
            && (forall i :: 0 <= i < |pieces| ==> !Contains(pieces[i], "480")))
      && (!Contains(output, "480") && Contains(output, "720") ==>
            var pieces := Split(output, "720");
            && Join(pieces, "720") == output && r == Join(pieces, size)
            && (forall i :: 0 <= i < |pieces| ==> !Contains(pieces[i], "720")))
      && (!Contains(output, "480") && !Contains(output, "720") ==> r == output)
      && (Contains(output, "480") || Contains(output, "720") ==> Contains(r, size))
  {
    if Contains(output, "480") {
      ReplaceAllSpec(output, "480", size);
      SplitContainsCount(output, "480");
      JoinContainsSep(Split(output, "480"), size);
    } else if Contains(output, "720") {
      ReplaceAllSpec(output, "720", size);
      SplitContainsCount(output, "720");
      JoinContainsSep(Split(output, "720"), size);
    }
  }

  /** Without either token, the output path is the same for every size. */
  lemma NoTokenOutputIndependentOfSize(video: string, size1: string, size2: string)
    requires !Contains(Rebuilt(video, OutputLabel), "480") && !Contains(Rebuilt(video, OutputLabel), "720")
    ensures OutputPaths(video, size1).output == OutputPaths(video, size2).output == Rebuilt(video, OutputLabel)
  {
  }

  // ---------------------------------------------------------------------
  // Properties of the separator normalisation
  // ---------------------------------------------------------------------

  /** Normalising keeps the length, turns every `/` into `\`, and keeps the rest. */
  lemma NormalizePointwise(video: string)
    ensures |Normalize(video)| == |video|
    ensures forall i :: 0 <= i < |video| ==>
      Normalize(video)[i] == if video[i] == '/' then '\\' else video[i]
  {
    ReplaceCharPointwise(video, '/', '\\');
  }

  /** The segments joined by `\` give back the normalised path. */
  lemma SegmentsJoin(video: string)
    ensures Join(Segments(video), Sep) == Normalize(video)
    ensures forall i :: 0 <= i < |Segments(video)| ==> !Contains(Segments(video)[i], Sep)
  {
    JoinSplit(Normalize(video), Sep);
    SplitPiecesFree(Normalize(video), Sep);
  }
}
