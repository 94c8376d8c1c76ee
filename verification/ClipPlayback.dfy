// Which media is on screen: the emitted segments against the clips of the track, frame by frame.
// sync_recorder/convert_recording_to_timeline.py, emit_playing, over python/otio_sync_core/frame_resolution.py.
module ClipPlayback {
  import opened Basics
  import opened FrameResolution
  import opened Emitter

  /** Every item is a clip, with this start and length of its media. */
  ghost predicate ClipsRanged(track: seq<Item>, starts: seq<int>, lengths: seq<nat>) {
    && |starts| == |lengths| == |track|
    && forall i | 0 <= i < |track| :: Ranged(track[i], starts[i], lengths[i])
  }

  /** The view of a sequence with these items, or of the one clip on its own. */
  ghost predicate Views(view: View, track: seq<Item>) {
    view == SequenceView(track) || (|track| == 1 && view == SourceView(Some(track[0])))
  }

  /** A picture is a clip of the track and the frame of its media so far in as v is behind the clip's start. */
  ghost predicate IsMediaAt(track: seq<Item>, starts: seq<int>, lengths: seq<nat>, v: int, clip: Item, media: int) {
    exists i: nat :: LiesIn(track, starts, lengths, v, i, media) && track[i] == clip
  }

  lemma EndIsSum(view: View, track: seq<Item>, starts: seq<int>, lengths: seq<nat>)
    requires ClipsRanged(track, starts, lengths) && Views(view, track)
    ensures EndFrame(view) == Sum(lengths)
  {
    LengthIsSum(track, starts, lengths);
    if view.SourceView? {
      assert lengths[..0] == [] && lengths == [] + [lengths[0]];
    }
  }

  /** Any view frame shows the media under it; outside the view, the first frame or the last. */
  lemma PictureIsMedia(view: View, track: seq<Item>, starts: seq<int>, lengths: seq<nat>, v: int)
    requires ClipsRanged(track, starts, lengths) && Views(view, track) && Sum(lengths) > 0
    ensures Picture(view, v).Shows?
    ensures var at := if v < 0 then 0 else if v < Sum(lengths) then v else Sum(lengths) - 1;
            IsMediaAt(track, starts, lengths, at, Picture(view, v).clip, Picture(view, v).media)
  {
    var at := if v < 0 then 0 else if v < Sum(lengths) then v else Sum(lengths) - 1;
    EndIsSum(view, track, starts, lengths);
    if view.SequenceView? {
      InsideResolves(track, starts, lengths, at);
      ResolvesIff(track, starts, lengths, at, Picture(view, v).clip, Picture(view, v).media);
    } else {
      assert lengths[..0] == [];
      assert LiesIn(track, starts, lengths, at, 0, Picture(view, v).media);
    }
  }

  lemma InsideResolves(track: seq<Item>, starts: seq<int>, lengths: seq<nat>, v: int)
    requires ClipsRanged(track, starts, lengths) && 0 <= v < Sum(lengths)
    ensures ResolveViewFrame(SequenceView(track), v).Shows?
  {
    forall item | item in track ensures EffectiveRange(item).Some? {
      var i :| 0 <= i < |track| && track[i] == item;
      assert Ranged(track[i], starts[i], lengths[i]);
    }
    LengthIsSum(track, starts, lengths);
    AllClipsResolve(track, v);
  }

  // ------------------------------------------------------------------ from pictures to segments

  /** The view frame k frames on from v: round and round in a loop, else up to the last frame. */
  function Reached(lengths: seq<nat>, loop: bool, v: nat, k: nat): int
    requires Sum(lengths) > 0
  {
    if loop then (v + k) % Sum(lengths) else if v + k < Sum(lengths) then v + k else Sum(lengths) - 1
  }

  /** How many frames the first j segments have. */
  function FramesBefore(segments: seq<VisualSegment>, j: nat): nat
    requires j <= |segments|
  {
    if j == 0 then 0 else FramesBefore(segments, j - 1) + segments[j - 1].frames
  }

  lemma {:induction false} ExpandedLength(segments: seq<VisualSegment>, j: nat)
    requires j <= |segments|
    ensures |ExpandAll(segments[..j])| == FramesBefore(segments, j)
  {
    if j > 0 {
      ExpandedLength(segments, j - 1);
      assert segments[..j][..j - 1] == segments[..j - 1];
    }
  }

  lemma {:induction false} ExpandedAt(segments: seq<VisualSegment>, n: nat, j: nat, i: nat)
    requires j < n <= |segments| && i < segments[j].frames
    ensures var k, s := FramesBefore(segments, j) + i, segments[j];
            && k < |ExpandAll(segments[..n])|
            && ExpandAll(segments[..n])[k] == Shows(s.clip, MediaFrame(s, i))
  {
    assert segments[..n][..n - 1] == segments[..n - 1];
    ExpandedLength(segments, j);
    if j < n - 1 {
      ExpandedAt(segments, n - 1, j, i);
    }
  }

  /**
   * Frame i of segment j, which is frame k of the playback, shows the clip and the media frame that lie under the view
   * frame reached by then; the segment starts on the wall clock where the frames before it end, and ends with its own
   * frames, or with the interval when it holds.
   */
  ghost predicate SegmentShows(
    track: seq<Item>, starts: seq<int>, lengths: seq<nat>, loop: bool, v: nat,
    segments: seq<VisualSegment>, wStart: real, wEnd: real, fps: real, j: nat)
    requires j < |segments| && Sum(lengths) > 0 && fps > 0.0
  {
    var s, before := segments[j], FramesBefore(segments, j);
    && s.startT == wStart + before as real / fps
    && s.endT == (if s.playing then wStart + (before + s.frames) as real / fps else wEnd)
    && forall i | 0 <= i < s.frames ::
         IsMediaAt(track, starts, lengths, Reached(lengths, loop, v, before + i), s.clip, MediaFrame(s, i))
  }

  /** A run moves through the media, a hold rests. */
  function MediaFrame(s: VisualSegment, i: nat): int {
    if s.playing then s.startFrame + i else s.startFrame
  }

  /**
   * The whole of it, for a sequence of clips or for one clip on its own: nothing raises, the lengths add up, and every
   * frame of every segment shows the media under the view frame that playback has reached.
   */
  lemma {:induction false} ClipPlaybackShowsMedia(
    view: View, track: seq<Item>, starts: seq<int>, lengths: seq<nat>, loop: bool, v: nat, wallFrames: nat,
    segments: seq<VisualSegment>, vf: int, raised: bool, wStart: real, wEnd: real, fps: real)
    requires ClipsRanged(track, starts, lengths) && Views(view, track) && v < Sum(lengths)
    requires wallFrames <= 100000 && fps > 0.0
    requires Timed(segments, wStart, wEnd, fps)
    requires PlayedBack(view, loop, v, wallFrames, ExpandAll(segments), vf, raised)
    ensures !raised && FramesBefore(segments, |segments|) == wallFrames && vf == Reached(lengths, loop, v, wallFrames)
    ensures forall j | 0 <= j < |segments| ::
              SegmentShows(track, starts, lengths, loop, v, segments, wStart, wEnd, fps, j)
  {
    EndIsSum(view, track, starts, lengths);
    ExpandedLength(segments, |segments|);
    assert segments[..|segments|] == segments;
    forall k: nat ensures Playhead(view, loop, v, k) == Reached(lengths, loop, v, k)
                          && Picture(view, Playhead(view, loop, v, k)).Shows? {
      PlayheadClosedForm(view, loop, v, k);
      PictureIsMedia(view, track, starts, lengths, Playhead(view, loop, v, k));
    }
    forall j | 0 <= j < |segments|
      ensures SegmentShows(track, starts, lengths, loop, v, segments, wStart, wEnd, fps, j)
    {
      SegmentIsShown(view, track, starts, lengths, loop, v, segments, wStart, wEnd, fps, j);
    }
  }

  lemma {:induction false} SegmentIsShown(
    view: View, track: seq<Item>, starts: seq<int>, lengths: seq<nat>, loop: bool, v: nat,
    segments: seq<VisualSegment>, wStart: real, wEnd: real, fps: real, j: nat)
    requires ClipsRanged(track, starts, lengths) && Views(view, track) && v < Sum(lengths) && fps > 0.0
    requires Timed(segments, wStart, wEnd, fps) && j < |segments|
    requires ExpandAll(segments) == Frames(view, loop, v, |ExpandAll(segments)|)
    ensures SegmentShows(track, starts, lengths, loop, v, segments, wStart, wEnd, fps, j)
  {
    var s, before := segments[j], FramesBefore(segments, j);
    assert segments[..|segments|] == segments;
    StartsOnTime(segments, wStart, wEnd, fps, j);
    forall i | 0 <= i < s.frames
      ensures IsMediaAt(track, starts, lengths, Reached(lengths, loop, v, before + i), s.clip, MediaFrame(s, i))
    {
      ExpandedAt(segments, |segments|, j, i);
      FrameIsMedia(view, track, starts, lengths, loop, v, |ExpandAll(segments)|, before + i);
    }
  }

  lemma {:induction false} StartsOnTime(segments: seq<VisualSegment>, wStart: real, wEnd: real, fps: real, j: nat)
    requires fps > 0.0 && Timed(segments, wStart, wEnd, fps) && j < |segments|
    ensures var s, before := segments[j], FramesBefore(segments, j);
            && s.startT == wStart + before as real / fps
            && s.endT == (if s.playing then wStart + (before + s.frames) as real / fps else wEnd)
  {
    ExpandedLength(segments, j);
    TimesAre(segments[j], FramesBefore(segments, j), wStart, wEnd, fps);
  }

  lemma {:induction false} TimesAre(s: VisualSegment, n: nat, start: real, end: real, fps: real)
    requires fps > 0.0 && s.startT == TimeAfter(start, n, fps) && s.endT == EndTime(s, n, start, end, fps)
    ensures s.startT == start + n as real / fps
    ensures s.endT == if s.playing then start + (n + s.frames) as real / fps else end
  {
  }

  lemma FrameIsMedia(
    view: View, track: seq<Item>, starts: seq<int>, lengths: seq<nat>, loop: bool, v: nat, n: nat, k: nat)
    requires ClipsRanged(track, starts, lengths) && Views(view, track) && v < Sum(lengths) && k < n
    ensures |Frames(view, loop, v, n)| == n && Frames(view, loop, v, n)[k].Shows?
    ensures var shown := Frames(view, loop, v, n)[k];
            IsMediaAt(track, starts, lengths, Reached(lengths, loop, v, k), shown.clip, shown.media)
  {
    EndIsSum(view, track, starts, lengths);
    FramesAt(view, loop, v, n, k);
    PlayheadClosedForm(view, loop, v, k);
    PictureIsMedia(view, track, starts, lengths, Reached(lengths, loop, v, k));
  }

  // ------------------------------------------------------------------ where it is cut

  /** Segment j plays on to the end of the clip that it begins in. */
  ghost predicate PlaysToTheEnd(
    lengths: seq<nat>, loop: bool, v: nat, segments: seq<VisualSegment>, j: nat)
    requires j < |segments| && Sum(lengths) > 0
  {
    var at := Reached(lengths, loop, v, FramesBefore(segments, j));
    exists x: nat :: x < |lengths| && Sum(lengths[..x]) <= at < Sum(lengths[..x + 1]) == at + segments[j].frames
  }

  /**
   * The playback is cut only where it must be: every segment but the last plays its clip to the end. When looping nothing
   * is ever held; else a segment is a hold exactly when the last frame of the view has been shown before it, and then it
   * is the last one.
   */
  lemma {:induction false} CutsAtClips(
    view: View, track: seq<Item>, starts: seq<int>, lengths: seq<nat>, loop: bool, v: nat, wallFrames: nat,
    segments: seq<VisualSegment>, j: nat)
    requires ClipsRanged(track, starts, lengths) && Views(view, track) && v < Sum(lengths)
    requires FramesBefore(segments, |segments|) == wallFrames && CutAsTaken(view, loop, v, wallFrames, segments)
    requires j < |segments|
    ensures segments[j].playing <==> loop || v + FramesBefore(segments, j) < Sum(lengths)
    ensures j < |segments| - 1 ==> segments[j].playing && PlaysToTheEnd(lengths, loop, v, segments, j)
  {
    EndIsSum(view, track, starts, lengths);
    HoldsPastTheEnd(view, lengths, loop, v, wallFrames, segments, j);
    assert CutAt(view, loop, v, wallFrames, segments, j);
    if j < |segments| - 1 {
      RunIsTaken(view, loop, v, wallFrames, segments, j);
      HeadIsReached(view, lengths, loop, v, segments, j);
      TakesTheClip(view, track, starts, lengths, HeadAt(view, loop, v, segments, j),
                   wallFrames - FramesBefore(segments, j), segments[j].frames);
    }
  }

  lemma {:induction false} HoldsPastTheEnd(
    view: View, lengths: seq<nat>, loop: bool, v: nat, wallFrames: nat, segments: seq<VisualSegment>, j: nat)
    requires EndFrame(view) == Sum(lengths) && v < Sum(lengths) && CutAsTaken(view, loop, v, wallFrames, segments)
    requires j < |segments|
    ensures segments[j].playing <==> loop || v + FramesBefore(segments, j) < Sum(lengths)
  {
    assert CutAt(view, loop, v, wallFrames, segments, j);
    if j > 0 {
      HoldsPastTheEnd(view, lengths, loop, v, wallFrames, segments, j - 1);
      assert CutAt(view, loop, v, wallFrames, segments, j - 1);
      RunBefore(view, lengths, loop, v, segments, j);
    }
  }

  /** A run that another segment follows takes less than what is left. */
  lemma {:induction false} RunIsTaken(view: View, loop: bool, v: nat, wallFrames: nat, segments: seq<VisualSegment>, j: nat)
    requires CutAsTaken(view, loop, v, wallFrames, segments) && j < |segments| - 1
    ensures segments[j].playing && FramesBefore(segments, j) + segments[j].frames < wallFrames
    ensures segments[j].frames
         == Take(view, HeadAt(view, loop, v, segments, j), wallFrames - FramesBefore(segments, j))
  {
    assert CutAt(view, loop, v, wallFrames, segments, j) && CutAt(view, loop, v, wallFrames, segments, j + 1);
    ExpandedLength(segments, j);
    ExpandedLength(segments, j + 1);
  }

  lemma {:induction false} HeadIsReached(view: View, lengths: seq<nat>, loop: bool, v: nat, segments: seq<VisualSegment>, j: nat)
    requires EndFrame(view) == Sum(lengths) && v < Sum(lengths) && j <= |segments|
    ensures HeadAt(view, loop, v, segments, j) == Reached(lengths, loop, v, FramesBefore(segments, j))
    ensures 0 <= HeadAt(view, loop, v, segments, j) < Sum(lengths)
  {
    ExpandedLength(segments, j);
    PlayheadClosedForm(view, loop, v, FramesBefore(segments, j));
  }

  /** Without a loop a run ends the view exactly when, counted from the start, the frames through it reach the end. */
  lemma {:induction false} RunBefore(view: View, lengths: seq<nat>, loop: bool, v: nat, segments: seq<VisualSegment>, j: nat)
    requires 0 < j < |segments| && EndFrame(view) == Sum(lengths) && v < Sum(lengths)
    requires loop || v + FramesBefore(segments, j - 1) < Sum(lengths)
    ensures EndsView(view, loop, v, segments, j - 1) <==> !loop && v + FramesBefore(segments, j) >= Sum(lengths)
  {
    ExpandedLength(segments, j - 1);
    PlayheadClosedForm(view, loop, v, FramesBefore(segments, j - 1));
  }

  lemma {:induction false} TakesTheClip(
    view: View, track: seq<Item>, starts: seq<int>, lengths: seq<nat>, at: int, left: nat, taken: nat)
    requires ClipsRanged(track, starts, lengths) && Views(view, track) && 0 <= at < Sum(lengths) && taken < left
    requires taken == Take(view, at, left)
    ensures exists x: nat :: x < |lengths| && Sum(lengths[..x]) <= at < Sum(lengths[..x + 1]) == at + taken
  {
    EndIsSum(view, track, starts, lengths);
    if view.SequenceView? {
      InsideResolves(track, starts, lengths, at);
      var x := ItemAtLies(track, starts, lengths, at);
      assert lengths[..x + 1][..x] == lengths[..x];
      PrefixIsLess(lengths, x + 1);
      assert ItemLength(track[x]) == lengths[x];
    } else {
      assert lengths[..0] == [] && lengths[..1] == lengths;
    }
  }

  lemma {:induction false} PrefixIsLess(numbers: seq<nat>, n: nat)
    requires n <= |numbers|
    ensures Sum(numbers[..n]) <= Sum(numbers)
  {
    if n == |numbers| {
      assert numbers[..n] == numbers;
    } else {
      PrefixIsLess(numbers[..|numbers| - 1], n);
      assert numbers[..|numbers| - 1][..n] == numbers[..n];
    }
  }
}
