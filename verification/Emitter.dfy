// Playback segments of a recording: sync_recorder/convert_recording_to_timeline.py, flush and emit_playing.
module Emitter {
  import opened Basics
  import opened FrameResolution

  datatype VisualSegment = VisualSegment(
    clip: Item, startFrame: int, fps: real, startT: real, endT: real, playing: bool, frames: nat)

  const GUARD: nat := 100000

  // ------------------------------------------------------------------ frame by frame

  /** The picture for a playhead, which is clamped into the view. */
  function Picture(view: View, v: int): Resolution {
    var end := EndFrame(view);
    ResolveViewFrame(view, if end == 0 then v else if v < 0 then 0 else if v >= end then end - 1 else v)
  }

  /** One frame on: past the last frame a loop restarts and anything else holds. */
  function Following(view: View, loop: bool, v: int): int {
    var end := EndFrame(view);
    if end == 0 || v + 1 < end then v + 1 else if loop then 0 else end - 1
  }

  function Playhead(view: View, loop: bool, v: int, n: nat): int {
    if n == 0 then v else Following(view, loop, Playhead(view, loop, v, n - 1))
  }

  /** The first n pictures of playing on from v. */
  function Frames(view: View, loop: bool, v: int, n: nat): seq<Resolution> {
    if n == 0 then [] else Frames(view, loop, v, n - 1) + [Picture(view, Playhead(view, loop, v, n - 1))]
  }

  lemma {:induction false} FramesAt(view: View, loop: bool, v: int, n: nat, k: nat)
    requires k < n
    ensures |Frames(view, loop, v, n)| == n
    ensures Frames(view, loop, v, n)[k] == Picture(view, Playhead(view, loop, v, k))
  {
    if k < n - 1 {
      FramesAt(view, loop, v, n - 1, k);
    } else if n > 1 {
      FramesAt(view, loop, v, n - 1, 0);
    }
  }

  /** In range, the playhead is arithmetic: it wraps modulo the length, or stops at the last frame. */
  lemma {:induction false} PlayheadClosedForm(view: View, loop: bool, v: nat, n: nat)
    requires v < EndFrame(view)
    ensures Playhead(view, loop, v, n)
            == if loop then (v + n) % EndFrame(view)
               else if v + n < EndFrame(view) then v + n else EndFrame(view) - 1
  {
    var end := EndFrame(view);
    if n == 0 {
      ModOf(v, 0, v, end);
    } else {
      PlayheadClosedForm(view, loop, v, n - 1);
      if loop {
        ModSuccessor(v + n - 1, end);
        assert v + n - 1 + 1 == v + n;
      }
    }
  }

  lemma ModSuccessor(a: nat, m: nat)
    requires m > 0
    ensures (a + 1) % m == if a % m + 1 < m then a % m + 1 else 0
  {
    var q, r := a / m, a % m;
    if r + 1 < m {
      ModOf(a + 1, q, r + 1, m);
    } else {
      ModOf(a + 1, q + 1, 0, m);
    }
  }

  lemma ModOf(a: int, q: int, r: int, m: nat)
    requires m > 0 && 0 <= r < m && a == q * m + r
    ensures a % m == r
  {
    var k := a / m - q;
    assert k * m == r - a % m;
    AtLeastOneTimes(k, m);
    AtLeastOneTimes(-k, m);
  }

  lemma AtLeastOneTimes(k: int, m: nat)
    ensures k >= 1 ==> k * m >= m
  {
  }

  // ------------------------------------------------------------------ segments

  /** The pictures a segment puts on screen: a playing run advances, a freeze repeats. */
  function Expand(s: VisualSegment): seq<Resolution> {
    seq(s.frames, i => Shows(s.clip, if s.playing then s.startFrame + i else s.startFrame))
  }

  function ExpandAll(segments: seq<VisualSegment>): seq<Resolution> {
    if segments == [] then []
    else ExpandAll(segments[..|segments| - 1]) + Expand(segments[|segments| - 1])
  }

  lemma ExpandOneMore(segments: seq<VisualSegment>, s: VisualSegment)
    ensures ExpandAll(segments + [s]) == ExpandAll(segments) + Expand(s)
  {
    assert (segments + [s])[..|segments|] == segments;
  }

  /** Wall time after n frames. */
  function TimeAfter(start: real, n: int, fps: real): real
    requires fps > 0.0
  {
    start + n as real / fps
  }

  /** Each segment starts where the frames before it end on the wall clock; a run ends with its frames, a hold at the end. */
  ghost predicate Timed(segments: seq<VisualSegment>, start: real, end: real, fps: real)
    requires fps > 0.0
  {
    forall i | 0 <= i < |segments| ::
      && segments[i].fps == fps
      && segments[i].startT == TimeAfter(start, |ExpandAll(segments[..i])|, fps)
      && segments[i].endT == EndTime(segments[i], |ExpandAll(segments[..i])|, start, end, fps)
  }

  function EndTime(s: VisualSegment, done: nat, start: real, end: real, fps: real): real
    requires fps > 0.0
  {
    if s.playing then TimeAfter(start, done + s.frames, fps) else end
  }

  lemma {:induction false} TimedOneMore(segments: seq<VisualSegment>, s: VisualSegment, start: real, end: real, fps: real)
    requires fps > 0.0 && Timed(segments, start, end, fps)
    requires s.fps == fps && s.startT == TimeAfter(start, |ExpandAll(segments)|, fps)
    requires s.endT == EndTime(s, |ExpandAll(segments)|, start, end, fps)
    ensures Timed(segments + [s], start, end, fps)
  {
    var all := segments + [s];
    forall i | 0 <= i < |all|
      ensures && all[i].fps == fps && all[i].startT == TimeAfter(start, |ExpandAll(all[..i])|, fps)
              && all[i].endT == EndTime(all[i], |ExpandAll(all[..i])|, start, end, fps)
    {
      assert all[..i] == segments[..i];
      if i == |segments| {
        assert segments[..i] == segments;
      }
    }
  }

  /** View frame at which the clip under v ends. */
  function ClipViewEnd(view: View, v: int): int {
    match view
    case SourceView(_) => EndFrame(view)
    case SequenceView(track) =>
      var found := ItemAt(track, if v < 0 then 0 else if v >= EndFrame(view) then EndFrame(view) - 1 else v);
      if found.None? then v + 1 else found.value.1 + ItemLength(found.value.0)
  }

  /** How far one segment may run from v. */
  function Take(view: View, v: int, framesLeft: nat): nat
    requires framesLeft > 0
  {
    var end := EndFrame(view);
    var clipLeft := if ClipViewEnd(view, v) - v > 1 then ClipViewEnd(view, v) - v else 1;
    var viewLeft := if end == 0 then framesLeft else if end - v > 1 then end - v else 1;
    if framesLeft <= clipLeft && framesLeft <= viewLeft then framesLeft
    else if clipLeft <= viewLeft then clipLeft
    else viewLeft
  }

  /** Within one segment the playhead simply counts, and so does the media frame. */
  lemma {:induction false} SegmentIsStraight(view: View, loop: bool, v: int, framesLeft: nat, i: nat)
    requires framesLeft > 0 && i < Take(view, v, framesLeft) && Picture(view, v).Shows?
    requires v >= 0 || EndFrame(view) == 0 || i == 0
    ensures Playhead(view, loop, v, i) == v + i
    ensures Picture(view, v + i) == Shows(Picture(view, v).clip, Picture(view, v).media + i)
  {
    if i > 0 {
      SegmentIsStraight(view, loop, v, framesLeft, i - 1);
      if view.SequenceView? {
        ItemAtSpans(view.track, v);
        assert v + i < EndFrame(view);
      }
    }
  }

  lemma {:induction false} PlayheadAdds(view: View, loop: bool, v: int, a: nat, b: nat)
    ensures Playhead(view, loop, v, a + b) == Playhead(view, loop, Playhead(view, loop, v, a), b)
  {
    if b > 0 {
      PlayheadAdds(view, loop, v, a, b - 1);
    }
  }

  lemma {:induction false} FramesAdd(view: View, loop: bool, v: int, a: nat, b: nat)
    ensures Frames(view, loop, v, a + b)
            == Frames(view, loop, v, a) + Frames(view, loop, Playhead(view, loop, v, a), b)
  {
    if b > 0 {
      FramesAdd(view, loop, v, a, b - 1);
      PlayheadAdds(view, loop, v, a, b - 1);
    }
  }

  /** A segment taken from v expands to the frames played from v. */
  lemma SegmentPlaysFrames(view: View, loop: bool, v: int, framesLeft: nat, s: VisualSegment)
    requires framesLeft > 0 && Picture(view, v).Shows?
    requires v >= 0 || EndFrame(view) == 0 || Take(view, v, framesLeft) == 1
    requires s.playing && s.frames == Take(view, v, framesLeft)
    requires s.clip == Picture(view, v).clip && s.startFrame == Picture(view, v).media
    ensures Expand(s) == Frames(view, loop, v, s.frames)
  {
    var frames := Frames(view, loop, v, s.frames);
    FramesAt(view, loop, v, s.frames, 0);
    forall i | 0 <= i < s.frames ensures |frames| == s.frames && frames[i] == Expand(s)[i] {
      FramesAt(view, loop, v, s.frames, i);
      SegmentIsStraight(view, loop, v, framesLeft, i);
    }
  }

  /** Holding: from the last frame, without a loop, every frame is the last picture. */
  lemma {:induction false} HoldRepeats(view: View, v: int, n: nat)
    requires EndFrame(view) > 0 && v == EndFrame(view) - 1
    ensures Playhead(view, false, v, n) == v
    ensures Frames(view, false, v, n) == seq(n, i => Picture(view, v))
  {
    if n > 0 {
      HoldRepeats(view, v, n - 1);
    }
  }

  // ------------------------------------------------------------------ progress of the emitter

  /** The playhead starts inside the view or after it, or too little is played for that to show. */
  predicate Sound(view: View, v: int, wallFrames: nat) {
    v >= 0 || EndFrame(view) == 0 || wallFrames <= 1
  }

  /** What has been emitted after `done` frames, with the playhead now at `vf`. */
  ghost predicate Progress(
    view: View, loop: bool, v: int, wallFrames: nat, emitted: seq<VisualSegment>, done: nat, vf: int)
  {
    var shown := ExpandAll(emitted);
    && |shown| == done <= wallFrames
    && (Sound(view, v, wallFrames) ==> shown == Frames(view, loop, v, done) && vf == Playhead(view, loop, v, done))
    && (!Sound(view, v, wallFrames) && done == 0 ==> vf == v)
    && (!Sound(view, v, wallFrames) && done > 0 ==>
          done >= 2 && shown[0] == Picture(view, v) && shown[0].Shows? && shown[1] == shown[0].(media := shown[0].media + 1))
  }

  lemma SegmentMakesProgress(
    view: View, loop: bool, v: int, wallFrames: nat, emitted: seq<VisualSegment>, done: nat, vf: int, s: VisualSegment)
    requires Progress(view, loop, v, wallFrames, emitted, done, vf) && done < wallFrames
    requires Picture(view, vf).Shows? && s.playing && s.frames == Take(view, vf, wallFrames - done)
    requires s.clip == Picture(view, vf).clip && s.startFrame == Picture(view, vf).media
    ensures Progress(view, loop, v, wallFrames, emitted + [s], done + s.frames, Following(view, loop, vf + s.frames - 1))
  {
    ExpandOneMore(emitted, s);
    if Sound(view, v, wallFrames) {
      SoundSegmentMakesProgress(view, loop, v, wallFrames, done, vf, s);
    } else if done == 0 {
      LateStartRunsOn(view, v, wallFrames);
    }
  }

  lemma SoundSegmentMakesProgress(
    view: View, loop: bool, v: int, wallFrames: nat, done: nat, vf: int, s: VisualSegment)
    requires Sound(view, v, wallFrames) && vf == Playhead(view, loop, v, done) && done < wallFrames
    requires Picture(view, vf).Shows? && s.playing && s.frames == Take(view, vf, wallFrames - done)
    requires s.clip == Picture(view, vf).clip && s.startFrame == Picture(view, vf).media
    ensures Frames(view, loop, v, done + s.frames) == Frames(view, loop, v, done) + Expand(s)
    ensures Playhead(view, loop, v, done + s.frames) == Following(view, loop, vf + s.frames - 1)
  {
    SoundStartIsStraight(view, loop, v, wallFrames, done);
    FramesAdd(view, loop, v, done, s.frames);
    SegmentPlaysFrames(view, loop, vf, wallFrames - done, s);
    PlayheadAfterSegment(view, loop, v, done, wallFrames - done);
  }

  lemma SoundStartIsStraight(view: View, loop: bool, v: int, wallFrames: nat, done: nat)
    requires Sound(view, v, wallFrames) && done < wallFrames
    ensures var vf := Playhead(view, loop, v, done);
            vf >= 0 || EndFrame(view) == 0 || Take(view, vf, wallFrames - done) == 1
  {
    if wallFrames > 1 {
      PlayheadStaysSound(view, loop, v, done);
    }
  }

  lemma PlayheadAfterSegment(view: View, loop: bool, v: int, done: nat, framesLeft: nat)
    requires framesLeft > 0
    requires var vf := Playhead(view, loop, v, done);
             Picture(view, vf).Shows? && (vf >= 0 || EndFrame(view) == 0 || Take(view, vf, framesLeft) == 1)
    ensures var vf := Playhead(view, loop, v, done);
            var take := Take(view, vf, framesLeft);
            Playhead(view, loop, v, done + take) == Following(view, loop, vf + take - 1)
  {
    var vf := Playhead(view, loop, v, done);
    var take := Take(view, vf, framesLeft);
    SegmentIsStraight(view, loop, vf, framesLeft, take - 1);
    PlayheadAdds(view, loop, v, done, take);
  }

  lemma {:induction false} PlayheadStaysSound(view: View, loop: bool, v: int, n: nat)
    requires v >= 0 || EndFrame(view) == 0
    ensures Playhead(view, loop, v, n) >= 0 || EndFrame(view) == 0
  {
    if n > 0 {
      PlayheadStaysSound(view, loop, v, n - 1);
    }
  }

  /** Before the view the first segment takes at least two frames of the first clip. */
  lemma LateStartRunsOn(view: View, v: int, wallFrames: nat)
    requires !Sound(view, v, wallFrames) && Picture(view, v).Shows?
    ensures Take(view, v, wallFrames) >= 2
  {
    if view.SequenceView? {
      ItemAtSpans(view.track, 0);
    }
  }

  lemma HoldMakesProgress(
    view: View, v: int, wallFrames: nat, emitted: seq<VisualSegment>, done: nat, s: VisualSegment)
    requires EndFrame(view) > 0 && Picture(view, EndFrame(view) - 1).Shows? && 0 < done
    requires Progress(view, false, v, wallFrames, emitted, done, EndFrame(view) - 1)
    requires !s.playing && s.frames == wallFrames - done
    requires s.clip == Picture(view, EndFrame(view) - 1).clip && s.startFrame == Picture(view, EndFrame(view) - 1).media
    ensures Progress(view, false, v, wallFrames, emitted + [s], wallFrames, EndFrame(view) - 1)
  {
    ExpandOneMore(emitted, s);
    if Sound(view, v, wallFrames) {
      FramesAdd(view, false, v, done, s.frames);
      PlayheadAdds(view, false, v, done, s.frames);
      HoldRepeats(view, EndFrame(view) - 1, s.frames);
      assert Expand(s) == seq(s.frames, i => Picture(view, EndFrame(view) - 1));
    }
  }

  /** Whether playing from v reaches an unresolvable frame within n. */
  ghost predicate Stumbles(view: View, loop: bool, v: int, n: nat) {
    exists k | 0 <= k < n :: Picture(view, Playhead(view, loop, v, k)).Unresolvable?
  }

  /**
   * What emitting `wallFrames` frames from playhead v must have shown, ending at playhead vf: the
   * frame-by-frame playback if, and unless something raised only if, the start was sound. Only the iteration
   * guard stops it early, and it raises exactly on a frame that resolves to nothing.
   */
  ghost predicate PlayedBack(
    view: View, loop: bool, v: int, wallFrames: nat, shown: seq<Resolution>, vf: int, raised: bool)
  {
    && |shown| <= wallFrames
    && (if raised then vf == v && |shown| < wallFrames else |shown| == wallFrames || |shown| >= GUARD)
    && (Sound(view, v, wallFrames) ==>
          && shown == Frames(view, loop, v, |shown|)
          && !Stumbles(view, loop, v, |shown|)
          && (if raised then Stumbles(view, loop, v, |shown| + 1) else vf == Playhead(view, loop, v, |shown|)))
    && (!Sound(view, v, wallFrames) && !raised ==> shown != Frames(view, loop, v, |shown|))
  }

  lemma SoundDoesNotStumble(view: View, loop: bool, v: int, emitted: seq<VisualSegment>, done: nat)
    requires ExpandAll(emitted) == Frames(view, loop, v, done)
    ensures !Stumbles(view, loop, v, done)
  {
    ExpandShows(emitted);
    forall k | 0 <= k < done ensures Picture(view, Playhead(view, loop, v, k)).Shows? {
      FramesAt(view, loop, v, done, k);
      assert ExpandAll(emitted)[k].Shows?;
    }
  }

  lemma FinishedPlayback(
    view: View, loop: bool, v: int, wallFrames: nat, emitted: seq<VisualSegment>, done: nat, vf: int)
    requires Progress(view, loop, v, wallFrames, emitted, done, vf) && (done == wallFrames || done >= GUARD)
    ensures PlayedBack(view, loop, v, wallFrames, ExpandAll(emitted), vf, false)
  {
    if Sound(view, v, wallFrames) {
      SoundDoesNotStumble(view, loop, v, emitted, done);
    } else {
      FramesAt(view, loop, v, done, 1);
      assert Playhead(view, loop, v, 0) == v && Playhead(view, loop, v, 1) == v + 1;
    }
  }

  lemma RaisedPlayback(
    view: View, loop: bool, v: int, wallFrames: nat, emitted: seq<VisualSegment>, done: nat, vf: int)
    requires Progress(view, loop, v, wallFrames, emitted, done, vf) && done < wallFrames
    requires Picture(view, vf).Unresolvable?
    ensures PlayedBack(view, loop, v, wallFrames, ExpandAll(emitted), v, true)
  {
    if Sound(view, v, wallFrames) {
      SoundDoesNotStumble(view, loop, v, emitted, done);
      assert Picture(view, Playhead(view, loop, v, done)).Unresolvable?;
    }
  }

  lemma {:induction false} ExpandShows(segments: seq<VisualSegment>)
    ensures forall k | 0 <= k < |ExpandAll(segments)| :: ExpandAll(segments)[k].Shows?
  {
    if segments != [] {
      ExpandShows(segments[..|segments| - 1]);
    }
  }

  /** The loop variables of emit_playing. */
  datatype Course = Course(emitted: seq<VisualSegment>, done: nat, vf: int)

  ghost predicate OnCourse(view: View, loop: bool, v: int, wallFrames: nat, c: Course) {
    Progress(view, loop, v, wallFrames, c.emitted, c.done, c.vf)
  }

  /** A run from the playhead, as far as it may go. */
  predicate IsRun(view: View, wallFrames: nat, c: Course, s: VisualSegment)
    requires c.done < wallFrames
  {
    && Picture(view, c.vf) == Shows(s.clip, s.startFrame)
    && s.playing && s.frames == Take(view, c.vf, wallFrames - c.done)
  }

  /** A hold of the picture under the playhead for all that is left. */
  predicate IsHold(view: View, wallFrames: nat, c: Course, s: VisualSegment) {
    Picture(view, c.vf) == Shows(s.clip, s.startFrame) && !s.playing && c.done + s.frames == wallFrames
  }

  /** Behind a run the playhead wraps or rests on the last frame at the end of the view. */
  function AfterRun(view: View, loop: bool, c: Course, s: VisualSegment): Course {
    Course(c.emitted + [s], c.done + s.frames, Following(view, loop, c.vf + s.frames - 1))
  }

  function AfterHold(c: Course, s: VisualSegment): Course {
    Course(c.emitted + [s], c.done + s.frames, c.vf)
  }

  /** The run that has just been taken reached the end of a view that does not loop, with frames left over. */
  predicate MustHold(view: View, loop: bool, wallFrames: nat, before: Course, after: Course) {
    !loop && EndFrame(view) > 0 && after.vf == EndFrame(view) - 1 && after.done < wallFrames
    && before.vf + (after.done - before.done) >= EndFrame(view)
  }

  /** One more run keeps the emitter on course. */
  lemma RunStaysOnCourse(view: View, loop: bool, v: int, wallFrames: nat, c: Course, s: VisualSegment)
    requires OnCourse(view, loop, v, wallFrames, c) && c.done < wallFrames && IsRun(view, wallFrames, c, s)
    ensures OnCourse(view, loop, v, wallFrames, AfterRun(view, loop, c, s))
  {
    var after := AfterRun(view, loop, c, s);
    SegmentMakesProgress(view, loop, v, wallFrames, c.emitted, c.done, c.vf, s);
    assert Progress(view, loop, v, wallFrames, after.emitted, after.done, after.vf);
  }

  lemma HoldStaysOnCourse(view: View, loop: bool, v: int, wallFrames: nat, c: Course, s: VisualSegment)
    requires OnCourse(view, loop, v, wallFrames, c) && IsHold(view, wallFrames, c, s)
    requires 0 < c.done < wallFrames && !loop && EndFrame(view) > 0 && c.vf == EndFrame(view) - 1
    ensures OnCourse(view, loop, v, wallFrames, AfterHold(c, s))
  {
    HoldMakesProgress(view, v, wallFrames, c.emitted, c.done, s);
  }

  lemma CourseEnds(view: View, loop: bool, v: int, wallFrames: nat, c: Course, raised: bool)
    requires OnCourse(view, loop, v, wallFrames, c)
    requires if raised then c.done < wallFrames && Picture(view, c.vf).Unresolvable?
             else c.done == wallFrames || c.done >= GUARD
    ensures PlayedBack(view, loop, v, wallFrames, ExpandAll(c.emitted), if raised then v else c.vf, raised)
  {
    if raised {
      RaisedPlayback(view, loop, v, wallFrames, c.emitted, c.done, c.vf);
    } else {
      FinishedPlayback(view, loop, v, wallFrames, c.emitted, c.done, c.vf);
    }
  }

  // ------------------------------------------------------------------ where the playback is cut

  /** The playhead at which segment i begins. */
  function HeadAt(view: View, loop: bool, v: int, emitted: seq<VisualSegment>, i: nat): int
    requires i <= |emitted|
  {
    Playhead(view, loop, v, |ExpandAll(emitted[..i])|)
  }

  /** The run i reaches the end of a view that does not loop. */
  ghost predicate EndsView(view: View, loop: bool, v: int, emitted: seq<VisualSegment>, i: nat)
    requires i < |emitted|
  {
    !loop && EndFrame(view) > 0 && HeadAt(view, loop, v, emitted, i) + emitted[i].frames >= EndFrame(view)
  }

  /** Every run goes as far as one may, and only behind the one that ends the view comes a hold, for all that is left. */
  ghost predicate CutAt(view: View, loop: bool, v: int, wallFrames: nat, emitted: seq<VisualSegment>, i: nat)
    requires i < |emitted|
  {
    var before := |ExpandAll(emitted[..i])|;
    && before < wallFrames
    && (if emitted[i].playing then emitted[i].frames == Take(view, HeadAt(view, loop, v, emitted, i), wallFrames - before)
        else i == |emitted| - 1 && before + emitted[i].frames == wallFrames)
    && (emitted[i].playing <==> i == 0 || !EndsView(view, loop, v, emitted, i - 1))
  }

  ghost predicate CutAsTaken(view: View, loop: bool, v: int, wallFrames: nat, emitted: seq<VisualSegment>) {
    forall i | 0 <= i < |emitted| :: CutAt(view, loop, v, wallFrames, emitted, i)
  }

  /** In the middle of it: all runs so far, none of them the last there can be. */
  ghost predicate Cutting(view: View, loop: bool, v: int, wallFrames: nat, c: Course) {
    && CutAsTaken(view, loop, v, wallFrames, c.emitted)
    && (c.done < wallFrames ==>
          && (forall i | 0 <= i < |c.emitted| :: c.emitted[i].playing)
          && (c.emitted != [] ==> !EndsView(view, loop, v, c.emitted, |c.emitted| - 1)))
  }

  lemma {:induction false} OneMoreCut(
    view: View, loop: bool, v: int, wallFrames: nat, emitted: seq<VisualSegment>, s: VisualSegment)
    requires CutAsTaken(view, loop, v, wallFrames, emitted) && forall i | 0 <= i < |emitted| :: emitted[i].playing
    requires var before := |ExpandAll(emitted)|;
             && before < wallFrames
             && (if s.playing then s.frames == Take(view, Playhead(view, loop, v, before), wallFrames - before)
                 else before + s.frames == wallFrames)
    requires s.playing <==> emitted == [] || !EndsView(view, loop, v, emitted, |emitted| - 1)
    ensures CutAsTaken(view, loop, v, wallFrames, emitted + [s])
  {
    var all, n := emitted + [s], |emitted|;
    forall i | 0 <= i < |all| ensures CutAt(view, loop, v, wallFrames, all, i) {
      if i < n {
        assert CutAt(view, loop, v, wallFrames, emitted, i);
        EarlierCut(view, loop, v, wallFrames, emitted, s, i);
      } else {
        assert all[..n] == emitted && all[i] == s;
        if n > 0 {
          SameEnd(view, loop, v, emitted, s, n - 1);
        }
      }
    }
  }

  lemma EarlierCut(
    view: View, loop: bool, v: int, wallFrames: nat, emitted: seq<VisualSegment>, s: VisualSegment, i: nat)
    requires i < |emitted| && emitted[i].playing && CutAt(view, loop, v, wallFrames, emitted, i)
    ensures CutAt(view, loop, v, wallFrames, emitted + [s], i)
  {
    assert (emitted + [s])[..i] == emitted[..i];
    if i > 0 {
      SameEnd(view, loop, v, emitted, s, i - 1);
    }
  }

  lemma SameEnd(view: View, loop: bool, v: int, emitted: seq<VisualSegment>, s: VisualSegment, i: nat)
    requires i < |emitted|
    ensures EndsView(view, loop, v, emitted + [s], i) == EndsView(view, loop, v, emitted, i)
  {
    assert (emitted + [s])[..i] == emitted[..i];
  }

  lemma {:induction false} RunIsCut(view: View, loop: bool, v: int, wallFrames: nat, c: Course, s: VisualSegment)
    requires Cutting(view, loop, v, wallFrames, c) && c.done < wallFrames && IsRun(view, wallFrames, c, s)
    requires |ExpandAll(c.emitted)| == c.done && c.vf == Playhead(view, loop, v, c.done)
    ensures var after := AfterRun(view, loop, c, s);
            && CutAsTaken(view, loop, v, wallFrames, after.emitted)
            && (forall i | 0 <= i < |after.emitted| :: after.emitted[i].playing)
            && (after.done < wallFrames ==>
                  (EndsView(view, loop, v, after.emitted, |after.emitted| - 1) <==> MustHold(view, loop, wallFrames, c, after)))
  {
    OneMoreCut(view, loop, v, wallFrames, c.emitted, s);
    assert (c.emitted + [s])[..|c.emitted|] == c.emitted;
  }

  /** The loop invariant of emit_playing. */
  ghost predicate Emitting(view: View, loop: bool, v: int, wallFrames: nat, c: Course) {
    && OnCourse(view, loop, v, wallFrames, c)
    && (Sound(view, v, wallFrames) ==> Cutting(view, loop, v, wallFrames, c))
  }

  /** On course, the playback so far cut as it should be, and due for a hold. */
  ghost predicate Resting(view: View, loop: bool, v: int, wallFrames: nat, c: Course) {
    && OnCourse(view, loop, v, wallFrames, c)
    && 0 < c.done < wallFrames && !loop && EndFrame(view) > 0 && c.vf == EndFrame(view) - 1
    && (Sound(view, v, wallFrames) ==>
          && CutAsTaken(view, loop, v, wallFrames, c.emitted) && (forall i | 0 <= i < |c.emitted| :: c.emitted[i].playing)
          && c.emitted != [] && EndsView(view, loop, v, c.emitted, |c.emitted| - 1))
  }

  /** Behind a run the emitter goes on, unless a hold must follow. */
  lemma {:induction false} RunGoesOn(view: View, loop: bool, v: int, wallFrames: nat, c: Course, s: VisualSegment)
    requires Emitting(view, loop, v, wallFrames, c) && c.done < wallFrames && IsRun(view, wallFrames, c, s)
    ensures var after := AfterRun(view, loop, c, s);
            if MustHold(view, loop, wallFrames, c, after) then Resting(view, loop, v, wallFrames, after)
            else Emitting(view, loop, v, wallFrames, after)
  {
    RunStaysOnCourse(view, loop, v, wallFrames, c, s);
    if Sound(view, v, wallFrames) {
      RunIsCut(view, loop, v, wallFrames, c, s);
    }
  }

  lemma {:induction false} HoldGoesOn(view: View, loop: bool, v: int, wallFrames: nat, c: Course, s: VisualSegment)
    requires Resting(view, loop, v, wallFrames, c) && IsHold(view, wallFrames, c, s)
    ensures Emitting(view, loop, v, wallFrames, AfterHold(c, s))
  {
    HoldStaysOnCourse(view, loop, v, wallFrames, c, s);
    if Sound(view, v, wallFrames) {
      OneMoreCut(view, loop, v, wallFrames, c.emitted, s);
    }
  }

  /** One turn of the loop of emit_playing: a run and, at the end of a view that does not loop, a hold. */
  method PlayOn(
    view: View, loop: bool, ghost v: int, wStart: real, wEnd: real, wallFrames: nat, fps: real, c: Course)
    returns (next: Course, raised: bool)
    requires fps > 0.0 && Emitting(view, loop, v, wallFrames, c) && Timed(c.emitted, wStart, wEnd, fps)
    requires c.done < wallFrames
    ensures Timed(next.emitted, wStart, wEnd, fps) && OnCourse(view, loop, v, wallFrames, next)
    ensures Sound(view, v, wallFrames) ==> CutAsTaken(view, loop, v, wallFrames, next.emitted)
    ensures if raised then next.done < wallFrames && Picture(view, next.vf).Unresolvable?
            else Emitting(view, loop, v, wallFrames, next) && next.done > c.done
  {
    var shown := Picture(view, c.vf);
    if shown.Unresolvable? {
      return c, true;
    }
    var take := Take(view, c.vf, wallFrames - c.done);
    var run := VisualSegment(shown.clip, shown.media, fps, TimeAfter(wStart, c.done, fps),
                             TimeAfter(wStart, c.done + take, fps), true, take);
    RunGoesOn(view, loop, v, wallFrames, c, run);
    TimedOneMore(c.emitted, run, wStart, wEnd, fps);
    next := AfterRun(view, loop, c, run);
    if MustHold(view, loop, wallFrames, c, next) {
      shown := Picture(view, next.vf);
      if shown.Unresolvable? {
        return next, true;
      }
      var hold := VisualSegment(shown.clip, shown.media, fps, TimeAfter(wStart, next.done, fps), wEnd, false,
                                wallFrames - next.done);
      HoldGoesOn(view, loop, v, wallFrames, next, hold);
      TimedOneMore(next.emitted, hold, wStart, wEnd, fps);
      next := AfterHold(next, hold);
    }
    return next, false;
  }

  /** The loop of emit_playing; the returned playhead is the old one when a frame raises. */
  method PlayRuns(view: View, loop: bool, v: int, wStart: real, wEnd: real, wallFrames: nat, fps: real)
    returns (emitted: seq<VisualSegment>, vf: int, raised: bool)
    requires fps > 0.0
    ensures Timed(emitted, wStart, wEnd, fps)
    ensures PlayedBack(view, loop, v, wallFrames, ExpandAll(emitted), vf, raised)
    ensures Sound(view, v, wallFrames) ==> CutAsTaken(view, loop, v, wallFrames, emitted)
  {
    var c, guard := Course([], 0, v), 0;
    raised := false;
    while c.done < wallFrames && guard < GUARD
      invariant Emitting(view, loop, v, wallFrames, c) && Timed(c.emitted, wStart, wEnd, fps)
      invariant guard <= c.done
      decreases GUARD - guard
    {
      guard := guard + 1;
      c, raised := PlayOn(view, loop, v, wStart, wEnd, wallFrames, fps, c);
      if raised {
        CourseEnds(view, loop, v, wallFrames, c, true);
        return c.emitted, v, true;
      }
    }
    CourseEnds(view, loop, v, wallFrames, c, false);
    return c.emitted, c.vf, false;
  }

  /** Where in-range playback is after n frames. */
  function Counted(view: View, loop: bool, v: nat, n: nat): int
    requires EndFrame(view) > 0
  {
    if loop then (v + n) % EndFrame(view) else if v + n < EndFrame(view) then v + n else EndFrame(view) - 1
  }

  /**
   * Over a track of whole clips, from any frame inside it and for up to the guard's number of frames, the
   * emitted segments show at step k the picture of view frame (v + k) mod N when looping and min(v + k, N - 1)
   * otherwise, and the playhead ends on the matching frame. Nothing raises.
   */
  lemma ClipPlaybackIsCounted(
    track: seq<Item>, loop: bool, v: nat, wallFrames: nat, shown: seq<Resolution>, vf: int, raised: bool)
    requires AllClips(track) && v < EndFrame(SequenceView(track)) && wallFrames <= GUARD
    requires PlayedBack(SequenceView(track), loop, v, wallFrames, shown, vf, raised)
    ensures !raised && |shown| == wallFrames && vf == Counted(SequenceView(track), loop, v, wallFrames)
    ensures forall k | 0 <= k < wallFrames ::
              shown[k].Shows? && shown[k] == Picture(SequenceView(track), Counted(SequenceView(track), loop, v, k))
  {
    var view := SequenceView(track);
    forall k: nat ensures Picture(view, Playhead(view, loop, v, k)).Shows?
                          && Playhead(view, loop, v, k) == Counted(view, loop, v, k) {
      PlayheadClosedForm(view, loop, v, k);
      AllClipsResolve(track, Counted(view, loop, v, k));
    }
    forall k | 0 <= k < |shown| ensures shown[k] == Picture(view, Playhead(view, loop, v, k)) {
      FramesAt(view, loop, v, |shown|, k);
    }
  }

  // ------------------------------------------------------------------ rounding wall time to frames

  /** int(round(x)): the nearest integer, an exact half to the even neighbour. */
  function Round(x: real): (n: int)
    ensures x - 0.5 <= n as real <= x + 0.5
    ensures x == x.Floor as real + 0.5 ==> n % 2 == 0
  {
    var f := x.Floor;
    var d := x - f as real;
    if d < 0.5 || (d == 0.5 && f % 2 == 0) then f else f + 1
  }

  lemma RateOfFrames(wallDur: real, rate: real)
    requires wallDur > 0.0
    ensures Round(wallDur * rate) > 0 ==> rate > 0.0
  {
    if rate <= 0.0 {
      NotPositive(wallDur, -rate);
      assert wallDur * rate <= 0.0;
    }
  }

  lemma NotPositive(a: real, b: real)
    requires a >= 0.0 && b >= 0.0
    ensures a * b >= 0.0 && a * -b <= 0.0
  {
  }

  /** n frames of one picture. */
  function Held(picture: Resolution, n: nat): seq<Resolution> {
    seq(n, i => picture)
  }

  // ------------------------------------------------------------------ the converter

  /** The playback model and what has been emitted from it. */
  class Converter {
    /** The active timeline's media track, when there is one. */
    var activeTrack: Option<seq<Item>>
    var hasActiveTimeline: bool
    var sourceMode: bool
    var selectedClip: Option<Item>
    var playing: bool
    var loop: bool
    var viewFrame: int
    var viewRate: real
    var lastFlushT: real
    var segments: seq<VisualSegment>

    constructor (fps: real)
      ensures segments == [] && lastFlushT == 0.0 && viewFrame == 0 && loop && !playing && viewRate == fps
    {
      activeTrack, hasActiveTimeline, sourceMode, selectedClip := None, false, false, None;
      playing, loop, viewFrame, viewRate, lastFlushT, segments := false, true, 0, fps, 0.0, [];
    }

    function CurrentView(): (view: View)
      reads this
      ensures sourceMode ==> view == SourceView(selectedClip)
      ensures !sourceMode ==> view.SequenceView? && (activeTrack.Some? ==> view.track == activeTrack.value)
    {
      if sourceMode then SourceView(selectedClip)
      else SequenceView(if activeTrack.Some? then activeTrack.value else [])
    }

    /** There is something to look at: the selected clip, or the active timeline's media track. */
    predicate ViewResolvable()
      reads this
      ensures ViewResolvable() <==> (sourceMode && selectedClip.Some?) || (!sourceMode && activeTrack.Some?)
    {
      if sourceMode then selectedClip.Some? else activeTrack.Some?
    }

    /** The segments emitted since there were `before` of them. */
    function Emitted(before: nat): seq<VisualSegment>
      requires before <= |segments|
      reads this
    {
      segments[before..]
    }

    /** emit_playing: append the runs; the playhead moves only if nothing raised. */
    method EmitPlaying(wStart: real, wEnd: real, wallFrames: nat, fps: real) returns (raised: bool)
      requires fps > 0.0
      modifies this`segments, this`viewFrame
      ensures old(segments) <= segments
      ensures Timed(Emitted(|old(segments)|), wStart, wEnd, fps)
      ensures PlayedBack(CurrentView(), loop, old(viewFrame), wallFrames,
                         ExpandAll(Emitted(|old(segments)|)), viewFrame, raised)
      ensures Sound(CurrentView(), old(viewFrame), wallFrames) ==>
                CutAsTaken(CurrentView(), loop, old(viewFrame), wallFrames, Emitted(|old(segments)|))
    {
      var emitted, vf, failed := PlayRuns(CurrentView(), loop, viewFrame, wStart, wEnd, wallFrames, fps);
      segments := segments + emitted;
      assert Emitted(|old(segments)|) == emitted;
      viewFrame := vf;
      return failed;
    }

    /** The picture on screen for the whole interval. */
    method EmitFrozen(wStart: real, wEnd: real, wallFrames: nat) returns (raised: bool)
      modifies this`segments
      ensures raised <==> Picture(CurrentView(), viewFrame).Unresolvable?
      ensures segments == old(segments) +
                if raised then []
                else [VisualSegment(Picture(CurrentView(), viewFrame).clip, Picture(CurrentView(), viewFrame).media,
                                    viewRate, wStart, wEnd, false, wallFrames)]
      ensures ExpandAll(Emitted(|old(segments)|)) == Held(Picture(CurrentView(), viewFrame), if raised then 0 else wallFrames)
    {
      var resolved := Picture(CurrentView(), viewFrame);
      if resolved.Unresolvable? {
        assert Emitted(|old(segments)|) == [];
        return true;
      }
      var freeze := VisualSegment(resolved.clip, resolved.media, viewRate, wStart, wEnd, false, wallFrames);
      ExpandOneMore([], freeze);
      segments := segments + [freeze];
      assert Emitted(|old(segments)|) == [] + [freeze];
      return false;
    }

    /** Whole frames of wall time since the last flush; none when time has not advanced. */
    function WallFrames(t: real): (n: int)
      reads this
      ensures n > 0 ==> viewRate > 0.0
      ensures t <= lastFlushT ==> n == 0
      ensures t > lastFlushT ==> (t - lastFlushT) * viewRate - 0.5 <= n as real <= (t - lastFlushT) * viewRate + 0.5
    {
      var wallDur := t - lastFlushT;
      if wallDur <= 0.0 then 0
      else
        RateOfFrames(wallDur, viewRate);
        Round(wallDur * viewRate)
    }

    /**
     * flush: nothing for less than half a frame or for a view that cannot be resolved yet; one frozen run
     * while paused; the playback since the last flush while playing. A frame that resolves to nothing raises
     * and leaves the clock where it was.
     */
    method Flush(t: real) returns (raised: bool)
      modifies this`segments, this`viewFrame, this`lastFlushT
      ensures old(segments) <= segments
      ensures lastFlushT == if raised then old(lastFlushT) else t
      ensures old(WallFrames(t)) <= 0 || !hasActiveTimeline || !ViewResolvable() ==>
                !raised && segments == old(segments) && viewFrame == old(viewFrame)
      ensures old(WallFrames(t)) > 0 && hasActiveTimeline && ViewResolvable() && !playing ==>
                && viewFrame == old(viewFrame)
                && (raised <==> Picture(CurrentView(), viewFrame).Unresolvable?)
                && ExpandAll(Emitted(|old(segments)|))
                   == Held(Picture(CurrentView(), viewFrame), if raised then 0 else old(WallFrames(t)))
                && forall s | s in Emitted(|old(segments)|) ::
                     s.startT == old(lastFlushT) && s.endT == t && s.fps == viewRate && !s.playing
      ensures old(WallFrames(t)) > 0 && hasActiveTimeline && ViewResolvable() && playing ==>
                && PlayedBack(CurrentView(), loop, old(viewFrame), old(WallFrames(t)),
                              ExpandAll(Emitted(|old(segments)|)), viewFrame, raised)
                && Timed(Emitted(|old(segments)|), old(lastFlushT), t, viewRate)
                && (Sound(CurrentView(), old(viewFrame), old(WallFrames(t))) ==>
                      CutAsTaken(CurrentView(), loop, old(viewFrame), old(WallFrames(t)), Emitted(|old(segments)|)))
    {
      var wallFrames := WallFrames(t);
      if wallFrames <= 0 {
        lastFlushT := t;
        return false;
      }
      if !hasActiveTimeline || !ViewResolvable() {
        lastFlushT := t;
        return false;
      }
      if !playing {
        raised := EmitFrozen(lastFlushT, t, wallFrames);
        if raised {
          return true;
        }
      } else {
        raised := EmitPlaying(lastFlushT, t, wallFrames, viewRate);
        if raised {
          return true;
        }
      }
      lastFlushT := t;
      return false;
    }
  }
}
