// The reconstructed tracks of a recording: sync_recorder/convert_recording_to_timeline.py,
// get_annotations_at_time and the overlay grouping.
module Overlay {
  import opened Basics
  import opened FrameResolution
  import opened Emitter

  /** A drawing command: the part its signature keeps, and the rest. */
  datatype Command = Command(signed: int, rest: int)
  type Commands = seq<Command>

  datatype HistoryEntry = HistoryEntry(t: real, commands: Commands)

  /** What was drawn on a clip's media frame, in the order it was recorded. */
  type Histories = map<(Guid, int), seq<HistoryEntry>>

  function Signature(commands: Commands): Option<seq<int>> {
    if commands == [] then None else Some(seq(|commands|, i requires 0 <= i < |commands| => commands[i].signed))
  }

  // ------------------------------------------------------------------ the drawing at a moment

  ghost predicate InOrder(history: seq<HistoryEntry>) {
    forall i, j | 0 <= i <= j < |history| :: history[i].t <= history[j].t
  }

  /** The newest entry not later than the moment; what was there before when every entry is later. */
  ghost predicate NewestNotLater(history: seq<HistoryEntry>, moment: real, before: Commands, commands: Commands) {
    || (commands == before && forall i | 0 <= i < |history| :: history[i].t > moment)
    || (exists k | 0 <= k < |history| :: Newest(history, moment, k) && history[k].commands == commands)
  }

  ghost predicate Newest(history: seq<HistoryEntry>, moment: real, k: nat) {
    k < |history| && history[k].t <= moment && forall i | k < i < |history| :: history[i].t > moment
  }

  function HistoryOf(histories: Histories, guid: Guid, frame: int): seq<HistoryEntry> {
    if (guid, frame) in histories then histories[(guid, frame)] else []
  }

  /** get_annotations_at_time. */
  method AnnotationsAt(histories: Histories, guid: Guid, frame: int, moment: real) returns (active: Commands)
    ensures active == ActiveAt(HistoryOf(histories, guid, frame), moment)
    ensures DrawnAt(histories, guid, frame, moment, active)
  {
    DrawnIsActive(histories, guid, frame, moment);
    var history := HistoryOf(histories, guid, frame);
    active := [];
    for n := 0 to |history|
      invariant ActiveAt(history, moment) == ActiveFrom(history[n..], moment, active)
    {
      assert history[n..][1..] == history[n + 1..];
      if history[n].t > moment {
        return;
      }
      active := history[n].commands;
    }
  }

  function ActiveFrom(history: seq<HistoryEntry>, moment: real, before: Commands): Commands {
    if history == [] || history[0].t > moment then before
    else ActiveFrom(history[1..], moment, history[0].commands)
  }

  /** The entry before the first one that is too late. */
  function ActiveAt(history: seq<HistoryEntry>, moment: real): Commands {
    ActiveFrom(history, moment, [])
  }

  lemma {:induction false} ActiveIsNewest(history: seq<HistoryEntry>, moment: real, before: Commands)
    requires InOrder(history)
    ensures NewestNotLater(history, moment, before, ActiveFrom(history, moment, before))
  {
    if history != [] && history[0].t <= moment {
      var rest := history[1..];
      ActiveIsNewest(rest, moment, history[0].commands);
      if k :| 0 <= k < |rest| && Newest(rest, moment, k) && rest[k].commands == ActiveFrom(history, moment, before) {
        assert Newest(history, moment, k + 1);
      } else {
        assert Newest(history, moment, 0);
      }
    }
  }

  /** What a clip's media frame shows at a moment: the entry before the first one that is later, if there is one. */
  ghost predicate DrawnAt(histories: Histories, guid: Guid, frame: int, moment: real, commands: Commands) {
    if (guid, frame) !in histories then commands == []
    else exists n: nat :: Passed(histories[(guid, frame)], moment, n)
                          && commands == if n == 0 then [] else histories[(guid, frame)][n - 1].commands
  }

  /** The first n entries are not later than the moment and the next one is. */
  ghost predicate Passed(history: seq<HistoryEntry>, moment: real, n: nat) {
    && n <= |history| && (forall i | 0 <= i < n :: history[i].t <= moment)
    && (n < |history| ==> history[n].t > moment)
  }

  lemma {:induction false} ActiveIsPassed(history: seq<HistoryEntry>, moment: real, before: Commands)
    ensures exists n: nat :: Passed(history, moment, n)
                             && ActiveFrom(history, moment, before) == if n == 0 then before else history[n - 1].commands
  {
    if history == [] || history[0].t > moment {
      assert Passed(history, moment, 0);
    } else {
      var rest := history[1..];
      ActiveIsPassed(rest, moment, history[0].commands);
      var n: nat :| Passed(rest, moment, n)
                    && ActiveFrom(rest, moment, history[0].commands)
                       == if n == 0 then history[0].commands else rest[n - 1].commands;
      assert Passed(history, moment, n + 1);
    }
  }

  lemma DrawnIsActive(histories: Histories, guid: Guid, frame: int, moment: real)
    ensures DrawnAt(histories, guid, frame, moment, ActiveAt(HistoryOf(histories, guid, frame), moment))
  {
    ActiveIsPassed(HistoryOf(histories, guid, frame), moment, []);
  }

  // ------------------------------------------------------------------ frames and groups

  datatype FrameInfo = FrameInfo(frame: int, signature: Option<seq<int>>, commands: Commands)

  /** The middle of output frame k, in recording time. */
  function MidTime(s: VisualSegment, k: nat): real
    requires s.fps > 0.0
  {
    s.startT + (k as real + 0.5) / s.fps
  }

  /** Output frame k of a segment: the media frame on screen and the drawing at the middle of that frame. */
  function InfoAt(s: VisualSegment, histories: Histories, k: nat): FrameInfo
    requires s.fps > 0.0 && s.clip.Clip?
  {
    var frame := if s.playing then s.startFrame + k else s.startFrame;
    var moment := MidTime(s, k);
    var commands := ActiveAt(HistoryOf(histories, s.clip.guid, frame), moment);
    FrameInfo(frame, Signature(commands), commands)
  }

  /** Two drawings with the same signature, command by command. */
  predicate LooksAlike(a: Commands, b: Commands) {
    |a| == |b| && forall i | 0 <= i < |a| :: a[i].signed == b[i].signed
  }

  lemma AlikeIffSigned(a: Commands, b: Commands)
    ensures Signature(a) == Signature(b) <==> LooksAlike(a, b)
  {
    if a != [] && b != [] {
      var x, y := Signature(a).value, Signature(b).value;
      assert |x| == |a| && |y| == |b|;
      assert forall i | 0 <= i < |a| && i < |b| :: x[i] == a[i].signed && y[i] == b[i].signed;
      assert LooksAlike(a, b) ==> x == y;
    }
  }

  /** What output frame k of a segment draws: on its media frame, at the middle of the output frame. */
  ghost predicate FrameDraws(s: VisualSegment, histories: Histories, k: nat, commands: Commands)
    requires s.fps > 0.0 && s.clip.Clip?
  {
    DrawnAt(histories, s.clip.guid, if s.playing then s.startFrame + k else s.startFrame,
            s.startT + (k as real + 0.5) / s.fps, commands)
  }

  lemma InfoIsDrawn(s: VisualSegment, histories: Histories, k: nat)
    requires s.fps > 0.0 && s.clip.Clip?
    ensures InfoAt(s, histories, k).frame == if s.playing then s.startFrame + k else s.startFrame
    ensures FrameDraws(s, histories, k, InfoAt(s, histories, k).commands)
  {
    DrawnIsActive(histories, s.clip.guid, InfoAt(s, histories, k).frame, MidTime(s, k));
  }

  /**
   * With a history in the order of its times, output frame k shows the newest entry for its media frame that is not
   * later than the middle of the output frame, and nothing when there is no such entry.
   */
  lemma FrameShowsNewest(s: VisualSegment, histories: Histories, k: nat, commands: Commands)
    requires s.fps > 0.0 && s.clip.Clip? && FrameDraws(s, histories, k, commands)
    requires var key := (s.clip.guid, if s.playing then s.startFrame + k else s.startFrame);
             key in histories ==> InOrder(histories[key])
    ensures var key := (s.clip.guid, if s.playing then s.startFrame + k else s.startFrame);
            var middle := s.startT + (k as real + 0.5) / s.fps;
            if key in histories && exists i :: 0 <= i < |histories[key]| && histories[key][i].t <= middle
            then exists n :: 0 <= n < |histories[key]| && histories[key][n].commands == commands
                             && histories[key][n].t <= middle
                             && forall i | n < i < |histories[key]| :: histories[key][i].t > middle
            else commands == []
  {
    var key := (s.clip.guid, if s.playing then s.startFrame + k else s.startFrame);
    var middle := s.startT + (k as real + 0.5) / s.fps;
    if key in histories {
      var n: nat :| Passed(histories[key], middle, n) && commands == if n == 0 then [] else histories[key][n - 1].commands;
      assert forall i | n <= i < |histories[key]| :: histories[key][i].t > middle;
      assert n > 0 ==> histories[key][n - 1].t <= middle;
    }
  }

  method FrameInfos(s: VisualSegment, histories: Histories) returns (infos: seq<FrameInfo>)
    requires s.fps > 0.0 && s.clip.Clip?
    ensures |infos| == s.frames
    ensures forall k | 0 <= k < s.frames ::
              && infos[k] == InfoAt(s, histories, k)
              && infos[k].frame == (if s.playing then s.startFrame + k else s.startFrame)
              && FrameDraws(s, histories, k, infos[k].commands)
  {
    infos := [];
    for k := 0 to s.frames
      invariant |infos| == k
      invariant forall j | 0 <= j < k :: infos[j] == InfoAt(s, histories, j)
    {
      var frame := if s.playing then s.startFrame + k else s.startFrame;
      var commands := AnnotationsAt(histories, s.clip.guid, frame, MidTime(s, k));
      infos := infos + [FrameInfo(frame, Signature(commands), commands)];
    }
    forall k | 0 <= k < s.frames ensures FrameDraws(s, histories, k, infos[k].commands) {
      InfoIsDrawn(s, histories, k);
    }
  }

  function Flatten<T>(parts: seq<seq<T>>): seq<T> {
    if parts == [] then [] else Flatten(parts[..|parts| - 1]) + parts[|parts| - 1]
  }

  /** Nonempty runs of one signature, no two neighbours alike: nothing could be merged. */
  ghost predicate MaximalRuns(groups: seq<seq<FrameInfo>>) {
    && (forall i | 0 <= i < |groups| :: Uniform(groups[i]))
    && (forall i | 0 < i < |groups| :: groups[i - 1][0].signature != groups[i][0].signature)
  }

  ghost predicate Uniform(group: seq<FrameInfo>) {
    group != [] && forall j | 0 <= j < |group| :: group[j].signature == group[0].signature
  }

  /** The finished groups and the open one, over the frames seen so far. */
  ghost predicate Grouped(groups: seq<seq<FrameInfo>>, current: seq<FrameInfo>, seen: seq<FrameInfo>) {
    && Flatten(groups) + current == seen && MaximalRuns(groups)
    && (current != [] ==> Uniform(current))
    && (groups != [] ==> current != [] && groups[|groups| - 1][0].signature != current[0].signature)
  }

  function GroupingStep(groups: seq<seq<FrameInfo>>, current: seq<FrameInfo>, info: FrameInfo)
    : (seq<seq<FrameInfo>>, seq<FrameInfo>)
  {
    if current == [] then (groups, [info])
    else if current[0].signature == info.signature then (groups, current + [info])
    else (groups + [current], [info])
  }

  lemma OneMoreFrame(groups: seq<seq<FrameInfo>>, current: seq<FrameInfo>, seen: seq<FrameInfo>, info: FrameInfo)
    requires Grouped(groups, current, seen)
    ensures var next := GroupingStep(groups, current, info); Grouped(next.0, next.1, seen + [info])
  {
  }

  lemma LastGroupCloses(groups: seq<seq<FrameInfo>>, current: seq<FrameInfo>, seen: seq<FrameInfo>)
    requires Grouped(groups, current, seen)
    ensures var all := if current != [] then groups + [current] else groups;
            Flatten(all) == seen && MaximalRuns(all)
  {
  }

  /** Group consecutive frames with the same signature. */
  method GroupFrames(infos: seq<FrameInfo>) returns (groups: seq<seq<FrameInfo>>)
    ensures Flatten(groups) == infos && MaximalRuns(groups)
  {
    groups := [];
    var current: seq<FrameInfo> := [];
    assert infos[..0] == [];
    for n := 0 to |infos|
      invariant Grouped(groups, current, infos[..n])
    {
      var info := infos[n];
      OneMoreFrame(groups, current, infos[..n], info);
      assert infos[..n + 1] == infos[..n] + [info];
      if current == [] {
        current := [info];
      } else if current[0].signature == info.signature {
        current := current + [info];
      } else {
        groups, current := groups + [current], [info];
      }
    }
    assert infos[..|infos|] == infos;
    LastGroupCloses(groups, current, infos);
    if current != [] {
      groups := groups + [current];
    }
  }

  /** Maximal runs are determined by the frames: two groupings of one list are the same. */
  lemma {:induction false} GroupingIsUnique(a: seq<seq<FrameInfo>>, b: seq<seq<FrameInfo>>)
    requires MaximalRuns(a) && MaximalRuns(b) && Flatten(a) == Flatten(b)
    ensures a == b
  {
    if a != [] && b != [] {
      var x, y := a[|a| - 1], b[|b| - 1];
      LastRunIsMaximal(a);
      LastRunIsMaximal(b);
      var all := Flatten(a);
      assert |x| == |y|;
      assert x == all[|all| - |x|..] && y == all[|all| - |y|..];
      assert Flatten(a[..|a| - 1]) == all[..|all| - |x|] && Flatten(b[..|b| - 1]) == all[..|all| - |y|];
      GroupingIsUnique(a[..|a| - 1], b[..|b| - 1]);
      assert a == a[..|a| - 1] + [x] && b == b[..|b| - 1] + [y];
    }
  }

  /** The last run is the longest suffix of one signature. */
  lemma LastRunIsMaximal(groups: seq<seq<FrameInfo>>)
    requires MaximalRuns(groups) && groups != []
    ensures var all, m := Flatten(groups), |groups[|groups| - 1]|;
            && 0 < m <= |all|
            && (forall j | |all| - m <= j < |all| :: all[j].signature == all[|all| - 1].signature)
            && (m < |all| ==> all[|all| - m - 1].signature != all[|all| - 1].signature)
  {
  }

  // ------------------------------------------------------------------ the two tracks

  datatype BackgroundClip = BackgroundClip(clip: Item, startFrame: int, frames: nat, frozen: bool)

  datatype OverlayItem =
    | OverlayGap(frames: nat)
    | OverlayImage(startFrame: int, commands: Commands, frames: nat)

  /** The signature each overlay item shows on each of its frames. */
  function Shown(item: OverlayItem): seq<Option<seq<int>>> {
    seq(item.frames, i => if item.OverlayGap? then None else Signature(item.commands))
  }

  function ShownAll(items: seq<OverlayItem>): seq<Option<seq<int>>> {
    if items == [] then [] else ShownAll(items[..|items| - 1]) + Shown(items[|items| - 1])
  }

  function Signatures(infos: seq<FrameInfo>): seq<Option<seq<int>>> {
    seq(|infos|, i requires 0 <= i < |infos| => infos[i].signature)
  }

  /** What a run is drawn as: a gap when it has no drawing, one held image otherwise. */
  function Drawn(group: seq<FrameInfo>): OverlayItem
    requires group != []
  {
    if group[0].signature.None? then OverlayGap(|group|) else OverlayImage(group[0].frame, group[0].commands, |group|)
  }

  /** The item shows, for as many frames as the run has, the signature the run has. */
  ghost predicate Shows(item: OverlayItem, group: seq<FrameInfo>) {
    group != [] && Shown(item) == Signatures(group)
  }

  method DrawGroups(groups: seq<seq<FrameInfo>>) returns (part: seq<OverlayItem>)
    requires forall i | 0 <= i < |groups| :: groups[i] != [] && Shows(Drawn(groups[i]), groups[i])
    ensures |part| == |groups| && ShownAll(part) == Signatures(Flatten(groups))
    ensures forall i | 0 <= i < |part| :: groups[i] != [] && part[i] == Drawn(groups[i])
  {
    part := [];
    assert groups[..0] == [];
    for n := 0 to |groups|
      invariant |part| == n && ShownAll(part) == Signatures(Flatten(groups[..n]))
      invariant forall i | 0 <= i < n :: groups[i] != [] && part[i] == Drawn(groups[i])
    {
      var group := groups[n];
      ShownThrough(groups, n, part);
      part := part + [if group[0].signature.None? then OverlayGap(|group|)
                      else OverlayImage(group[0].frame, group[0].commands, |group|)];
    }
    assert groups[..|groups|] == groups;
  }

  lemma ShownThrough(groups: seq<seq<FrameInfo>>, n: nat, part: seq<OverlayItem>)
    requires n < |groups| && groups[n] != [] && Shows(Drawn(groups[n]), groups[n])
    requires ShownAll(part) == Signatures(Flatten(groups[..n]))
    ensures ShownAll(part + [Drawn(groups[n])]) == Signatures(Flatten(groups[..n + 1]))
  {
    var group := groups[n];
    assert groups[..n + 1] == groups[..n] + [group];
    SignaturesOf(Flatten(groups[..n]), group);
  }

  lemma {:induction false} InFlattened<T>(parts: seq<seq<T>>, n: nat, j: nat)
    requires n < |parts| && j < |parts[n]|
    ensures parts[n][j] in Flatten(parts)
  {
    if n < |parts| - 1 {
      InFlattened(parts[..|parts| - 1], n, j);
    }
  }

  /** A run is drawn right: its frames share one signature, and its first frame's commands have that signature. */
  lemma {:induction false} RunIsShown(groups: seq<seq<FrameInfo>>, n: nat)
    requires n < |groups| && Uniform(groups[n])
    requires forall info | info in Flatten(groups) :: info.signature == Signature(info.commands)
    ensures Shows(Drawn(groups[n]), groups[n])
  {
    var group := groups[n];
    InFlattened(groups, n, 0);
    assert group[0].signature == Signature(group[0].commands);
    assert Signatures(group) == seq(|group|, i => group[0].signature);
  }

  /** As many overlay frames as the segment has, each showing the signature of the frame beneath it. */
  ghost predicate Covers(part: seq<OverlayItem>, s: VisualSegment, histories: Histories) {
    && s.fps > 0.0 && s.clip.Clip? && |ShownAll(part)| == s.frames
    && forall k | 0 <= k < s.frames :: ShownAll(part)[k] == InfoAt(s, histories, k).signature
  }

  lemma SignaturesOf(a: seq<FrameInfo>, b: seq<FrameInfo>)
    ensures Signatures(a + b) == Signatures(a) + Signatures(b)
  {
  }

  // ------------------------------------------------------------------ what the items show

  /** Where item i starts, in output frames. */
  function StartOf(part: seq<OverlayItem>, i: nat): nat
    requires i <= |part|
  {
    if i == 0 then 0 else StartOf(part, i - 1) + part[i - 1].frames
  }

  /** Under a gap nothing is drawn; under an image the drawing looks like the image. */
  ghost predicate ShowsFrame(item: OverlayItem, s: VisualSegment, histories: Histories, k: nat)
    requires s.fps > 0.0 && s.clip.Clip?
  {
    exists drawn :: FrameDraws(s, histories, k, drawn)
                    && if item.OverlayGap? then drawn == [] else drawn != [] && LooksAlike(drawn, item.commands)
  }

  ghost predicate ChangesAt(s: VisualSegment, histories: Histories, k: nat)
    requires s.fps > 0.0 && s.clip.Clip? && k > 0
  {
    exists before, after :: FrameDraws(s, histories, k - 1, before) && FrameDraws(s, histories, k, after)
                            && !LooksAlike(before, after)
  }

  /**
   * The items lie end to end over the segment and show each of its frames. An image is the drawing of the item's own
   * first frame, and from one item to the next the drawing changes.
   */
  ghost predicate ShowsEachFrame(part: seq<OverlayItem>, s: VisualSegment, histories: Histories)
    requires s.fps > 0.0 && s.clip.Clip?
  {
    && StartOf(part, |part|) == s.frames
    && (forall i | 0 <= i < |part| :: part[i].frames > 0)
    && (forall i, k | 0 <= i < |part| && StartOf(part, i) <= k < StartOf(part, i) + part[i].frames ::
          ShowsFrame(part[i], s, histories, k))
    && (forall i | 0 <= i < |part| && part[i].OverlayImage? ::
          && part[i].startFrame == (if s.playing then s.startFrame + StartOf(part, i) else s.startFrame)
          && FrameDraws(s, histories, StartOf(part, i), part[i].commands))
    && (forall i | 0 < i < |part| :: StartOf(part, i) > 0 && ChangesAt(s, histories, StartOf(part, i)))
  }

  lemma {:induction false} StartIsLength(groups: seq<seq<FrameInfo>>, part: seq<OverlayItem>, i: nat)
    requires |part| == |groups| && i <= |part|
    requires forall n | 0 <= n < |part| :: part[n].frames == |groups[n]|
    ensures StartOf(part, i) == |Flatten(groups[..i])|
  {
    if i > 0 {
      StartIsLength(groups, part, i - 1);
      assert groups[..i][..i - 1] == groups[..i - 1];
    }
  }

  lemma {:induction false} FlattenPrefix<T>(parts: seq<seq<T>>, i: nat)
    requires i <= |parts|
    ensures Flatten(parts[..i]) <= Flatten(parts)
  {
    if i == |parts| {
      assert parts[..i] == parts;
    } else {
      FlattenPrefix(parts[..|parts| - 1], i);
      assert parts[..|parts| - 1][..i] == parts[..i];
    }
  }

  /** Frame j of run i lies j frames behind the start of item i. */
  lemma RunLies(groups: seq<seq<FrameInfo>>, part: seq<OverlayItem>, i: nat, j: nat)
    requires |part| == |groups| && i < |part| && j < |groups[i]|
    requires forall n | 0 <= n < |part| :: part[n].frames == |groups[n]|
    ensures StartOf(part, i) + j < |Flatten(groups)| && Flatten(groups)[StartOf(part, i) + j] == groups[i][j]
  {
    StartIsLength(groups, part, i);
    FlattenPrefix(groups, i + 1);
    assert groups[..i + 1] == groups[..i] + [groups[i]];
    assert Flatten(groups[..i + 1]) == Flatten(groups[..i]) + groups[i];
    assert Flatten(groups[..i + 1])[StartOf(part, i) + j] == groups[i][j];
  }

  /** The maximal runs of a segment's frames. */
  ghost predicate RunsOf(groups: seq<seq<FrameInfo>>, s: VisualSegment, histories: Histories)
    requires s.fps > 0.0 && s.clip.Clip?
  {
    && MaximalRuns(groups) && |Flatten(groups)| == s.frames
    && forall k | 0 <= k < s.frames :: Flatten(groups)[k] == InfoAt(s, histories, k)
  }

  lemma RunShowsFrames(
    groups: seq<seq<FrameInfo>>, part: seq<OverlayItem>, s: VisualSegment, histories: Histories, i: nat, j: nat)
    requires s.fps > 0.0 && s.clip.Clip? && RunsOf(groups, s, histories) && |part| == |groups|
    requires forall n | 0 <= n < |part| :: groups[n] != [] && part[n] == Drawn(groups[n])
    requires i < |part| && j < |groups[i]|
    ensures var k := StartOf(part, i) + j;
            k < s.frames && groups[i][j] == InfoAt(s, histories, k) && ShowsFrame(part[i], s, histories, k)
  {
    var k := StartOf(part, i) + j;
    RunLies(groups, part, i, 0);
    RunLies(groups, part, i, j);
    assert Uniform(groups[i]);
    var first, info := groups[i][0], groups[i][j];
    assert info.signature == first.signature;
    InfoIsDrawn(s, histories, k);
    AlikeIffSigned(info.commands, first.commands);
    assert FrameDraws(s, histories, k, info.commands);
  }

  lemma RunsShowEachFrame(
    groups: seq<seq<FrameInfo>>, part: seq<OverlayItem>, s: VisualSegment, histories: Histories)
    requires s.fps > 0.0 && s.clip.Clip? && RunsOf(groups, s, histories) && |part| == |groups|
    requires forall n | 0 <= n < |part| :: groups[n] != [] && part[n] == Drawn(groups[n])
    ensures ShowsEachFrame(part, s, histories)
  {
    StartIsLength(groups, part, |part|);
    assert groups[..|groups|] == groups;
    forall i, k | 0 <= i < |part| && StartOf(part, i) <= k < StartOf(part, i) + part[i].frames
      ensures ShowsFrame(part[i], s, histories, k)
    {
      RunShowsFrames(groups, part, s, histories, i, k - StartOf(part, i));
    }
    forall i | 0 <= i < |part| && part[i].OverlayImage?
      ensures part[i].startFrame == (if s.playing then s.startFrame + StartOf(part, i) else s.startFrame)
      ensures FrameDraws(s, histories, StartOf(part, i), part[i].commands)
    {
      RunShowsFrames(groups, part, s, histories, i, 0);
      InfoIsDrawn(s, histories, StartOf(part, i));
    }
    forall i | 0 < i < |part| ensures StartOf(part, i) > 0 && ChangesAt(s, histories, StartOf(part, i)) {
      RunChanges(groups, part, s, histories, i);
    }
  }

  lemma RunChanges(groups: seq<seq<FrameInfo>>, part: seq<OverlayItem>, s: VisualSegment, histories: Histories, i: nat)
    requires s.fps > 0.0 && s.clip.Clip? && RunsOf(groups, s, histories) && |part| == |groups|
    requires forall n | 0 <= n < |part| :: part[n].frames == |groups[n]|
    requires 0 < i < |part|
    ensures StartOf(part, i) > 0 && ChangesAt(s, histories, StartOf(part, i))
  {
    var before, after := groups[i - 1][|groups[i - 1]| - 1], groups[i][0];
    RunLies(groups, part, i - 1, |groups[i - 1]| - 1);
    RunLies(groups, part, i, 0);
    assert StartOf(part, i) == StartOf(part, i - 1) + |groups[i - 1]|;
    assert before.signature != after.signature by {
      assert Uniform(groups[i - 1]);
    }
    FramesDiffer(s, histories, StartOf(part, i), before, after);
  }

  lemma FramesDiffer(s: VisualSegment, histories: Histories, k: nat, before: FrameInfo, after: FrameInfo)
    requires s.fps > 0.0 && s.clip.Clip? && k > 0 && before.signature != after.signature
    requires before == InfoAt(s, histories, k - 1) && after == InfoAt(s, histories, k)
    ensures ChangesAt(s, histories, k)
  {
    InfoIsDrawn(s, histories, k - 1);
    InfoIsDrawn(s, histories, k);
    AlikeIffSigned(before.commands, after.commands);
  }

  /** The overlay of one segment: a gap for every run without a drawing, one held image for every other run. */
  method OverlaySegment(s: VisualSegment, histories: Histories)
    returns (part: seq<OverlayItem>, ghost groups: seq<seq<FrameInfo>>)
    requires s.fps > 0.0 && s.clip.Clip?
    ensures Covers(part, s, histories) && ShowsEachFrame(part, s, histories)
    ensures RunsOf(groups, s, histories) && |part| == |groups|
    ensures forall i | 0 <= i < |part| :: groups[i] != [] && part[i] == Drawn(groups[i])
  {
    var infos := FrameInfos(s, histories);
    var runs := GroupFrames(infos);
    forall n | 0 <= n < |runs| ensures Shows(Drawn(runs[n]), runs[n]) {
      RunIsShown(runs, n);
    }
    part := DrawGroups(runs);
    groups := runs;
    RunsShowEachFrame(groups, part, s, histories);
  }

  /** Segments with something to show; the rest contribute to neither track. */
  function Active(segments: seq<VisualSegment>): seq<VisualSegment> {
    if segments == [] then []
    else (if segments[0].frames > 0 then [segments[0]] else []) + Active(segments[1..])
  }

  method BackgroundTrack(segments: seq<VisualSegment>) returns (track: seq<BackgroundClip>)
    ensures |track| == |Active(segments)|
    ensures forall i | 0 <= i < |track| ::
              var s := Active(segments)[i];
              track[i] == BackgroundClip(s.clip, s.startFrame, s.frames, !s.playing)
  {
    track := [];
    for n := 0 to |segments|
      invariant track == Pictures(Active(segments[..n]))
    {
      ActiveOneMore(segments[..n], segments[n]);
      assert segments[..n + 1] == segments[..n] + [segments[n]];
      var s := segments[n];
      if s.frames > 0 {
        track := track + [BackgroundClip(s.clip, s.startFrame, s.frames, !s.playing)];
      }
    }
    assert segments[..|segments|] == segments;
  }

  function Pictures(active: seq<VisualSegment>): seq<BackgroundClip> {
    seq(|active|, i requires 0 <= i < |active| =>
      BackgroundClip(active[i].clip, active[i].startFrame, active[i].frames, !active[i].playing))
  }

  lemma {:induction false} ActiveOneMore(segments: seq<VisualSegment>, s: VisualSegment)
    ensures Active(segments + [s]) == Active(segments) + if s.frames > 0 then [s] else []
  {
    if segments == [] {
      assert [] + [s] == [s] && [s][1..] == [];
    } else {
      ActiveOneMore(segments[1..], s);
      assert (segments + [s])[1..] == segments[1..] + [s];
    }
  }

  /**
   * The overlay track, with the part each active segment contributed. Segment by segment it covers as many
   * frames as the background clip beneath it, and each of those frames shows the signature of that frame.
   */
  method OverlayTrack(segments: seq<VisualSegment>, histories: Histories)
    returns (track: seq<OverlayItem>, parts: seq<seq<OverlayItem>>)
    requires forall s | s in segments :: s.fps > 0.0 && s.clip.Clip?
    ensures track == Flatten(parts) && |parts| == |Active(segments)|
    ensures forall i | 0 <= i < |parts| ::
              && Active(segments)[i] in segments && Covers(parts[i], Active(segments)[i], histories)
              && ShowsEachFrame(parts[i], Active(segments)[i], histories)
  {
    var active := Active(segments);
    ActiveAmong(segments);
    track, parts := [], [];
    for n := 0 to |active|
      invariant track == Flatten(parts) && |parts| == n
      invariant forall i | 0 <= i < n ::
                  && active[i] in segments && Covers(parts[i], active[i], histories)
                  && ShowsEachFrame(parts[i], active[i], histories)
    {
      assert active[n] in active;
      var part, _ := OverlaySegment(active[n], histories);
      track, parts := track + part, parts + [part];
    }
  }

  lemma {:induction false} ActiveAmong(segments: seq<VisualSegment>)
    ensures forall s | s in Active(segments) :: s in segments && s.frames > 0
  {
    if segments != [] {
      ActiveAmong(segments[1..]);
    }
  }
}
