// View frames to media frames: python/otio_sync_core/frame_resolution.py, in whole frames of one rate.
module FrameResolution {
  import opened Basics

  datatype Range = Range(start: int, duration: nat)

  datatype Item =
    | Clip(guid: Guid, sourceRange: Option<Range>, availableRange: Option<Range>)
    | Gap(length: nat)

  /** What is loaded: a sequence's track, or one clip on its own. */
  datatype View = SequenceView(track: seq<Item>) | SourceView(clip: Option<Item>)

  datatype Resolution = Shows(clip: Item, media: int) | Unresolvable

  /** source_range, or the media's whole range when there is none. */
  function EffectiveRange(item: Item): Option<Range> {
    if item.Gap? then None
    else if item.sourceRange.Some? then item.sourceRange
    else item.availableRange
  }

  /** The length of a track, unless some clip in it has no known range. */
  function TrackLength(track: seq<Item>): Option<nat> {
    if track == [] then Some(0)
    else
      var head := if track[0].Gap? then Some(track[0].length)
                  else if EffectiveRange(track[0]).Some? then Some(EffectiveRange(track[0]).value.duration)
                  else None;
      var rest := TrackLength(track[1..]);
      if head.Some? && rest.Some? then Some(head.value + rest.value) else None
  }

  function ItemLength(item: Item): nat {
    if item.Gap? then item.length
    else if EffectiveRange(item).Some? then EffectiveRange(item).value.duration
    else 0
  }

  /** End of the view in view frames; zero when it cannot be told. */
  function EndFrame(view: View): nat {
    match view
    case SequenceView(track) => if TrackLength(track).Some? then TrackLength(track).value else 0
    case SourceView(clip) =>
      if clip.Some? && EffectiveRange(clip.value).Some? then EffectiveRange(clip.value).value.duration else 0
  }

  /** The item under a track position and the position it starts at. */
  function ItemAt(track: seq<Item>, v: int): Option<(Item, int)> {
    if track == [] || v < 0 then None
    else if v < ItemLength(track[0]) then Some((track[0], 0))
    else
      var rest := ItemAt(track[1..], v - ItemLength(track[0]));
      if rest.None? then None else Some((rest.value.0, rest.value.1 + ItemLength(track[0])))
  }

  function ResolveViewFrame(view: View, v: int): Resolution {
    match view
    case SourceView(clip) =>
      if clip.None? || EffectiveRange(clip.value).None? then Unresolvable
      else Shows(clip.value, EffectiveRange(clip.value).value.start + v)
    case SequenceView(track) =>
      var found := if TrackLength(track).None? then None else ItemAt(track, v);
      if found.None? || EffectiveRange(found.value.0).None? then Unresolvable
      else Shows(found.value.0, EffectiveRange(found.value.0).value.start + (v - found.value.1))
  }

  lemma {:induction false} ItemAtSpans(track: seq<Item>, v: int)
    requires ItemAt(track, v).Some?
    ensures var (item, from) := ItemAt(track, v).value;
            && 0 <= from <= v < from + ItemLength(item)
            && (TrackLength(track).Some? ==> from + ItemLength(item) <= TrackLength(track).value)
            && forall w | from <= w < from + ItemLength(item) :: ItemAt(track, w) == Some((item, from))
  {
    if v >= ItemLength(track[0]) {
      ItemAtSpans(track[1..], v - ItemLength(track[0]));
      var (item, from) := ItemAt(track[1..], v - ItemLength(track[0])).value;
      forall w | from + ItemLength(track[0]) <= w < from + ItemLength(track[0]) + ItemLength(item)
        ensures ItemAt(track, w) == Some((item, from + ItemLength(track[0])))
      {
        assert ItemAt(track[1..], w - ItemLength(track[0])) == Some((item, from));
      }
    }
  }

  /** Every item is a clip whose media range is known. */
  ghost predicate AllClips(track: seq<Item>) {
    forall item | item in track :: EffectiveRange(item).Some?
  }

  lemma {:induction false} AllClipsResolve(track: seq<Item>, v: int)
    requires AllClips(track)
    ensures TrackLength(track).Some?
    ensures 0 <= v < TrackLength(track).value ==> ItemAt(track, v).Some? && ItemAt(track, v).value.0 in track
  {
    if track != [] {
      assert track[0] in track;
      AllClipsResolve(track[1..], v - ItemLength(track[0]));
    }
  }

  // ------------------------------------------------------------------ the media frame under a view frame

  /** A clip with a known media range: its source range, or what is available when it has none. */
  predicate Ranged(item: Item, start: int, length: nat) {
    && item.Clip?
    && (item.sourceRange == Some(Range(start, length))
        || (item.sourceRange.None? && item.availableRange == Some(Range(start, length))))
  }

  /** The length of every item, and where the media of each clip starts. */
  ghost predicate Measured(track: seq<Item>, starts: seq<int>, lengths: seq<nat>) {
    && |starts| == |lengths| == |track|
    && forall i | 0 <= i < |track| ::
         (track[i].Gap? && track[i].length == lengths[i]) || Ranged(track[i], starts[i], lengths[i])
  }

  /** Position v lies in item i, a clip, and so many frames into its media. */
  ghost predicate LiesIn(track: seq<Item>, starts: seq<int>, lengths: seq<nat>, v: int, i: nat, media: int) {
    && i < |track| == |starts| == |lengths| && track[i].Clip?
    && Sum(lengths[..i]) <= v < Sum(lengths[..i]) + lengths[i]
    && media == starts[i] + (v - Sum(lengths[..i]))
  }

  lemma {:induction false} LengthIsSum(track: seq<Item>, starts: seq<int>, lengths: seq<nat>)
    requires Measured(track, starts, lengths)
    ensures TrackLength(track) == Some(Sum(lengths))
  {
    if track != [] {
      LengthIsSum(track[1..], starts[1..], lengths[1..]);
      SumOneBefore(lengths[0], lengths[1..]);
      assert lengths == [lengths[0]] + lengths[1..];
    }
  }

  lemma {:induction false} ItemAtLies(track: seq<Item>, starts: seq<int>, lengths: seq<nat>, v: int) returns (i: nat)
    requires Measured(track, starts, lengths) && ItemAt(track, v).Some?
    ensures i < |track| && ItemAt(track, v) == Some((track[i], Sum(lengths[..i])))
    ensures Sum(lengths[..i]) <= v < Sum(lengths[..i]) + lengths[i]
  {
    assert ItemLength(track[0]) == lengths[0];
    if v < lengths[0] {
      i := 0;
    } else {
      var j := ItemAtLies(track[1..], starts[1..], lengths[1..], v - lengths[0]);
      i := j + 1;
      SumOneBefore(lengths[0], lengths[1..][..j]);
      assert lengths[..i] == [lengths[0]] + lengths[1..][..j];
    }
  }

  /** Every position inside has an item, and only one. */
  lemma {:induction false} LiesAtItem(track: seq<Item>, starts: seq<int>, lengths: seq<nat>, v: int, i: nat)
    requires Measured(track, starts, lengths) && i < |track|
    requires Sum(lengths[..i]) <= v < Sum(lengths[..i]) + lengths[i]
    ensures ItemAt(track, v) == Some((track[i], Sum(lengths[..i])))
  {
    assert ItemLength(track[0]) == lengths[0];
    if i > 0 {
      SumOneBefore(lengths[0], lengths[1..][..i - 1]);
      assert lengths[..i] == [lengths[0]] + lengths[1..][..i - 1];
      SumNotNegative(lengths[1..][..i - 1]);
      LiesAtItem(track[1..], starts[1..], lengths[1..], v - lengths[0], i - 1);
    }
  }

  lemma {:induction false} SumNotNegative(numbers: seq<nat>)
    ensures Sum(numbers) >= 0
  {
    if numbers != [] {
      SumNotNegative(numbers[..|numbers| - 1]);
    }
  }

  /** Which frame of which clip a sequence's view frame resolves to, if to any. */
  lemma {:induction false} ResolvesIff(
    track: seq<Item>, starts: seq<int>, lengths: seq<nat>, v: int, clip: Item, media: int)
    requires Measured(track, starts, lengths)
    ensures ResolveViewFrame(SequenceView(track), v) == Shows(clip, media)
       <==> exists i: nat :: LiesIn(track, starts, lengths, v, i, media) && track[i] == clip
  {
    LengthIsSum(track, starts, lengths);
    if ResolveViewFrame(SequenceView(track), v) == Shows(clip, media) {
      var i := ItemAtLies(track, starts, lengths, v);
      assert LiesIn(track, starts, lengths, v, i, media);
    }
    if i: nat :| LiesIn(track, starts, lengths, v, i, media) && track[i] == clip {
      LiesAtItem(track, starts, lengths, v, i);
    }
  }

  /** One clip without a known range anywhere in the track is enough for nothing to resolve. */
  lemma {:induction false} UnknownRangeResolvesNothing(track: seq<Item>, k: nat, v: int)
    requires k < |track| && track[k].Clip? && track[k].sourceRange.None? && track[k].availableRange.None?
    ensures TrackLength(track).None? && ResolveViewFrame(SequenceView(track), v).Unresolvable?
  {
    if k > 0 {
      UnknownRangeResolvesNothing(track[1..], k - 1, v);
    }
  }
}
