/**
 * Sequencing of one video: the segment clips are concatenated in plan order, the
 * video lasts the sum of their durations, and the narration audio is cut to that
 * length only when it is longer.
 */
module Sequencer {
  import opened Script

  /** A non-negative clip duration in seconds. */
  type Seconds = r: real | 0.0 <= r

  /** Where a segment sits on the video's timeline: from `start` up to (not including) `end`. */
  datatype Placement = Placement(text: string, start: nat, end: nat)

  /** Concatenation starting at time `from`: each segment begins where the previous one ends. */
  function Concatenate(plan: seq<Segment>, from: nat): (r: seq<Placement>)
    ensures |r| == |plan|
  {
    if plan == [] then []
    else
      var d := plan[0].duration;
      [Placement(plan[0].text, from, from + d)] + Concatenate(plan[1..], from + d)
  }

  /**
   * Each segment keeps its text and lasts its planned duration, the segments follow one
   * another without gap or overlap in plan order, and together they span the total.
   */
  lemma {:induction false} ConcatenateLaysOut(plan: seq<Segment>, from: nat)
    ensures var r := Concatenate(plan, from);
      && (forall i :: 0 <= i < |r| ==> r[i].text == plan[i].text && r[i].end == r[i].start + plan[i].duration)
      && Contiguous(r)
      && (|r| > 0 ==> r[0].start == from && r[|r| - 1].end == from + TotalDuration(plan))
  {
    if plan != [] {
      var d := plan[0].duration;
      var rest := Concatenate(plan[1..], from + d);
      ConcatenateLaysOut(plan[1..], from + d);
      var r := Concatenate(plan, from);
      assert r == [Placement(plan[0].text, from, from + d)] + rest;
      assert forall k :: 0 < k < |r| ==> r[k] == rest[k - 1];
    }
  }

  /** Placements that follow one another on the timeline without gap or overlap. */
  ghost predicate Contiguous(r: seq<Placement>) {
    && (forall k :: 0 <= k < |r| ==> r[k].start <= r[k].end)
    && (forall k :: 0 <= k < |r| - 1 ==> r[k].end == r[k + 1].start)
  }

  predicate Shows(p: Placement, t: nat) {
    p.start <= t < p.end
  }

  lemma {:induction false} PlacementsInOrder(r: seq<Placement>, i: nat, j: nat)
    requires Contiguous(r)
    requires i < j < |r|
    ensures r[i].end <= r[j].start
    decreases j - i
  {
    if i + 1 < j {
      PlacementsInOrder(r, i + 1, j);
    }
  }

  /** Contiguous placements from 0 up to their last end show every instant in between exactly once. */
  lemma {:induction false} ContiguousTiles(r: seq<Placement>, t: nat)
    requires Contiguous(r) && |r| > 0 && r[0].start == 0 && t < r[|r| - 1].end
    ensures exists i :: 0 <= i < |r| && Shows(r[i], t)
    ensures forall i, j :: 0 <= i < |r| && 0 <= j < |r| && Shows(r[i], t) && Shows(r[j], t) ==> i == j
  {
    // the first placement that ends after t shows t
    var i := 0;
    while r[i].end <= t
      invariant 0 <= i < |r|
      invariant r[i].start <= t
      decreases |r| - i
    {
      i := i + 1;
    }
    assert Shows(r[i], t);
    forall a, b | 0 <= a < |r| && 0 <= b < |r| && Shows(r[a], t) && Shows(r[b], t)
      ensures a == b
    {
      if a < b {
        PlacementsInOrder(r, a, b);
      } else if b < a {
        PlacementsInOrder(r, b, a);
      }
    }
  }

  /**
   * The concatenated segments tile the video: every instant before the total duration
   * is shown by exactly one segment.
   */
  lemma ConcatenationTiles(plan: seq<Segment>, t: nat)
    requires t < TotalDuration(plan)
    ensures exists i :: 0 <= i < |plan| && Shows(Concatenate(plan, 0)[i], t)
    ensures forall i, j ::
      (0 <= i < |plan| && 0 <= j < |plan| && Shows(Concatenate(plan, 0)[i], t) && Shows(Concatenate(plan, 0)[j], t))
      ==> i == j
  {
    assert plan != [];
    ConcatenateLaysOut(plan, 0);
    ContiguousTiles(Concatenate(plan, 0), t);
  }

  /** The video's length: the sum of the segment durations, not anything measured. */
  function VideoDuration(plan: seq<Segment>): Seconds {
    TotalDuration(plan) as real
  }

  /** A finished video: its length and the length of the audio attached to it. */
  datatype Track = Track(video: Seconds, audio: Seconds)

  /**
   * `set_audio` after the `audio_duration > final_duration` check: the audio is cut
   * to the video's length when longer and kept whole otherwise, so it lasts
   * min(audio, video); the video keeps its length.
   */
  function AttachAudio(video: Seconds, audio: Seconds): (t: Track)
    ensures t.video == video
    ensures t.audio <= audio && t.audio <= video
    ensures t.audio == audio || t.audio == video
    ensures t.audio < audio <==> audio > video
  {
    if audio > video then Track(video, audio := video) else Track(video, audio)
  }

  /** Attaching the already attached audio again changes nothing. */
  lemma AttachAudioIdempotent(video: Seconds, audio: Seconds)
    ensures AttachAudio(video, AttachAudio(video, audio).audio) == AttachAudio(video, audio)
  {
  }

  /** A 60-second narration over the 44-second plan is cut to exactly 44 seconds. */
  lemma LongAudioIsCut(b: Blocks)
    ensures AttachAudio(VideoDuration(Plan(b)), 60.0) == Track(44.0, 44.0)
  {
    PlanMatchesNarration(b);
  }
}
