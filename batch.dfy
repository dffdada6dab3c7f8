/**
 * The batch driver: `create_video_for_problem` as a per-problem outcome over the
 * replies of the outside services, the output file name, and `main`'s loop, which
 * attempts every selected problem once, in order, catching each failure and moving on.
 */
module Batch {
  import opened Wrappers
  import opened Problems
  import Script
  import Sequencer
  import Decimal

  /** The step of the per-problem pipeline whose outside call raised. */
  datatype Stage = SolutionStage | TipsStage | SpeechStage | RenderStage | WriteStage

  /**
   * What the outside services do for one problem: the generated explanation and tips
   * (None when the call raised), the duration of the synthesized narration (None when
   * synthesis or loading raised), and whether rendering and writing the video succeeded.
   */
  datatype Replies = Replies(
    explanation: Option<string>,
    tips: Option<string>,
    speech: Option<Sequencer.Seconds>,
    rendered: bool,
    written: bool)

  /** A written video: its path, its narration, its segment plan and its durations. */
  datatype Artifact = Artifact(fileName: string, narration: string, plan: seq<Script.Segment>, track: Sequencer.Track)

  /** The result of one iteration of the batch loop. */
  datatype Outcome = Made(artifact: Artifact) | Failed(slug: string, stage: Stage)

  const OutputDir: string := "created_vids/"

  const FilePrefix: string := "problem_"

  const FileSuffix: string := ".mp4"

  /** `created_vids/problem_<index+1>_<slug>.mp4`. */
  function OutputFileName(index: nat, slug: string): string {
    OutputDir + FilePrefix + Decimal.NatToDecimal(index + 1) + "_" + slug + FileSuffix
  }

  /** Reads the index and the slug back out of an output file name. */
  function ParseOutputFileName(name: string): Option<(nat, string)> {
    var head := OutputDir + FilePrefix;
    if |name| < |head| || name[..|head|] != head then None
    else
      var rest := name[|head|..];
      var u := Decimal.IndexOf(rest, '_');
      var digits := rest[..u];
      if u == |rest| || digits == [] || !Decimal.AllDigits(digits) then None
      else
        var n := Decimal.ParseNat(digits);
        var tail := rest[u + 1..];
        if n == 0 || |tail| < |FileSuffix| || tail[|tail| - |FileSuffix|..] != FileSuffix then None
        else Some((n - 1, tail[..|tail| - |FileSuffix|]))
  }

  /** The output file name records both the index and the slug it was made from. */
  lemma OutputFileNameRoundTrip(index: nat, slug: string)
    ensures ParseOutputFileName(OutputFileName(index, slug)) == Some((index, slug))
  {
    var head := OutputDir + FilePrefix;
    var digits := Decimal.NatToDecimal(index + 1);
    var name := OutputFileName(index, slug);
    assert name == head + (digits + ['_'] + (slug + FileSuffix));
    var rest := name[|head|..];
    assert rest == digits + ['_'] + (slug + FileSuffix);
    Decimal.IndexOfAfterDigits(digits, '_', slug + FileSuffix);
    assert rest[..|digits|] == digits;
    Decimal.ParseNatInverts(index + 1);
    var tail := rest[|digits| + 1..];
    assert tail == slug + FileSuffix;
    assert tail[..|tail| - |FileSuffix|] == slug;
  }

  /** Videos for different positions of the batch never overwrite each other, whatever the slugs. */
  lemma OutputFileNamesDistinct(i: nat, j: nat, s: string, t: string)
    requires i != j
    ensures OutputFileName(i, s) != OutputFileName(j, t)
  {
    OutputFileNameRoundTrip(i, s);
    OutputFileNameRoundTrip(j, t);
  }

  /**
   * `create_video_for_problem(p, index)`: explanation, tips, speech, rendering and
   * writing run in that order, and the first step that raises ends the attempt.
   */
  function CreateVideoForProblem(p: Problem, index: nat, replies: Replies): Outcome {
    if replies.explanation.None? then Failed(p.slug, SolutionStage)
    else if replies.tips.None? then Failed(p.slug, TipsStage)
    else
      var blocks := Script.Compose(p, replies.explanation.value, replies.tips.value);
      if replies.speech.None? then Failed(p.slug, SpeechStage)
      else if !replies.rendered then Failed(p.slug, RenderStage)
      else if !replies.written then Failed(p.slug, WriteStage)
      else
        var plan := Script.Plan(blocks);
        var track := Sequencer.AttachAudio(Sequencer.VideoDuration(plan), replies.speech.value);
        Made(Artifact(OutputFileName(index, p.slug), Script.Narration(blocks), plan, track))
  }

  /**
   * A video is made exactly when every outside step succeeds; otherwise the outcome
   * names the problem and the first step that failed.
   */
  lemma MadeExactlyWhenAllStepsSucceed(p: Problem, index: nat, replies: Replies)
    ensures CreateVideoForProblem(p, index, replies).Made? <==>
      replies.explanation.Some? && replies.tips.Some? && replies.speech.Some? && replies.rendered && replies.written
    ensures CreateVideoForProblem(p, index, replies).Failed? ==>
      && CreateVideoForProblem(p, index, replies).slug == p.slug
      && (CreateVideoForProblem(p, index, replies).stage == SolutionStage <==> replies.explanation.None?)
  {
  }

  /**
   * A made video is written to `problem_<index+1>_<slug>.mp4`, narrates exactly the
   * texts its segments show, lasts 44 seconds, and carries min(speech, 44) seconds of
   * audio, ending with the generated explanation.
   */
  lemma ArtifactOfProblem(p: Problem, index: nat, replies: Replies)
    requires CreateVideoForProblem(p, index, replies).Made?
    ensures var a := CreateVideoForProblem(p, index, replies).artifact;
      && ParseOutputFileName(a.fileName) == Some((index, p.slug))
      && a.narration == Script.JoinBlocks(Script.Texts(a.plan))
      && |a.plan| == 4
      && a.track.video == 44.0
      && a.track.audio == (if replies.speech.value > 44.0 then 44.0 else replies.speech.value)
      && a.narration[|a.narration| - |replies.explanation.value|..] == replies.explanation.value
  {
    var blocks := Script.Compose(p, replies.explanation.value, replies.tips.value);
    Script.PlanMatchesNarration(blocks);
    Script.NarrationLayout(p, replies.explanation.value, replies.tips.value);
    OutputFileNameRoundTrip(index, p.slug);
  }

  /** The outcomes of the loop over the first `|selected|` problems, in order. */
  function BatchResults(selected: seq<Problem>, replies: nat -> Replies): (r: seq<Outcome>)
    ensures |r| == |selected|
    ensures forall i :: 0 <= i < |r| ==> r[i] == CreateVideoForProblem(selected[i], i, replies(i))
  {
    if selected == [] then []
    else
      var n := |selected| - 1;
      BatchResults(selected[..n], replies) + [CreateVideoForProblem(selected[n], n, replies(n))]
  }

  /** `main`'s loop: every selected problem is attempted once, in order, and a failure is recorded, not raised. */
  method RunBatch(selected: seq<Problem>, replies: nat -> Replies) returns (results: seq<Outcome>)
    ensures results == BatchResults(selected, replies)
  {
    results := [];
    for i := 0 to |selected|
      invariant results == BatchResults(selected[..i], replies)
    {
      assert selected[..i + 1][..i] == selected[..i];
      results := results + [CreateVideoForProblem(selected[i], i, replies(i))];
    }
    assert selected[..|selected|] == selected;
  }

  /** A failure in one problem leaves the outcome of every other problem unchanged. */
  lemma FailureIsolation(selected: seq<Problem>, replies: nat -> Replies, other: nat -> Replies, j: nat)
    requires forall k :: k != j ==> replies(k) == other(k)
    ensures forall k :: 0 <= k < |selected| && k != j ==>
      BatchResults(selected, replies)[k] == BatchResults(selected, other)[k]
  {
  }

  /** A video made at batch position i is written to the file named after i and its problem's slug. */
  lemma MadeFileName(p: Problem, index: nat, replies: Replies)
    ensures var o := CreateVideoForProblem(p, index, replies);
      o.Made? ==> o.artifact.fileName == OutputFileName(index, p.slug)
  {
  }

  lemma BatchFileName(selected: seq<Problem>, replies: nat -> Replies, i: nat)
    requires i < |selected|
    ensures var o := BatchResults(selected, replies)[i];
      o.Made? ==> o.artifact.fileName == OutputFileName(i, selected[i].slug)
  {
    MadeFileName(selected[i], i, replies(i));
  }

  /** No two videos of one batch are written to the same file. */
  lemma BatchFilesDistinct(selected: seq<Problem>, replies: nat -> Replies)
    ensures var r := BatchResults(selected, replies);
      forall i, j :: 0 <= i < j < |r| && r[i].Made? && r[j].Made? ==> r[i].artifact.fileName != r[j].artifact.fileName
  {
    var r := BatchResults(selected, replies);
    forall i, j | 0 <= i < j < |r| && r[i].Made? && r[j].Made?
      ensures r[i].artifact.fileName != r[j].artifact.fileName
    {
      BatchFileName(selected, replies, i);
      BatchFileName(selected, replies, j);
      OutputFileNamesDistinct(i, j, selected[i].slug, selected[j].slug);
    }
  }

  /** The whole of `main`: fetch, select, then run the batch; only the fetch can fail the run. */
  method Run(resp: Response, replies: nat -> Replies) returns (r: Result<seq<Outcome>, FetchError>)
    ensures r.Err? <==> resp.status != 200
    ensures r.Ok? ==> r.value == BatchResults(Selected(resp.records), replies)
  {
    var problems := GetProblemsList(resp);
    if problems.Err? {
      return Err(problems.error);
    }
    var selected := Select(problems.value);
    var results := RunBatch(selected, replies);
    r := Ok(results);
  }

  /**
   * Two problems whose first one fails at the explanation step: the second is still
   * made, and the batch returns both outcomes.
   */
  lemma FirstFailureDoesNotStopSecond(p1: Problem, p2: Problem, good: Replies)
    requires good.explanation.Some? && good.tips.Some? && good.speech.Some? && good.rendered && good.written
    ensures var replies := (k: nat) => if k == 0 then good.(explanation := None) else good;
      var r := BatchResults([p1, p2], replies);
      && r[0] == Failed(p1.slug, SolutionStage)
      && r[1].Made? && r[1].artifact.fileName == OutputFileName(1, p2.slug)
  {
  }
}
