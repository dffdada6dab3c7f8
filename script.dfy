/**
 * Script composition of `create_video_for_problem`: the question, example, tips
 * and solution blocks, the narration that joins them with blank lines, and the
 * segment plan that pairs each block with its fixed on-screen duration.
 */
module Script {
  import Problems
  import Difficulty
  import Decimal

  /** The four narration blocks, in the order they are spoken and shown. */
  datatype Blocks = Blocks(question: string, example: string, tips: string, solution: string)

  /** One visual segment: the text it shows and for how many seconds. */
  datatype Segment = Segment(text: string, duration: nat)

  const BlockSeparator: string := "\n\n"

  /** The example block is a fixed placeholder; no real example is extracted. */
  const ExampleText: string := "Example:\n."

  const SolutionLabel: string := "Solution:\n"

  /** Seconds on screen for the question, example, tips and solution blocks. */
  const SegmentDurations: seq<nat> := [10, 7, 7, 20]

  function SyntheticDescription(p: Problems.Problem): string {
    "This is a " + Difficulty.Label(p.difficulty) + " problem titled '" + p.title + "'."
  }

  function QuestionText(p: Problems.Problem): string {
    "Problem #" + Decimal.IntToDecimal(p.frontendId) + ": " + p.title + "\n\n" + SyntheticDescription(p)
  }

  /** The blocks for a problem, given the generated explanation and tips (used verbatim). */
  function Compose(p: Problems.Problem, explanation: string, tips: string): Blocks {
    Blocks(QuestionText(p), ExampleText, tips, SolutionLabel + explanation)
  }

  /** `full_narration`: the text handed to speech synthesis. */
  function Narration(b: Blocks): string {
    b.question + BlockSeparator + b.example + BlockSeparator + b.tips + BlockSeparator + b.solution
  }

  /** The segment plan: the blocks in order, each with its entry of the duration table. */
  function Plan(b: Blocks): seq<Segment> {
    [ Segment(b.question, SegmentDurations[0]), Segment(b.example, SegmentDurations[1]),
      Segment(b.tips, SegmentDurations[2]), Segment(b.solution, SegmentDurations[3]) ]
  }

  function Texts(plan: seq<Segment>): (texts: seq<string>)
    ensures |texts| == |plan|
    ensures forall i :: 0 <= i < |plan| ==> texts[i] == plan[i].text
  {
    if plan == [] then [] else [plan[0].text] + Texts(plan[1..])
  }

  function TotalDuration(plan: seq<Segment>): nat {
    if plan == [] then 0 else plan[0].duration + TotalDuration(plan[1..])
  }

  /** Texts joined by blank lines, as Python's `"\n\n".join(texts)`. */
  function JoinBlocks(texts: seq<string>): string {
    if texts == [] then ""
    else if |texts| == 1 then texts[0]
    else texts[0] + BlockSeparator + JoinBlocks(texts[1..])
  }

  /**
   * The plan has one segment per block, takes its durations from the table in block
   * order, lasts 44 seconds in all, and its texts, joined by blank lines, are exactly
   * the narration: what is spoken is what is shown, in the same order.
   */
  lemma PlanMatchesNarration(b: Blocks)
    ensures |Plan(b)| == |SegmentDurations| == 4
    ensures forall i :: 0 <= i < 4 ==> Plan(b)[i].duration == SegmentDurations[i]
    ensures Texts(Plan(b)) == [b.question, b.example, b.tips, b.solution]
    ensures TotalDuration(Plan(b)) == 44
    ensures JoinBlocks(Texts(Plan(b))) == Narration(b)
  {
    var plan := Plan(b);
    var texts := [b.question, b.example, b.tips, b.solution];
    assert Texts(plan) == texts;
    assert plan[1..][1..][1..][1..] == [];
    assert TotalDuration(plan[1..][1..][1..]) == 20;
    assert TotalDuration(plan[1..][1..]) == 27;
    assert TotalDuration(plan[1..]) == 34;
    assert texts[1..] == [b.example, b.tips, b.solution];
    assert texts[1..][1..] == [b.tips, b.solution];
    assert texts[1..][1..][1..] == [b.solution];
    assert JoinBlocks(texts[1..][1..]) == b.tips + BlockSeparator + b.solution;
    assert JoinBlocks(texts[1..]) == b.example + BlockSeparator + b.tips + BlockSeparator + b.solution;
  }

  /** The composed narration opens with the question and ends with the labelled explanation. */
  lemma NarrationLayout(p: Problems.Problem, explanation: string, tips: string)
    ensures var n := Narration(Compose(p, explanation, tips));
      var head := QuestionText(p) + BlockSeparator + ExampleText + BlockSeparator;
      && n[..|head|] == head
      && n[|head|..|head| + |tips|] == tips
      && n[|head| + |tips|..] == BlockSeparator + SolutionLabel + explanation
      && n[|n| - |explanation|..] == explanation
  {
  }

  /** Distinct explanations give distinct narrations (for the same problem and tips). */
  lemma NarrationDeterminesExplanation(p: Problems.Problem, tips: string, e1: string, e2: string)
    requires Narration(Compose(p, e1, tips)) == Narration(Compose(p, e2, tips))
    ensures e1 == e2
  {
    NarrationLayout(p, e1, tips);
    NarrationLayout(p, e2, tips);
  }

  /** Distinct tips give distinct narrations (for the same problem and explanation). */
  lemma NarrationDeterminesTips(p: Problems.Problem, explanation: string, t1: string, t2: string)
    requires Narration(Compose(p, explanation, t1)) == Narration(Compose(p, explanation, t2))
    ensures t1 == t2
  {
    NarrationLayout(p, explanation, t1);
    NarrationLayout(p, explanation, t2);
  }
}
