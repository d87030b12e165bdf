/** The process-reward-model scorer: scores every step of a beam against the
    growing transcript, aggregates the step scores, and scores a batch of
    beams. The language model itself is an oracle parameter. */
module Scorer {
  import opened Failures
  import opened Beam
  import opened Transcript
  import opened Aggregation

  type PosReal = r: real | r > 0.0 witness 1.0

  /** The exponentials of the model's two logits for the '+' and the '-'
      token at the read-out position. */
  datatype TagWeights = TagWeights(plus: PosReal, minus: PosReal)

  /** Chat templating, the forward pass and the read-out of the two logits,
      as one function of the transcript. */
  type Oracle = seq<Turn> -> TagWeights

  /** The two-way softmax: the probability of '+'. The two probabilities sum
      to one and each lies strictly between 0 and 1. */
  function PlusProbability(w: TagWeights): (p: real)
    ensures 0.0 < p < 1.0
    ensures 1.0 - p == w.minus / (w.plus + w.minus)
  {
    var total := w.plus + w.minus;
    var plus, minus := w.plus / total, w.minus / total;
    assert plus * total == w.plus && minus * total == w.minus;
    var gap := 1.0 - plus - minus;
    assert gap * total == total - plus * total - minus * total;
    assert gap * total == 0.0;
    plus
  }

  /** Score i is the '+' probability the oracle gives to the transcript
      after step i. */
  function StepScores(oracle: Oracle, texts: seq<string>): (scores: seq<real>)
    ensures |scores| == |texts|
  {
    seq(|texts|, i requires 0 <= i < |texts| =>
      PlusProbability(oracle(Conversation(texts[..i + 1]))))
  }

  /** Every step score is a probability. */
  lemma StepScoresInUnit(oracle: Oracle, texts: seq<string>)
    ensures InUnit(StepScores(oracle, texts))
  {
    forall i | 0 <= i < |texts|
      ensures 0.0 <= StepScores(oracle, texts)[i] <= 1.0
    {
      assert 0.0 <= PlusProbability(oracle(Conversation(texts[..i + 1]))) <= 1.0;
    }
  }

  /** The per-step scores of a beam. */
  function BeamScores(oracle: Oracle, beam: string): (scores: seq<real>)
    ensures |scores| == |Split(beam)| - 1
  {
    StepScores(oracle, ScoredTexts(Prompt(beam), Steps(beam)))
  }

  /** What scoring one beam returns, or the exception it raises. */
  function ScoreBeam(mode: string, oracle: Oracle, beam: string): Result<Score>
  {
    Aggregate(mode, BeamScores(oracle, beam))
  }

  /** The output record: the beam verbatim and its (aggregated) score. */
  datatype StepScore = StepScore(step: string, score: Score)

  /** The scorer object. Its aggregation mode and model are fixed when it is
      built and only read afterwards. */
  class RlhflowDeepseekPrm {
    const aggregation: string
    const oracle: Oracle

    /** The mode is stored as given; an unknown mode surfaces only when a
        beam is scored. */
    constructor (aggregation: string, oracle: Oracle)
      ensures this.aggregation == aggregation && this.oracle == oracle
    {
      this.aggregation := aggregation;
      this.oracle := oracle;
    }

    /** The step loop of one beam: for each step, appends the user turn with
        its scored text and the placeholder assistant turn to the transcript,
        then records the oracle's '+' probability on the whole transcript so
        far. */
    method ScoreSteps(prompt: string, steps: seq<string>) returns (stepScore: seq<real>)
      ensures stepScore == StepScores(oracle, ScoredTexts(prompt, steps))
    {
      ghost var texts := ScoredTexts(prompt, steps);
      stepScore := [];
      var conversation: seq<Turn> := [];
      for k := 0 to |steps|
        invariant conversation == Conversation(texts[..k])
        invariant stepScore == StepScores(oracle, texts)[..k]
      {
        var text := if k == 0 then prompt + " " + steps[0] else steps[k];
        assert texts[..k + 1] == texts[..k] + [text];
        ConversationAppend(texts[..k], text);
        conversation := conversation + [Turn(User, text), Turn(Assistant, Placeholder)];
        stepScore := stepScore + [PlusProbability(oracle(conversation))];
      }
      assert texts[..|steps|] == texts;
    }

    /** Scores one beam: splits it into the prompt and the stripped steps,
        scores the steps, and aggregates the step scores by the mode. */
    method CallSingle(beam: string) returns (r: Result<Score>)
      ensures r == ScoreBeam(aggregation, oracle, beam)
    {
      var segments := Split(beam);
      var prompt := segments[0];
      var steps := StripAll(segments[1..]);
      var stepScore := ScoreSteps(prompt, steps);
      r := Aggregate(aggregation, stepScore);
    }

    /** Scores a batch of beams in order. The first beam that raises ends the
        call with its exception; otherwise there is one record per beam, in
        input order, pairing the beam verbatim with its result. */
    method Call(beams: seq<string>) returns (r: Result<seq<StepScore>>)
      ensures r.Ok? <==> forall i :: 0 <= i < |beams| ==> ScoreBeam(aggregation, oracle, beams[i]).Ok?
      ensures r.Ok? ==> |r.value| == |beams|
      ensures r.Ok? ==> forall i :: 0 <= i < |beams| ==>
                r.value[i] == StepScore(beams[i], ScoreBeam(aggregation, oracle, beams[i]).value)
      ensures r.Err? ==>
        exists i ::
          && 0 <= i < |beams|
          && (forall j :: 0 <= j < i ==> ScoreBeam(aggregation, oracle, beams[j]).Ok?)
          && ScoreBeam(aggregation, oracle, beams[i]) == Err(r.error)
    {
      var result: seq<StepScore> := [];
      for n := 0 to |beams|
        invariant |result| == n
        invariant forall i :: 0 <= i < n ==> ScoreBeam(aggregation, oracle, beams[i]).Ok?
        invariant forall i :: 0 <= i < n ==>
                    result[i] == StepScore(beams[i], ScoreBeam(aggregation, oracle, beams[i]).value)
      {
        var stepScore := CallSingle(beams[n]);
        if stepScore.Err? {
          r := Err(stepScore.error);
          assert ScoreBeam(aggregation, oracle, beams[n]) == Err(r.error);
          return;
        }
        result := result + [StepScore(beams[n], stepScore.value)];
        assert result[n] == StepScore(beams[n], ScoreBeam(aggregation, oracle, beams[n]).value);
      }
      r := Ok(result);
    }
  }

  /** Scoring with mode "full" returns one probability per step, i.e. one
      fewer than the number of segments of the beam. */
  lemma FullScores(oracle: Oracle, beam: string)
    ensures var r := ScoreBeam("full", oracle, beam);
            && r.Ok? && r.value.Full?
            && |r.value.values| == |Split(beam)| - 1
            && InUnit(r.value.values)
  {
    StepScoresInUnit(oracle, ScoredTexts(Prompt(beam), Steps(beam)));
  }

  /** A mode outside the six known ones raises NotImplementedError whatever
      the beam. */
  lemma UnknownModeFails(mode: string, oracle: Oracle, beam: string)
    requires mode !in Modes
    ensures ScoreBeam(mode, oracle, beam) == Err(NotImplementedError)
  {
  }

  /** A beam without the delimiter has no steps: min and max raise
      ValueError, mean StatisticsError, last IndexError, prod gives 1 and
      full gives the empty list. */
  lemma PromptOnlyBeam(mode: string, oracle: Oracle, beam: string)
    requires !HasDelim(beam)
    ensures BeamScores(oracle, beam) == []
    ensures ScoreBeam(mode, oracle, beam) ==
      if mode in {"min", "max"} then Err(ValueError)
      else if mode == "mean" then Err(StatisticsError)
      else if mode == "last" then Err(IndexError)
      else if mode == "prod" then Ok(Scalar(1.0))
      else if mode == "full" then Ok(Full([]))
      else Err(NotImplementedError)
  {
  }

  /** For a beam with at least one step, the results of the other modes
      relate to the "full" result on the same beam and model: min, max and
      last are elements of it (last its final one), mean lies between min and
      max, and prod is at most min. */
  lemma ModesAgreeWithFull(oracle: Oracle, beam: string)
    requires HasDelim(beam)
    ensures var full := ScoreBeam("full", oracle, beam).value.values;
            var lo, hi := ScoreBeam("min", oracle, beam), ScoreBeam("max", oracle, beam);
            var mean, prod := ScoreBeam("mean", oracle, beam), ScoreBeam("prod", oracle, beam);
            && |full| > 0
            && lo.Ok? && lo.value.Scalar? && lo.value.value in full
            && hi.Ok? && hi.value.Scalar? && hi.value.value in full
            && (forall i :: 0 <= i < |full| ==> lo.value.value <= full[i] <= hi.value.value)
            && ScoreBeam("last", oracle, beam) == Ok(Scalar(full[|full| - 1]))
            && mean.Ok? && lo.value.value <= mean.value.value <= hi.value.value
            && prod.Ok? && prod.value.value <= lo.value.value
  {
    var full := BeamScores(oracle, beam);
    assert |full| > 0 by {
      SplitSingleIffNoDelim(beam);
    }
    assert InUnit(full) by {
      StepScoresInUnit(oracle, ScoredTexts(Prompt(beam), Steps(beam)));
    }
    AggregateNonEmpty(full);
  }

  /** A beam made of a prompt and two steps, none of them holding a newline
      (such as "Is 2+2=4?", "Yes, 2+2=4." and "Therefore the answer is 4."),
      splits into exactly those three segments; "full" then gives two
      probabilities and "last" gives the second of them. */
  lemma TwoStepBeam(oracle: Oracle, prompt: string, first: string, second: string)
    requires forall k :: 0 <= k < |prompt| ==> prompt[k] != '\n'
    requires forall k :: 0 <= k < |first| ==> first[k] != '\n'
    requires forall k :: 0 <= k < |second| ==> second[k] != '\n'
    ensures var beam := prompt + Delim + first + Delim + second;
            && Split(beam) == [prompt, first, second]
            && |ScoreBeam("full", oracle, beam).value.values| == 2
            && ScoreBeam("last", oracle, beam)
               == Ok(Scalar(ScoreBeam("full", oracle, beam).value.values[1]))
  {
    var beam := prompt + Delim + first + Delim + second;
    assert beam == prompt + Delim + (first + Delim + second);
    NoNewlineNoDelim(prompt);
    NoNewlineNoDelim(first);
    NoNewlineNoDelim(second);
    SplitSingleIffNoDelim(second);
    SplitAfterSegment(first, second);
    SplitAfterSegment(prompt, first + Delim + second);
  }
}
