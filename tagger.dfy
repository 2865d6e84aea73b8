/** The batch-level metric bookkeeping of `SequenceTaggerTokenMetrics`
    (sequence_tagger_model.py): history initialisation, the per-token loop of
    `_calculate_metrics`, and the write-back of the updated histories onto the tokens. */
module Tagger {
  import opened Wrappers
  import opened TokenHistory

  /** A training token; its metric history is absent until logging starts. */
  class Token {
    var history: Option<History>

    constructor ()
      ensures history == None
    {
      history := None;
    }
  }

  /** The tokens of a batch, sentence after sentence. */
  function Flatten(sentences: seq<seq<Token>>): (tokens: seq<Token>)
  {
    if sentences == [] then [] else sentences[0] + Flatten(sentences[1..])
  }

  lemma {:induction false} FlattenContains(sentences: seq<seq<Token>>, t: Token)
    ensures t in Flatten(sentences) <==> exists s :: 0 <= s < |sentences| && t in sentences[s]
  {
    if sentences != [] {
      FlattenContains(sentences[1..], t);
      if t in sentences[0] {
        assert exists s :: 0 <= s < |sentences| && t in sentences[s];
      } else if t in Flatten(sentences[1..]) {
        var s :| 0 <= s < |sentences[1..]| && t in sentences[1..][s];
        assert t in sentences[s + 1];
      } else {
        forall s | 0 <= s < |sentences|
          ensures t !in sentences[s]
        {
          if s > 0 {
            assert sentences[s] == sentences[1..][s - 1];
          }
        }
      }
    }
  }

  /** `torch.argmax`: the first index holding the largest value. */
  function ArgMax(probs: seq<real>): (k: nat)
    requires |probs| > 0
    ensures k < |probs|
    ensures forall i :: 0 <= i < |probs| ==> probs[i] <= probs[k]
    ensures forall i :: 0 <= i < k ==> probs[i] < probs[k]
  {
    if |probs| == 1 then 0
    else
      var k := ArgMax(probs[..|probs| - 1]);
      if probs[|probs| - 1] > probs[k] then |probs| - 1 else k
  }

  /** The label index returned as the batch's prediction (`predicted_labels`). */
  function PredictedLabel(o: Observation): nat
    requires ValidObservation(o)
  {
    ArgMax(o.probs)
  }

  /** The prediction returned for logging (`torch.argmax`) and the one used for the history
      (head of `np.argsort`) may differ only between tied maxima. */
  lemma PredictionsAgreeUpToTies(o: Observation)
    requires ValidObservation(o)
    ensures o.probs[PredictedLabel(o)] == o.probs[o.top1]
    ensures PredictedLabel(o) <= o.top1
  {
  }

  /** `_calculate_metrics`: one pass over the tokens of a batch, returning the predicted
      labels, the metrics and the updated histories, token by token. */
  method CalculateMetrics(histories: seq<History>, run: seq<Observation>)
    returns (predicted: seq<nat>, metrics: seq<Metrics>, updated: seq<History>)
    requires |histories| == |run|
    requires forall i :: 0 <= i < |run| ==>
               ValidObservation(run[i]) && run[i].top1 < |histories[i].histPrediction|
    ensures |predicted| == |metrics| == |updated| == |run|
    ensures forall i :: 0 <= i < |run| ==>
              && predicted[i] == PredictedLabel(run[i])
              && metrics[i] == EpochMetrics(histories[i], run[i])
              && updated[i] == NextHistory(histories[i], run[i])
  {
    predicted, metrics, updated := [], [], [];
    var tokenIndex := 0;
    while tokenIndex < |run|
      invariant 0 <= tokenIndex <= |run|
      invariant |predicted| == |metrics| == |updated| == tokenIndex
      invariant forall i :: 0 <= i < tokenIndex ==>
                  && predicted[i] == PredictedLabel(run[i])
                  && metrics[i] == EpochMetrics(histories[i], run[i])
                  && updated[i] == NextHistory(histories[i], run[i])
    {
      var o := run[tokenIndex];
      predicted := predicted + [PredictedLabel(o)];
      metrics := metrics + [EpochMetrics(histories[tokenIndex], o)];
      updated := updated + [NextHistory(histories[tokenIndex], o)];
      tokenIndex := tokenIndex + 1;
    }
  }

  /** A batch produced by `CalculateMetrics` from consistent histories is consistent again,
      and every metric keeps its bounds. */
  lemma BatchKeepsConsistent(histories: seq<History>, run: seq<Observation>, tagsetSize: nat,
                             metrics: seq<Metrics>, updated: seq<History>)
    requires |histories| == |run| == |metrics| == |updated|
    requires forall i :: 0 <= i < |run| ==>
               && ValidObservation(run[i]) && |run[i].probs| == tagsetSize && IsProbabilities(run[i].probs)
               && Consistent(histories[i], tagsetSize)
               && run[i].top1 < |histories[i].histPrediction|
               && metrics[i] == EpochMetrics(histories[i], run[i])
               && updated[i] == NextHistory(histories[i], run[i])
    ensures forall i :: 0 <= i < |run| ==>
              && Consistent(updated[i], tagsetSize)
              && updated[i].totalEpochs == histories[i].totalEpochs + 1
              && 0.0 < metrics[i].iterNorm <= 1.0
              && 0.0 <= metrics[i].confidence <= 1.0
              && 0.0 <= metrics[i].correctness <= 1.0
  {
    forall i | 0 <= i < |run|
      ensures && Consistent(updated[i], tagsetSize)
              && updated[i].totalEpochs == histories[i].totalEpochs + 1
              && 0.0 < metrics[i].iterNorm <= 1.0
              && 0.0 <= metrics[i].confidence <= 1.0
              && 0.0 <= metrics[i].correctness <= 1.0
    {
      UpdatePreservesConsistent(histories[i], run[i]);
      MetricBounds(histories[i], run[i]);
    }
  }

  /** The tokens of a batch, as a set (the frame of the batch-level methods). */
  ghost function TokensOf(sentences: seq<seq<Token>>): set<Token> {
    set t | t in Flatten(sentences)
  }

  /** Either the batch has not been initialised yet (judged by its first token), or every
      token already carries a history with one prediction count per label. */
  predicate HistoriesReady(sentences: seq<seq<Token>>, tagsetSize: nat)
    requires |sentences| > 0 && |sentences[0]| > 0
    reads TokensOf(sentences)
  {
    sentences[0][0].history.None? ||
    forall i :: 0 <= i < |Flatten(sentences)| ==>
      Flatten(sentences)[i].history.Some? && |Flatten(sentences)[i].history.value.histPrediction| == tagsetSize
  }

  /** The histories of the batch's tokens after `_init_metrics_logging`, in batch order. */
  function HistoriesAfterInit(sentences: seq<seq<Token>>, tagsetSize: nat): (hs: seq<Option<History>>)
    requires |sentences| > 0 && |sentences[0]| > 0
    reads TokensOf(sentences)
    ensures |hs| == |Flatten(sentences)|
    ensures HistoriesReady(sentences, tagsetSize) ==>
              forall i :: 0 <= i < |hs| ==> hs[i].Some? && |hs[i].value.histPrediction| == tagsetSize
  {
    var tokens := Flatten(sentences);
    if sentences[0][0].history.None? then seq(|tokens|, _ => Some(Fresh(tagsetSize)))
    else
      var hs := seq(|tokens|, i requires 0 <= i < |tokens| reads TokensOf(sentences) => tokens[i].history);
      assert forall i :: 0 <= i < |hs| ==> hs[i] == tokens[i].history;
      hs
  }

  /** `_init_metrics_logging` (history part): if the first token of the first sentence has
      no history yet, every token of the batch gets a initial one; otherwise nothing changes. */
  method InitMetricsHistory(sentences: seq<seq<Token>>, tagsetSize: nat)
    requires |sentences| > 0 && |sentences[0]| > 0
    modifies TokensOf(sentences)
    ensures forall i :: 0 <= i < |Flatten(sentences)| ==>
              Flatten(sentences)[i].history == old(HistoriesAfterInit(sentences, tagsetSize))[i]
  {
    ghost var tokens := Flatten(sentences);
    FlattenContains(sentences, sentences[0][0]);
    var first := sentences[0][0];
    if first.history.None? {
      ghost var initial := Fresh(tagsetSize);
      for s := 0 to |sentences|
        invariant forall s', t :: 0 <= s' < s && t in sentences[s'] ==> t.history == Some(initial)
        invariant forall s', t :: s <= s' < |sentences| && t in sentences[s'] && t.history != Some(initial) ==>
                    t.history == old(t.history)
      {
        var sentence := sentences[s];
        for k := 0 to |sentence|
          invariant forall s', t :: 0 <= s' < s && t in sentences[s'] ==> t.history == Some(initial)
          invariant forall k' :: 0 <= k' < k ==> sentence[k'].history == Some(initial)
          invariant forall s', t :: s <= s' < |sentences| && t in sentences[s'] && t.history != Some(initial) ==>
                      t.history == old(t.history)
        {
          FlattenContains(sentences, sentence[k]);
          sentence[k].history := Some(Fresh(tagsetSize));
        }
        assert forall t :: t in sentence ==> exists k' :: 0 <= k' < |sentence| && sentence[k'] == t;
      }
      forall i | 0 <= i < |tokens|
        ensures tokens[i].history == Some(initial)
      {
        FlattenContains(sentences, tokens[i]);
      }
    }
  }

  /** The history write-back at the end of `_log_metrics`: the i-th token of the batch
      receives the i-th updated history. */
  method WriteBackHistories(tokens: seq<Token>, updated: seq<History>)
    requires |tokens| == |updated|
    requires forall i, j :: 0 <= i < j < |tokens| ==> tokens[i] != tokens[j]
    modifies set t | t in tokens
    ensures forall i :: 0 <= i < |tokens| ==> tokens[i].history == Some(updated[i])
  {
    for i := 0 to |tokens|
      invariant forall k :: 0 <= k < i ==> tokens[k].history == Some(updated[k])
    {
      tokens[i].history := Some(updated[i]);
    }
  }

  /** `calculate_and_log_metrics` without the log file: initialise the histories if needed,
      read them, compute one epoch's update and store it back on each token. Each token
      may occur only once in the batch. */
  method CalculateAndStoreMetrics(sentences: seq<seq<Token>>, run: seq<Observation>, tagsetSize: nat)
    returns (predicted: seq<nat>, metrics: seq<Metrics>)
    requires |sentences| > 0 && |sentences[0]| > 0
    requires |Flatten(sentences)| == |run|
    requires forall i, j :: 0 <= i < j < |run| ==> Flatten(sentences)[i] != Flatten(sentences)[j]
    requires ValidRun(run, tagsetSize)
    requires HistoriesReady(sentences, tagsetSize)
    modifies TokensOf(sentences)
    ensures |predicted| == |metrics| == |run|
    ensures forall i :: 0 <= i < |run| ==>
              && old(HistoriesAfterInit(sentences, tagsetSize))[i].Some?
              && var before := old(HistoriesAfterInit(sentences, tagsetSize))[i].value;
                 && Flatten(sentences)[i].history == Some(NextHistory(before, run[i]))
                 && metrics[i] == EpochMetrics(before, run[i])
                 && predicted[i] == PredictedLabel(run[i])
  {
    var tokens := Flatten(sentences);
    ghost var initial := HistoriesAfterInit(sentences, tagsetSize);
    InitMetricsHistory(sentences, tagsetSize);
    var histories := seq(|tokens|, i requires 0 <= i < |tokens| reads tokens =>
                         if tokens[i].history.Some? then tokens[i].history.value else Fresh(tagsetSize));
    forall i | 0 <= i < |run|
      ensures initial[i].Some? && histories[i] == initial[i].value
      ensures ValidObservation(run[i]) && run[i].top1 < |histories[i].histPrediction|
    {
      assert tokens[i].history == initial[i];
    }
    var updated;
    predicted, metrics, updated := CalculateMetrics(histories, run);
    WriteBackHistories(tokens, updated);
  }
}
