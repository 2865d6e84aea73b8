/** The per-token training-dynamics history of sequence_tagger_model.py and the
    per-epoch update of `SequenceTaggerTokenMetrics._calculate_metrics`, one token at a time.
    The softmax vector is an input; softmax, log and sqrt are not modelled, so the metrics
    that need them (entropy, cross entropy, pehist) are absent and variability is kept
    as its square (`variance`). */
module TokenHistory {
  import opened Mild
  import opened Sequences

  /** The history record a token carries between epochs. `lastPrediction` is -1 before
      the first epoch; `histMild` starts with a sentinel 0. */
  datatype History = History(
    lastPrediction: int,
    confidenceSum: real,
    sqDifferenceSum: real,
    correctnessSum: nat,
    lastIteration: nat,
    totalEpochs: nat,
    histPrediction: seq<nat>,
    histMild: seq<Flag>)

  /** The metrics computed for one token in one epoch. */
  datatype Metrics = Metrics(
    confidence: real,
    variance: real,
    correctness: real,
    msp: real,
    bvsb: real,
    iterNorm: real,
    mildM: int,
    mildF: int,
    mild: int)

  /** One epoch's input for one token: the softmax vector, the observed (gold) label index,
      and the first two indices of the descending argsort of the vector. */
  datatype Observation = Observation(probs: seq<real>, gold: nat, top1: nat, top2: nat)

  /** The gold label is a label index, and `top1`, `top2` head a descending ordering of
      `probs` (ties broken either way), so there are at least two labels. */
  predicate ValidObservation(o: Observation) {
    && o.gold < |o.probs| && o.top1 < |o.probs| && o.top2 < |o.probs| && o.top1 != o.top2
    && IsTopTwo(o.probs, o.top1, o.top2)
  }

  /** `top1` holds a largest value and `top2` a largest value among the other indices. */
  predicate IsTopTwo(probs: seq<real>, top1: nat, top2: nat)
    requires top1 < |probs| && top2 < |probs|
  {
    && (forall i :: 0 <= i < |probs| ==> probs[i] <= probs[top1])
    && (forall i :: 0 <= i < |probs| && i != top1 ==> probs[i] <= probs[top2])
  }

  /** Every entry lies in [0, 1], as for a softmax output. */
  predicate IsProbabilities(probs: seq<real>) {
    forall i :: 0 <= i < |probs| ==> 0.0 <= probs[i] <= 1.0
  }

  function Total(s: seq<nat>): nat {
    if s == [] then 0 else s[0] + Total(s[1..])
  }

  /** The history set on every token when logging starts (`_init_metrics_logging`). */
  function Fresh(tagsetSize: nat): (h: History)
    ensures |h.histPrediction| == tagsetSize
  {
    History(-1, 0.0, 0.0, 0, 0, 0, seq(tagsetSize, _ => 0), [0])
  }

  /** The flag appended to `hist_MILD`: 1 iff the prediction equals the observed label. */
  function CorrectFlag(o: Observation): Flag {
    if o.top1 == o.gold then 1 else 0
  }

  /** The updated history of one token after one epoch. */
  function NextHistory(h: History, o: Observation): (r: History)
    requires ValidObservation(o) && o.top1 < |h.histPrediction|
    ensures |r.histPrediction| == |h.histPrediction|
  {
    var n := h.totalEpochs + 1;
    var pGold := o.probs[o.gold];
    var confidenceSum := h.confidenceSum + pGold;
    var confidence := confidenceSum / n as real;
    History(
      lastPrediction := o.top1,
      confidenceSum := confidenceSum,
      sqDifferenceSum := h.sqDifferenceSum + (pGold - confidence) * (pGold - confidence),
      correctnessSum := h.correctnessSum + CorrectFlag(o),
      lastIteration := if o.top1 != h.lastPrediction then n else h.lastIteration,
      totalEpochs := n,
      histPrediction := h.histPrediction[o.top1 := h.histPrediction[o.top1] + 1],
      histMild := h.histMild + [CorrectFlag(o)])
  }

  /** The metrics of one token in one epoch, computed from the updated history. */
  function EpochMetrics(h: History, o: Observation): Metrics
    requires ValidObservation(o) && o.top1 < |h.histPrediction|
  {
    var next := NextHistory(h, o);
    var n := next.totalEpochs as real;
    var mildM := CalculateMildM(next.histMild);
    var mildF := CalculateMildF(next.histMild);
    Metrics(
      confidence := next.confidenceSum / n,
      variance := next.sqDifferenceSum / n,
      correctness := next.correctnessSum as real / n,
      msp := o.probs[o.top1],
      bvsb := o.probs[o.top1] - o.probs[o.top2],
      iterNorm := next.lastIteration as real / n,
      mildM := mildM,
      mildF := mildF,
      mild := mildM - mildF)
  }

  /** What every history reachable from `Fresh(tagsetSize)` satisfies. */
  predicate Consistent(h: History, tagsetSize: nat) {
    && |h.histPrediction| == tagsetSize
    && Total(h.histPrediction) == h.totalEpochs
    && |h.histMild| == h.totalEpochs + 1
    && h.histMild[0] == 0
    && h.correctnessSum == Count(h.histMild, 1)
    && 0.0 <= h.confidenceSum <= h.totalEpochs as real
    && 0.0 <= h.sqDifferenceSum
    && (h.totalEpochs == 0 ==> h.lastPrediction == -1 && h.lastIteration == 0)
    && (h.totalEpochs > 0 ==>
          0 <= h.lastPrediction < tagsetSize && 1 <= h.lastIteration <= h.totalEpochs)
  }

  lemma {:induction false} TotalZeros(k: nat)
    ensures Total(seq(k, _ => 0)) == 0
  {
    if k > 0 {
      assert seq(k, _ => 0)[1..] == seq(k - 1, _ => 0);
      TotalZeros(k - 1);
    }
  }

  /** A fresh history: sentinel prediction -1, all sums zero, a zero count per label,
      and `hist_MILD == [0]`; it satisfies the history invariant. */
  lemma FreshIsConsistent(tagsetSize: nat)
    ensures var h := Fresh(tagsetSize);
            && h.lastPrediction == -1 && h.totalEpochs == 0 && h.correctnessSum == 0
            && h.confidenceSum == 0.0 && h.sqDifferenceSum == 0.0 && h.lastIteration == 0
            && (forall j :: 0 <= j < tagsetSize ==> h.histPrediction[j] == 0)
            && h.histMild == [0]
            && Consistent(h, tagsetSize)
  {
    TotalZeros(tagsetSize);
    assert Count([0], 1) == 0 by {
      assert [0][1..] == [];
    }
  }

  lemma {:induction false} TotalIncrement(s: seq<nat>, j: nat)
    requires j < |s|
    ensures Total(s[j := s[j] + 1]) == Total(s) + 1
  {
    if j > 0 {
      TotalIncrement(s[1..], j - 1);
      assert s[j := s[j] + 1][1..] == s[1..][j - 1 := s[j] + 1];
    } else {
      assert s[j := s[j] + 1][1..] == s[1..];
    }
  }

  /** One epoch's update keeps the invariant: counters grow by one, exactly one
      prediction count grows, and the correctness sum grows iff the prediction is right. */
  lemma UpdatePreservesConsistent(h: History, o: Observation)
    requires ValidObservation(o) && IsProbabilities(o.probs)
    requires Consistent(h, |o.probs|)
    ensures var r := NextHistory(h, o);
            && Consistent(r, |o.probs|)
            && r.totalEpochs == h.totalEpochs + 1
            && r.histPrediction[o.top1] == h.histPrediction[o.top1] + 1
            && (forall j :: 0 <= j < |o.probs| && j != o.top1 ==>
                  r.histPrediction[j] == h.histPrediction[j])
            && (r.correctnessSum == h.correctnessSum + 1 <==> o.top1 == o.gold)
            && (r.correctnessSum == h.correctnessSum <==> o.top1 != o.gold)
            && r.lastIteration == (if o.top1 != h.lastPrediction then r.totalEpochs else h.lastIteration)
  {
    var r := NextHistory(h, o);
    TotalIncrement(h.histPrediction, o.top1);
    CountAppend(h.histMild, CorrectFlag(o), 1);
    assert r.histMild[0] == h.histMild[0];
    assert 0.0 <= o.probs[o.gold] <= 1.0;
    var d := o.probs[o.gold] - r.confidenceSum / r.totalEpochs as real;
    assert r.sqDifferenceSum == h.sqDifferenceSum + d * d;
    assert 0.0 <= d * d;
  }

  /** Bounds on one epoch's metrics for any consistent history: confidence and correctness
      lie in [0, 1], iter_norm in (0, 1], BvSB is non-negative, msp is the top probability,
      and the MILD counters count the correct and incorrect flags including the sentinel. */
  lemma MetricBounds(h: History, o: Observation)
    requires ValidObservation(o) && IsProbabilities(o.probs)
    requires Consistent(h, |o.probs|)
    ensures var m := EpochMetrics(h, o);
            var r := NextHistory(h, o);
            && 0.0 <= m.confidence <= 1.0
            && 0.0 <= m.correctness <= 1.0
            && 0.0 < m.iterNorm <= 1.0
            && 0.0 <= m.variance
            && 0.0 <= m.bvsb
            && (forall i :: 0 <= i < |o.probs| ==> o.probs[i] <= m.msp)
            && m.mildF == r.correctnessSum
            && m.mildM + m.mildF == r.totalEpochs + 1
            && m.mild == m.mildM - m.mildF
  {
    UpdatePreservesConsistent(h, o);
    var r := NextHistory(h, o);
    var n := r.totalEpochs as real;
    MildCounts(r.histMild);
    assert 0 <= r.correctnessSum <= r.totalEpochs by {
      assert r.correctnessSum == Count(r.histMild, 1);
      assert r.histMild == [0] + r.histMild[1..];
      assert Count(r.histMild, 1) == Count(r.histMild[1..], 1);
    }
    DivUnit(r.confidenceSum, n);
    DivUnit(r.correctnessSum as real, n);
    DivUnit(r.lastIteration as real, n);
    assert r.sqDifferenceSum / n >= 0.0;
  }

  lemma DivUnit(x: real, n: real)
    requires 0.0 <= x <= n && 0.0 < n
    ensures 0.0 <= x / n <= 1.0
    ensures 0.0 < x ==> 0.0 < x / n
  {
  }

  /** Replaying a run of epochs through the update. */
  function Replay(h: History, run: seq<Observation>): (r: History)
    requires forall i :: 0 <= i < |run| ==> ValidObservation(run[i]) && run[i].top1 < |h.histPrediction|
    ensures |r.histPrediction| == |h.histPrediction|
    decreases |run|
  {
    if run == [] then h else Replay(NextHistory(h, run[0]), run[1..])
  }

  predicate ValidRun(run: seq<Observation>, tagsetSize: nat) {
    forall i :: 0 <= i < |run| ==>
      ValidObservation(run[i]) && |run[i].probs| == tagsetSize && IsProbabilities(run[i].probs)
  }

  // Reference definitions computed from the whole run of epochs.

  /** The sum of the probabilities given to the observed label. */
  function GoldSum(run: seq<Observation>): real
    requires forall i :: 0 <= i < |run| ==> ValidObservation(run[i])
  {
    if run == [] then 0.0
    else
      var o := run[|run| - 1];
      assert ValidObservation(o);
      GoldSum(run[..|run| - 1]) + o.probs[o.gold]
  }

  /** The squared deviation of `p` from `mean`. */
  function SqDeviation(p: real, mean: real): real {
    (p - mean) * (p - mean)
  }

  /** Sum over epochs k of (p_k - mean of p_1..p_k)^2, with p_k the gold probability. */
  function SqDifferenceFromScratch(run: seq<Observation>): real
    requires forall i :: 0 <= i < |run| ==> ValidObservation(run[i])
  {
    if run == [] then 0.0
    else
      var o := run[|run| - 1];
      assert ValidObservation(o);
      SqDifferenceFromScratch(run[..|run| - 1]) + SqDeviation(o.probs[o.gold], GoldSum(run) / |run| as real)
  }

  /** The running sums after one more epoch. */
  lemma NextSums(h: History, o: Observation)
    requires ValidObservation(o) && o.top1 < |h.histPrediction|
    ensures var r := NextHistory(h, o);
            && r.totalEpochs == h.totalEpochs + 1
            && r.confidenceSum == h.confidenceSum + o.probs[o.gold]
            && r.sqDifferenceSum
               == h.sqDifferenceSum + SqDeviation(o.probs[o.gold], r.confidenceSum / r.totalEpochs as real)
  {
  }

  /** The counters after one more epoch. */
  lemma NextCounters(h: History, o: Observation)
    requires ValidObservation(o) && o.top1 < |h.histPrediction|
    ensures var r := NextHistory(h, o);
            && r.totalEpochs == h.totalEpochs + 1
            && r.histMild == h.histMild + [CorrectFlag(o)]
            && r.correctnessSum == h.correctnessSum + CorrectFlag(o)
            && r.lastPrediction == o.top1
            && r.lastIteration == (if o.top1 != h.lastPrediction then h.totalEpochs + 1 else h.lastIteration)
  {
  }

  /** The correctness flags of the run, in order. */
  function Flags(run: seq<Observation>): (flags: seq<Flag>)
    ensures |flags| == |run|
  {
    if run == [] then [] else Flags(run[..|run| - 1]) + [CorrectFlag(run[|run| - 1])]
  }

  /** The number of epochs predicting label `j`. */
  function Predicted(run: seq<Observation>, j: nat): nat {
    if run == [] then 0
    else Predicted(run[..|run| - 1], j) + (if run[|run| - 1].top1 == j then 1 else 0)
  }

  /** The 1-based epoch at which the prediction last changed (the first epoch always counts). */
  function LastChange(run: seq<Observation>): nat {
    if run == [] then 0
    else if |run| == 1 || run[|run| - 1].top1 != run[|run| - 2].top1 then |run|
    else LastChange(run[..|run| - 1])
  }

  lemma {:induction false} ReplaySnoc(h: History, run: seq<Observation>)
    requires run != []
    requires forall i :: 0 <= i < |run| ==> ValidObservation(run[i]) && run[i].top1 < |h.histPrediction|
    ensures Replay(h, run) == NextHistory(Replay(h, run[..|run| - 1]), run[|run| - 1])
    decreases |run|
  {
    if |run| > 1 {
      var h1 := NextHistory(h, run[0]);
      ReplaySnoc(h1, run[1..]);
      assert run[1..][..|run[1..]| - 1] == run[..|run| - 1][1..];
    }
  }

  /** The counters of a replay from a fresh history: one epoch each, hist_MILD is the
      sentinel followed by one flag per epoch, and the last prediction and the epoch it
      last changed at are read off the run. */
  lemma ReplayCounters(tagsetSize: nat, run: seq<Observation>)
    requires ValidRun(run, tagsetSize)
    ensures var r := Replay(Fresh(tagsetSize), run);
            && r.totalEpochs == |run|
            && r.histMild == [0] + Flags(run)
            && r.correctnessSum == Count(Flags(run), 1)
            && r.lastPrediction == (if run == [] then -1 else run[|run| - 1].top1)
            && r.lastIteration == LastChange(run)
  {
    ReplayFlags(tagsetSize, run);
    ReplayLastChange(tagsetSize, run);
  }

  lemma {:induction false} ReplayFlags(tagsetSize: nat, run: seq<Observation>)
    requires ValidRun(run, tagsetSize)
    ensures var r := Replay(Fresh(tagsetSize), run);
            && r.totalEpochs == |run|
            && r.histMild == [0] + Flags(run)
            && r.correctnessSum == Count(Flags(run), 1)
    decreases |run|
  {
    if run != [] {
      var init := run[..|run| - 1];
      var o := run[|run| - 1];
      assert ValidRun(init, tagsetSize);
      ReplayFlags(tagsetSize, init);
      ReplaySnoc(Fresh(tagsetSize), run);
      NextCounters(Replay(Fresh(tagsetSize), init), o);
      CountAppend(Flags(init), CorrectFlag(o), 1);
      assert Count([0] + Flags(init), 1) == Count(Flags(init), 1) by {
        assert ([0] + Flags(init))[1..] == Flags(init);
      }
    } else {
      assert Count([0], 1) == 0 by {
        assert [0][1..] == [];
      }
    }
  }

  lemma {:induction false} ReplayLastChange(tagsetSize: nat, run: seq<Observation>)
    requires ValidRun(run, tagsetSize)
    ensures var r := Replay(Fresh(tagsetSize), run);
            && r.totalEpochs == |run|
            && r.lastPrediction == (if run == [] then -1 else run[|run| - 1].top1)
            && r.lastIteration == LastChange(run)
    decreases |run|
  {
    if run != [] {
      var init := run[..|run| - 1];
      assert ValidRun(init, tagsetSize);
      ReplayLastChange(tagsetSize, init);
      ReplaySnoc(Fresh(tagsetSize), run);
      NextCounters(Replay(Fresh(tagsetSize), init), run[|run| - 1]);
      if |run| > 1 {
        assert init[|init| - 1] == run[|run| - 2];
      }
    }
  }

  /** The running sums of a replay from a fresh history are the whole-run sums. */
  lemma {:induction false} ReplaySums(tagsetSize: nat, run: seq<Observation>)
    requires ValidRun(run, tagsetSize)
    ensures var r := Replay(Fresh(tagsetSize), run);
            && r.totalEpochs == |run|
            && r.confidenceSum == GoldSum(run)
            && r.sqDifferenceSum == SqDifferenceFromScratch(run)
    decreases |run|
  {
    if run != [] {
      var init := run[..|run| - 1];
      assert ValidRun(init, tagsetSize);
      ReplaySums(tagsetSize, init);
      ReplaySnoc(Fresh(tagsetSize), run);
      var before := Replay(Fresh(tagsetSize), init);
      var o := run[|run| - 1];
      NextSums(before, o);
      assert GoldSum(run) == GoldSum(init) + o.probs[o.gold];
    }
  }

  /** The per-label prediction counts of a replay from a fresh history count the run's
      predictions. */
  lemma {:induction false} ReplayPredictions(tagsetSize: nat, run: seq<Observation>)
    requires ValidRun(run, tagsetSize)
    ensures var r := Replay(Fresh(tagsetSize), run);
            forall j :: 0 <= j < tagsetSize ==> r.histPrediction[j] == Predicted(run, j)
    decreases |run|
  {
    if run != [] {
      var init := run[..|run| - 1];
      assert ValidRun(init, tagsetSize);
      ReplayPredictions(tagsetSize, init);
      ReplaySnoc(Fresh(tagsetSize), run);
    }
  }

  /** Replaying any run from a fresh history gives exactly the values computed from
      scratch: the incremental sums are the whole-run sums, hist_MILD is the sentinel
      followed by one flag per epoch, and the prediction counts count the predictions. */
  lemma ReplayFromFresh(tagsetSize: nat, run: seq<Observation>)
    requires ValidRun(run, tagsetSize)
    ensures var r := Replay(Fresh(tagsetSize), run);
            && r.totalEpochs == |run|
            && r.confidenceSum == GoldSum(run)
            && r.sqDifferenceSum == SqDifferenceFromScratch(run)
            && r.histMild == [0] + Flags(run)
            && r.correctnessSum == Count(Flags(run), 1)
            && (forall j :: 0 <= j < tagsetSize ==> r.histPrediction[j] == Predicted(run, j))
            && r.lastPrediction == (if run == [] then -1 else run[|run| - 1].top1)
            && r.lastIteration == LastChange(run)
  {
    ReplayCounters(tagsetSize, run);
    ReplaySums(tagsetSize, run);
    ReplayPredictions(tagsetSize, run);
  }
}
