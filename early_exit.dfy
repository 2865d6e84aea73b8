/** The layer-agreement metrics of `EarlyExitSequenceTagger` (sequence_tagger_model.py):
    for one token, the label predicted by every layer (the per-layer argmax, an input
    here) is scanned from the last layer down to the first. */
module EarlyExit {
  import opened Sequences

  /** The index of the lowest layer predicting `v`, or the number of layers if none does. */
  function FirstIndex(preds: seq<nat>, v: nat): (k: nat)
    ensures k <= |preds|
    ensures k < |preds| ==> preds[k] == v
    ensures forall i :: 0 <= i < k ==> preds[i] != v
  {
    if preds == [] then 0
    else if preds[0] == v then 0
    else 1 + FirstIndex(preds[1..], v)
  }

  /** The length of the longest run of top layers all predicting `v`. */
  function TrailingRun(preds: seq<nat>, v: nat): (k: nat)
    ensures k <= |preds|
    ensures forall i :: |preds| - k <= i < |preds| ==> preds[i] == v
    ensures k < |preds| ==> preds[|preds| - k - 1] != v
  {
    if preds == [] || preds[|preds| - 1] != v then 0
    else 1 + TrailingRun(preds[..|preds| - 1], v)
  }

  /** The run of top layers agreeing with `v` in `[x] + s`: it reaches `x` only when it
      covers all of `s` and `x` agrees too. */
  lemma {:induction false} TrailingRunCons(x: nat, s: seq<nat>, v: nat)
    ensures TrailingRun([x] + s, v) ==
            if TrailingRun(s, v) == |s| && x == v then |s| + 1 else TrailingRun(s, v)
    decreases |s|
  {
    if s != [] && s[|s| - 1] == v {
      assert ([x] + s)[..|s|] == [x] + s[..|s| - 1];
      TrailingRunCons(x, s[..|s| - 1], v);
    }
  }

  /** Every layer of the top run agrees with `v`, so the run is no longer than the count. */
  lemma {:induction false} TrailingRunAtMostCount(preds: seq<nat>, v: nat)
    ensures TrailingRun(preds, v) <= Count(preds, v)
    decreases |preds|
  {
    if preds != [] {
      TrailingRunAtMostCount(preds[1..], v);
      TrailingRunCons(preds[0], preds[1..], v);
      assert [preds[0]] + preds[1..] == preds;
    }
  }

  /** The result of `_calculate_layer_metrics` without the layer entropy. */
  datatype LayerMetrics = LayerMetrics(
    predictionDepth: nat,
    firstLayer: nat,
    totalAgreeWithLast: nat,
    totalAgreeWithCorrect: nat)

  /** The metrics as defined: prediction depth is the number of layers below the top run
      agreeing with the last layer, the first layer is the lowest one predicting the gold
      label, and the two totals count agreeing layers. */
  function Expected(preds: seq<nat>, gold: nat): LayerMetrics {
    if preds == [] then LayerMetrics(0, 0, 0, 0)
    else
      var last := preds[|preds| - 1];
      LayerMetrics(|preds| - TrailingRun(preds, last), FirstIndex(preds, gold),
                   Count(preds, last), Count(preds, gold))
  }

  /** `_calculate_layer_metrics`: the backward scan from the last layer (included) to the
      first, with the flag that freezes the prediction depth at the first disagreement. */
  method CalculateLayerMetrics(preds: seq<nat>, gold: nat) returns (m: LayerMetrics)
    ensures m == Expected(preds, gold)
  {
    var n := |preds|;
    var pd := n;
    var finalPd := false;
    var fl := n;
    var totalAgreeWithLast := 0;
    var totalAgreeWithCorrect := 0;
    if n == 0 {
      return LayerMetrics(pd, fl, totalAgreeWithLast, totalAgreeWithCorrect);
    }
    var last := preds[n - 1];
    var i := n;
    while i > 0
      invariant 0 <= i <= n
      invariant totalAgreeWithCorrect == Count(preds[i..], gold)
      invariant fl == i + FirstIndex(preds[i..], gold)
      invariant totalAgreeWithLast == Count(preds[i..], last)
      invariant pd == n - TrailingRun(preds[i..], last)
      invariant finalPd <==> TrailingRun(preds[i..], last) < n - i
    {
      i := i - 1;
      var rest := preds[i + 1..];
      assert preds[i..][1..] == rest;
      assert Count(preds[i..], gold) == (if preds[i] == gold then 1 else 0) + Count(rest, gold);
      assert Count(preds[i..], last) == (if preds[i] == last then 1 else 0) + Count(rest, last);
      assert preds[i..] == [preds[i]] + rest;
      TrailingRunCons(preds[i], rest, last);
      if preds[i] == gold {
        fl := i;
        totalAgreeWithCorrect := totalAgreeWithCorrect + 1;
      }
      if preds[i] == last {
        if !finalPd {
          pd := pd - 1;
        }
        totalAgreeWithLast := totalAgreeWithLast + 1;
      } else {
        finalPd := true;
      }
    }
    assert preds[0..] == preds;
    m := LayerMetrics(pd, fl, totalAgreeWithLast, totalAgreeWithCorrect);
  }

  /** For at least one layer: the last layer always agrees with itself, so the prediction
      depth is below the number of layers, at least one layer agrees with the last, and
      every layer above the prediction depth does; the first correct layer is missing
      exactly when no layer predicts the gold label. */
  lemma LayerMetricBounds(preds: seq<nat>, gold: nat)
    ensures var m := Expected(preds, gold);
            && (m.firstLayer == |preds| <==> m.totalAgreeWithCorrect == 0)
            && (m.firstLayer < |preds| ==> preds[m.firstLayer] == gold)
            && (|preds| > 0 ==>
                  && m.predictionDepth <= |preds| - 1
                  && m.totalAgreeWithLast >= 1
                  && m.totalAgreeWithLast >= |preds| - m.predictionDepth
                  && (forall i :: m.predictionDepth <= i < |preds| ==> preds[i] == preds[|preds| - 1]))
  {
    if preds != [] {
      TrailingRunAtMostCount(preds, preds[|preds| - 1]);
    }
    FirstIndexCount(preds, gold);
  }

  lemma {:induction false} FirstIndexCount(preds: seq<nat>, v: nat)
    ensures FirstIndex(preds, v) == |preds| <==> Count(preds, v) == 0
    decreases |preds|
  {
    if preds != [] {
      FirstIndexCount(preds[1..], v);
    }
  }

  /** The layer-metric part of the early-exit `_calculate_metrics`: one scan per token of
      the batch, collected into the `pd`, `fl`, `tal` and `tac` columns. */
  method BatchLayerMetrics(layerPreds: seq<seq<nat>>, gold: seq<nat>)
    returns (pd: seq<nat>, fl: seq<nat>, tal: seq<nat>, tac: seq<nat>)
    requires |layerPreds| == |gold|
    ensures |pd| == |fl| == |tal| == |tac| == |gold|
    ensures forall i :: 0 <= i < |gold| ==>
              && pd[i] == Expected(layerPreds[i], gold[i]).predictionDepth
              && fl[i] == Expected(layerPreds[i], gold[i]).firstLayer
              && tal[i] == Expected(layerPreds[i], gold[i]).totalAgreeWithLast
              && tac[i] == Expected(layerPreds[i], gold[i]).totalAgreeWithCorrect
  {
    pd, fl, tal, tac := [], [], [], [];
    for i := 0 to |gold|
      invariant |pd| == |fl| == |tal| == |tac| == i
      invariant forall k :: 0 <= k < i ==>
                  && pd[k] == Expected(layerPreds[k], gold[k]).predictionDepth
                  && fl[k] == Expected(layerPreds[k], gold[k]).firstLayer
                  && tal[k] == Expected(layerPreds[k], gold[k]).totalAgreeWithLast
                  && tac[k] == Expected(layerPreds[k], gold[k]).totalAgreeWithCorrect
    {
      var m := CalculateLayerMetrics(layerPreds[i], gold[i]);
      pd := pd + [m.predictionDepth];
      fl := fl + [m.firstLayer];
      tal := tal + [m.totalAgreeWithLast];
      tac := tac + [m.totalAgreeWithCorrect];
    }
  }
}
