/** What the label-remediation steps of pipeline_sample_metrics_token_categories.py do to
    the token columns of a dataset, as functions of the dataset before the step:
    `mask_category`, `relabel_category`, `update_dataset_with_epoch_log_info` and
    `copy_new_tag_to_original`. The `Corpus` class applies them in place. */
module Remediation {
  import opened Wrappers
  import opened Strings
  import opened Categories
  import opened Bioes

  /** The token columns the steps read and write: the observed BIOES tag (`ner_bio`),
      the predicted BIOES tag (`predicted_bio`), the new BIOES tag (`ner_new_bio`), the
      value of the selected training-dynamics metric, and the `modified` label. */
  datatype TokenLabels = TokenLabels(
    observed: string,
    predicted: string,
    newTag: string,
    metric: real,
    modified: bool)

  type Dataset = seq<seq<TokenLabels>>

  /** Both datasets have the same sentences with the same number of tokens. */
  predicate SameShape(a: Dataset, b: Dataset) {
    |a| == |b| && forall s :: 0 <= s < |a| ==> |a[s]| == |b[s]|
  }

  /** A token in category `c` whose metric passes the threshold rule. */
  predicate Triggered(tok: TokenLabels, c: Category, threshold: real, direction: string) {
    InCategory(tok.observed, tok.predicted, c) && Exceeds(tok.metric, threshold, direction)
  }

  /** The number of triggered tokens of a sentence. */
  function TriggeredIn(sentence: seq<TokenLabels>, c: Category, threshold: real, direction: string): nat {
    if sentence == [] then 0
    else TriggeredIn(sentence[..|sentence| - 1], c, threshold, direction)
         + (if Triggered(sentence[|sentence| - 1], c, threshold, direction) then 1 else 0)
  }

  /** The number of triggered tokens of a dataset. */
  function TriggeredCount(d: Dataset, c: Category, threshold: real, direction: string): nat {
    if d == [] then 0
    else TriggeredCount(d[..|d| - 1], c, threshold, direction) + TriggeredIn(d[|d| - 1], c, threshold, direction)
  }

  // ---------------------------------------------------------------- mask_category

  function MaskToken(tok: TokenLabels, c: Category, threshold: real, direction: string): TokenLabels {
    if Triggered(tok, c, threshold, direction) then tok.(newTag := "S-MASK") else tok
  }

  function MaskSentence(sentence: seq<TokenLabels>, c: Category, threshold: real, direction: string)
    : (r: seq<TokenLabels>)
    ensures |r| == |sentence|
  {
    seq(|sentence|, t requires 0 <= t < |sentence| => MaskToken(sentence[t], c, threshold, direction))
  }

  /** The dataset after `mask_category`. */
  function MaskAll(d: Dataset, c: Category, threshold: real, direction: string): Dataset {
    seq(|d|, s requires 0 <= s < |d| => MaskSentence(d[s], c, threshold, direction))
  }

  /** Masking keeps the dataset's shape and every column but the new tag, sets the new
      tag to `S-MASK` exactly on the triggered tokens and leaves every other new tag as
      it was. */
  lemma MaskEffect(d: Dataset, c: Category, threshold: real, direction: string)
    ensures var m := MaskAll(d, c, threshold, direction);
            && SameShape(m, d)
            && forall s, t :: 0 <= s < |d| && 0 <= t < |d[s]| ==>
                 && m[s][t] == d[s][t].(newTag := m[s][t].newTag)
                 && (Triggered(d[s][t], c, threshold, direction) ==> m[s][t].newTag == "S-MASK")
                 && (!Triggered(d[s][t], c, threshold, direction) ==> m[s][t].newTag == d[s][t].newTag)
  {
  }

  /** Masking reads only columns it does not write, so masking again changes nothing. */
  lemma MaskIdempotent(d: Dataset, c: Category, threshold: real, direction: string)
    ensures MaskAll(MaskAll(d, c, threshold, direction), c, threshold, direction)
            == MaskAll(d, c, threshold, direction)
  {
    var m := MaskAll(d, c, threshold, direction);
    assert forall s :: 0 <= s < |d| ==>
             MaskSentence(m[s], c, threshold, direction) == m[s];
  }

  // ---------------------------------------------------------------- relabel_category

  /** The scan state of `relabel_category`, reset at every sentence. */
  datatype ScanState = ScanState(prev: string, previousChanged: bool)

  const SentenceStart := ScanState("O", false)

  /** `prev.split('-')[1]`, which raises IndexError when `prev` has no `-`. */
  function EntityType(prev: string): (r: Option<string>)
    ensures r.Some? <==> '-' in prev
  {
    SplitParts(prev, '-');
    var parts := Split(prev, '-');
    if |parts| >= 2 then Some(parts[1]) else None
  }

  /** What one token does in `relabel_category`: the state after it, whether its new tag
      is overwritten by its predicted tag, and which of the two counters it increments.
      `None` is the IndexError of `EntityType`. */
  datatype Step = Step(state: ScanState, write: bool, changed: nat, additionally: nat)

  function RelabelStep(st: ScanState, tok: TokenLabels, c: Category, threshold: real, direction: string)
    : Option<Step>
  {
    if InCategory(tok.observed, tok.predicted, c) then
      if Exceeds(tok.metric, threshold, direction) then Some(Step(ScanState(tok.predicted, true), true, 1, 0))
      else Some(Step(st, false, 0, 0))
    else if st.previousChanged && st.prev != "O" then
      match EntityType(st.prev)
      case None => None
      case Some(entity) =>
        if EndsWith(tok.observed, entity) && EndsWith(tok.predicted, entity) then Some(Step(st, true, 0, 1))
        else Some(Step(st.(previousChanged := false), false, 0, 0))
    else Some(Step(st.(previousChanged := false), false, 0, 0))
  }

  /** The scan over the tokens of a sentence from state `st`. */
  datatype Scan = Scan(state: ScanState, writes: seq<bool>, changed: nat, additionally: nat)

  function ScanTokens(st: ScanState, toks: seq<TokenLabels>, c: Category, threshold: real, direction: string)
    : (r: Option<Scan>)
    ensures r.Some? ==> |r.value.writes| == |toks|
  {
    if toks == [] then Some(Scan(st, [], 0, 0))
    else Extend(ScanTokens(st, toks[..|toks| - 1], c, threshold, direction), toks[|toks| - 1], c, threshold, direction)
  }

  /** The scan so far followed by one more token. */
  function Extend(so: Option<Scan>, tok: TokenLabels, c: Category, threshold: real, direction: string)
    : (r: Option<Scan>)
    ensures r.Some? ==> so.Some? && |r.value.writes| == |so.value.writes| + 1
  {
    match so
    case None => None
    case Some(sc) =>
      match RelabelStep(sc.state, tok, c, threshold, direction)
      case None => None
      case Some(step) =>
        Some(Scan(step.state, sc.writes + [step.write], sc.changed + step.changed,
                  sc.additionally + step.additionally))
  }

  /** The writes and the two counters of `relabel_category` over a dataset. */
  datatype Relabelling = Relabelling(writes: seq<seq<bool>>, changed: nat, additionally: nat)

  function ScanDataset(d: Dataset, c: Category, threshold: real, direction: string)
    : (r: Option<Relabelling>)
    ensures r.Some? ==> |r.value.writes| == |d| &&
                        forall s :: 0 <= s < |d| ==> |r.value.writes[s]| == |d[s]|
  {
    if d == [] then Some(Relabelling([], 0, 0))
    else AddSentence(ScanDataset(d[..|d| - 1], c, threshold, direction),
                     ScanTokens(SentenceStart, d[|d| - 1], c, threshold, direction))
  }

  /** The relabelling so far followed by one more sentence's scan. */
  function AddSentence(so: Option<Relabelling>, sentence: Option<Scan>): (r: Option<Relabelling>)
    ensures r.Some? <==> so.Some? && sentence.Some?
    ensures r.Some? ==> r.value.writes == so.value.writes + [sentence.value.writes]
  {
    match so
    case None => None
    case Some(rl) =>
      match sentence
      case None => None
      case Some(sc) =>
        Some(Relabelling(rl.writes + [sc.writes], rl.changed + sc.changed, rl.additionally + sc.additionally))
  }

  /** A token whose write flag is set takes its predicted tag as its new tag. */
  function ApplyWrites(sentence: seq<TokenLabels>, writes: seq<bool>): (r: seq<TokenLabels>)
    requires |writes| == |sentence|
    ensures |r| == |sentence|
  {
    seq(|sentence|, t requires 0 <= t < |sentence| =>
      if writes[t] then sentence[t].(newTag := sentence[t].predicted) else sentence[t])
  }

  /** The dataset after `relabel_category`. */
  function RelabelAll(d: Dataset, writes: seq<seq<bool>>): (r: Dataset)
    requires |writes| == |d| && forall s :: 0 <= s < |d| ==> |writes[s]| == |d[s]|
    ensures SameShape(r, d)
  {
    seq(|d|, s requires 0 <= s < |d| => ApplyWrites(d[s], writes[s]))
  }

  function TrueCount(b: seq<bool>): nat {
    if b == [] then 0 else TrueCount(b[..|b| - 1]) + (if b[|b| - 1] then 1 else 0)
  }

  /** In a sentence's scan, the first counter counts the triggered tokens and the two
      counters together count the relabelled tokens. */
  lemma {:induction false} ScanCounts(st: ScanState, toks: seq<TokenLabels>, c: Category, threshold: real, direction: string)
    requires ScanTokens(st, toks, c, threshold, direction).Some?
    ensures var sc := ScanTokens(st, toks, c, threshold, direction).value;
            && sc.changed == TriggeredIn(toks, c, threshold, direction)
            && sc.changed + sc.additionally == TrueCount(sc.writes)
    decreases |toks|
  {
    if toks != [] {
      var init := toks[..|toks| - 1];
      var tok := toks[|toks| - 1];
      ScanCounts(st, init, c, threshold, direction);
      var sc := ScanTokens(st, init, c, threshold, direction).value;
      var step := RelabelStep(sc.state, tok, c, threshold, direction);
      StepCounts(sc.state, tok, c, threshold, direction);
      var all := ScanTokens(st, toks, c, threshold, direction).value;
      assert all == Scan(step.value.state, sc.writes + [step.value.write], sc.changed + step.value.changed,
                         sc.additionally + step.value.additionally);
      assert all.writes[..|all.writes| - 1] == sc.writes;
    }
  }

  /** One token's step counts a triggered token in the first counter; each counter step
      is a write. */
  lemma StepCounts(st: ScanState, tok: TokenLabels, c: Category, threshold: real, direction: string)
    requires RelabelStep(st, tok, c, threshold, direction).Some?
    ensures var step := RelabelStep(st, tok, c, threshold, direction).value;
            && step.changed == (if Triggered(tok, c, threshold, direction) then 1 else 0)
            && step.changed + step.additionally == (if step.write then 1 else 0)
  {
  }

  /** In a sentence's scan, every triggered token is relabelled and an in-category token
      that misses the threshold is left alone. */
  lemma {:induction false} ScanWrites(st: ScanState, toks: seq<TokenLabels>, c: Category, threshold: real, direction: string)
    requires ScanTokens(st, toks, c, threshold, direction).Some?
    ensures var sc := ScanTokens(st, toks, c, threshold, direction).value;
            && (forall t :: 0 <= t < |toks| && Triggered(toks[t], c, threshold, direction) ==> sc.writes[t])
            && (forall t :: (0 <= t < |toks| && InCategory(toks[t].observed, toks[t].predicted, c)
                             && !Exceeds(toks[t].metric, threshold, direction)) ==> !sc.writes[t])
    decreases |toks|
  {
    if toks != [] {
      var init := toks[..|toks| - 1];
      ScanWrites(st, init, c, threshold, direction);
      var sc := ScanTokens(st, init, c, threshold, direction).value;
      var all := ScanTokens(st, toks, c, threshold, direction).value;
      assert forall t :: 0 <= t < |init| ==> all.writes[t] == sc.writes[t] && toks[t] == init[t];
    }
  }

  /** Once a token is relabelled by propagation, the scan state carries the entity of a
      relabelled in-category token: `prev` is a predicted tag other than `O`. */
  lemma {:induction false} PropagationFollowsTrigger(st: ScanState, toks: seq<TokenLabels>, c: Category,
                                                     threshold: real, direction: string)
    requires st == SentenceStart
    requires ScanTokens(st, toks, c, threshold, direction).Some?
    ensures var sc := ScanTokens(st, toks, c, threshold, direction).value;
            sc.state.previousChanged ==>
              exists t :: 0 <= t < |toks| && Triggered(toks[t], c, threshold, direction)
                          && sc.state.prev == toks[t].predicted
    decreases |toks|
  {
    if toks != [] {
      var init := toks[..|toks| - 1];
      PropagationFollowsTrigger(st, init, c, threshold, direction);
      var sc := ScanTokens(st, init, c, threshold, direction).value;
      var all := ScanTokens(st, toks, c, threshold, direction).value;
      if all.state.previousChanged && !Triggered(toks[|toks| - 1], c, threshold, direction) {
        assert sc.state == all.state;
        var t :| 0 <= t < |init| && Triggered(init[t], c, threshold, direction) && sc.state.prev == init[t].predicted;
        assert toks[t] == init[t];
      }
    }
  }

  /** A token after the last triggered one keeps the propagation from that token's
      predicted tag `prev` alive: a token in the category leaves the scan state alone, and
      a token outside it continues the propagation when `prev` is not `O` and has an
      entity type that both its observed and its predicted tags end with. */
  predicate Carries(tok: TokenLabels, prev: string, c: Category) {
    || InCategory(tok.observed, tok.predicted, c)
    || (&& prev != "O" && EntityType(prev).Some?
        && EndsWith(tok.observed, EntityType(prev).value) && EndsWith(tok.predicted, EntityType(prev).value))
  }

  /** The last triggered token before position `t`, if any. */
  function LastTrigger(toks: seq<TokenLabels>, t: nat, c: Category, threshold: real, direction: string)
    : (k: Option<nat>)
    requires t <= |toks|
    ensures k.Some? ==> k.value < t && Triggered(toks[k.value], c, threshold, direction)
    ensures k.Some? ==> forall j :: k.value < j < t ==> !Triggered(toks[j], c, threshold, direction)
    ensures k.None? ==> forall j :: 0 <= j < t ==> !Triggered(toks[j], c, threshold, direction)
  {
    if t == 0 then None
    else if Triggered(toks[t - 1], c, threshold, direction) then Some(t - 1)
    else LastTrigger(toks, t - 1, c, threshold, direction)
  }

  /** The scan state before position `t` of a sentence: the sentence start if no earlier
      token was triggered; otherwise the last triggered token's predicted tag, still
      propagating iff every token since then carried it. */
  function StateBefore(toks: seq<TokenLabels>, t: nat, c: Category, threshold: real, direction: string)
    : ScanState
    requires t <= |toks|
  {
    match LastTrigger(toks, t, c, threshold, direction)
    case None => SentenceStart
    case Some(k) => ScanState(toks[k].predicted, forall j :: k < j < t ==> Carries(toks[j], toks[k].predicted, c))
  }

  /** The propagation reaches position `t`: some token before it was triggered, and every
      token after the last such one, up to and including `t`, carries its predicted tag. */
  predicate PropagatesTo(toks: seq<TokenLabels>, t: nat, c: Category, threshold: real, direction: string)
    requires t < |toks|
  {
    var k := LastTrigger(toks, t, c, threshold, direction);
    k.Some? && forall j :: k.value < j <= t ==> Carries(toks[j], toks[k.value].predicted, c)
  }

  /** Following the last triggered token, the propagation stays alive up to `t + 1` iff it
      is alive up to `t` and token `t` carries it. */
  lemma AliveStep(toks: seq<TokenLabels>, k: nat, t: nat, p: string, c: Category)
    requires k <= t < |toks|
    ensures (forall j :: k < j < t + 1 ==> Carries(toks[j], p, c)) <==>
            (forall j :: k < j < t ==> Carries(toks[j], p, c)) && (k < t ==> Carries(toks[t], p, c))
  {
  }

  /** One token's step takes the closed-form state before it to the one after it. */
  lemma StateBeforeStep(toks: seq<TokenLabels>, t: nat, c: Category, threshold: real, direction: string)
    requires t < |toks|
    requires RelabelStep(StateBefore(toks, t, c, threshold, direction), toks[t], c, threshold, direction).Some?
    ensures RelabelStep(StateBefore(toks, t, c, threshold, direction), toks[t], c, threshold, direction).value.state
            == StateBefore(toks, t + 1, c, threshold, direction)
  {
    var tok := toks[t];
    var st := StateBefore(toks, t, c, threshold, direction);
    var step := RelabelStep(st, tok, c, threshold, direction).value;
    if Triggered(tok, c, threshold, direction) {
      assert LastTrigger(toks, t + 1, c, threshold, direction) == Some(t);
      assert step.state == ScanState(tok.predicted, true);
    } else {
      var k := LastTrigger(toks, t, c, threshold, direction);
      assert LastTrigger(toks, t + 1, c, threshold, direction) == k;
      if k.Some? {
        var p := toks[k.value].predicted;
        AliveStep(toks, k.value, t, p, c);
        assert st == ScanState(p, forall j :: k.value < j < t ==> Carries(toks[j], p, c));
        if InCategory(tok.observed, tok.predicted, c) {
          assert step.state == st;
        } else if st.previousChanged && p != "O" {
          assert step.state == (if Carries(tok, p, c) then st else st.(previousChanged := false));
        } else {
          assert step.state == st.(previousChanged := false);
        }
      }
    }
  }

  /** The scan of a prefix of a sentence ends in the closed-form state. */
  lemma {:induction false} ScanStateClosedForm(toks: seq<TokenLabels>, t: nat, c: Category,
                                               threshold: real, direction: string)
    requires t <= |toks|
    requires ScanTokens(SentenceStart, toks[..t], c, threshold, direction).Some?
    ensures ScanTokens(SentenceStart, toks[..t], c, threshold, direction).value.state
            == StateBefore(toks, t, c, threshold, direction)
  {
    if t == 0 {
      assert toks[..t] == [];
    } else {
      assert toks[..t][..t - 1] == toks[..t - 1];
      var sc := ScanTokens(SentenceStart, toks[..t - 1], c, threshold, direction).value;
      ScanStateClosedForm(toks, t - 1, c, threshold, direction);
      var step := RelabelStep(sc.state, toks[t - 1], c, threshold, direction);
      ScanTokensSnoc(SentenceStart, toks, t - 1, c, threshold, direction, sc, step);
      StateBeforeStep(toks, t - 1, c, threshold, direction);
    }
  }

  /** Outside the category, a token's step writes iff the propagation reaches it. */
  lemma WriteOutsideCategory(toks: seq<TokenLabels>, t: nat, c: Category, threshold: real, direction: string)
    requires t < |toks| && !InCategory(toks[t].observed, toks[t].predicted, c)
    requires RelabelStep(StateBefore(toks, t, c, threshold, direction), toks[t], c, threshold, direction).Some?
    ensures RelabelStep(StateBefore(toks, t, c, threshold, direction), toks[t], c, threshold, direction).value.write
            <==> PropagatesTo(toks, t, c, threshold, direction)
  {
    var k := LastTrigger(toks, t, c, threshold, direction);
    if k.Some? {
      AliveStep(toks, k.value, t, toks[k.value].predicted, c);
    }
  }

  /** The scan of a prefix of the tokens succeeds and decides the same writes there. */
  lemma {:induction false} ScanPrefixWrites(st: ScanState, toks: seq<TokenLabels>, k: nat,
                                            c: Category, threshold: real, direction: string)
    requires k <= |toks|
    requires ScanTokens(st, toks, c, threshold, direction).Some?
    ensures ScanTokens(st, toks[..k], c, threshold, direction).Some?
    ensures ScanTokens(st, toks[..k], c, threshold, direction).value.writes
            == ScanTokens(st, toks, c, threshold, direction).value.writes[..k]
    decreases |toks|
  {
    if k == |toks| {
      assert toks[..k] == toks;
    } else {
      var init := toks[..|toks| - 1];
      assert init[..k] == toks[..k];
      ScanPrefixWrites(st, init, k, c, threshold, direction);
    }
  }

  /** Outside the category, `relabel_category` rewrites exactly the tokens the propagation
      reaches: a token is relabelled iff an earlier token was triggered, the last such
      token predicted a tag other than `O` with an entity type, and every token since,
      this one included, is in the category or has observed and predicted tags ending
      with that entity type. */
  lemma PropagationWrites(toks: seq<TokenLabels>, c: Category, threshold: real, direction: string)
    requires ScanTokens(SentenceStart, toks, c, threshold, direction).Some?
    ensures var sc := ScanTokens(SentenceStart, toks, c, threshold, direction).value;
            forall t :: 0 <= t < |toks| && !InCategory(toks[t].observed, toks[t].predicted, c) ==>
              (sc.writes[t] <==> PropagatesTo(toks, t, c, threshold, direction))
  {
    forall t | 0 <= t < |toks| && !InCategory(toks[t].observed, toks[t].predicted, c) {
      PropagationWriteAt(toks, t, c, threshold, direction);
    }
  }

  lemma PropagationWriteAt(toks: seq<TokenLabels>, t: nat, c: Category, threshold: real, direction: string)
    requires t < |toks| && !InCategory(toks[t].observed, toks[t].predicted, c)
    requires ScanTokens(SentenceStart, toks, c, threshold, direction).Some?
    ensures ScanTokens(SentenceStart, toks, c, threshold, direction).value.writes[t]
            <==> PropagatesTo(toks, t, c, threshold, direction)
  {
    var full := ScanTokens(SentenceStart, toks, c, threshold, direction).value;
    ScanPrefixWrites(SentenceStart, toks, t, c, threshold, direction);
    ScanPrefixWrites(SentenceStart, toks, t + 1, c, threshold, direction);
    var pre := ScanTokens(SentenceStart, toks[..t], c, threshold, direction).value;
    var next := ScanTokens(SentenceStart, toks[..t + 1], c, threshold, direction).value;
    ScanStateClosedForm(toks, t, c, threshold, direction);
    var step := RelabelStep(pre.state, toks[t], c, threshold, direction);
    ScanTokensSnoc(SentenceStart, toks, t, c, threshold, direction, pre, step);
    assert step.Some? && next.writes == pre.writes + [step.value.write];
    WriteAtStep(full.writes, pre.writes, next.writes, step.value.write);
    WriteOutsideCategory(toks, t, c, threshold, direction);
  }

  lemma WriteAtStep(all: seq<bool>, before: seq<bool>, upTo: seq<bool>, w: bool)
    requires |before| < |all| && upTo == all[..|before| + 1] && upTo == before + [w]
    ensures all[|before|] == w
  {
    assert upTo[|before|] == w;
  }

  /** The scan raises no IndexError when every predicted tag is `O` or has a `-` (a
      well-formed BIOES tag). */
  lemma {:induction false} ScanSucceeds(st: ScanState, toks: seq<TokenLabels>, c: Category, threshold: real, direction: string)
    requires st.prev == "O" || '-' in st.prev
    requires forall t :: 0 <= t < |toks| ==> toks[t].predicted == "O" || '-' in toks[t].predicted
    ensures var r := ScanTokens(st, toks, c, threshold, direction);
            r.Some? && (r.value.state.prev == "O" || '-' in r.value.state.prev)
    decreases |toks|
  {
    if toks != [] {
      ScanSucceeds(st, toks[..|toks| - 1], c, threshold, direction);
    }
  }

  /** Two sentences that agree on every column the scan reads. */
  predicate SameReads(a: seq<TokenLabels>, b: seq<TokenLabels>) {
    |a| == |b| &&
    forall t :: 0 <= t < |a| ==>
      a[t].observed == b[t].observed && a[t].predicted == b[t].predicted && a[t].metric == b[t].metric
  }

  /** The scan does not read the new tags it writes. */
  lemma {:induction false} ScanIgnoresNewTag(st: ScanState, a: seq<TokenLabels>, b: seq<TokenLabels>,
                                             c: Category, threshold: real, direction: string)
    requires SameReads(a, b)
    ensures ScanTokens(st, a, c, threshold, direction) == ScanTokens(st, b, c, threshold, direction)
    decreases |a|
  {
    if a != [] {
      var ia, ib := a[..|a| - 1], b[..|b| - 1];
      SameReadsPrefix(a, b);
      ScanIgnoresNewTag(st, ia, ib, c, threshold, direction);
      ExtendIgnoresNewTag(ScanTokens(st, ia, c, threshold, direction), a[|a| - 1], b[|b| - 1], c, threshold, direction);
    }
  }

  lemma SameReadsPrefix(a: seq<TokenLabels>, b: seq<TokenLabels>)
    requires SameReads(a, b) && a != []
    ensures SameReads(a[..|a| - 1], b[..|b| - 1])
    ensures a[|a| - 1].observed == b[|b| - 1].observed && a[|a| - 1].predicted == b[|b| - 1].predicted
    ensures a[|a| - 1].metric == b[|b| - 1].metric
  {
    var ia, ib := a[..|a| - 1], b[..|b| - 1];
    assert forall t :: 0 <= t < |ia| ==> ia[t] == a[t] && ib[t] == b[t];
  }

  lemma ExtendIgnoresNewTag(so: Option<Scan>, x: TokenLabels, y: TokenLabels, c: Category, threshold: real, direction: string)
    requires x.observed == y.observed && x.predicted == y.predicted && x.metric == y.metric
    ensures Extend(so, x, c, threshold, direction) == Extend(so, y, c, threshold, direction)
  {
    if so.Some? {
      assert RelabelStep(so.value.state, x, c, threshold, direction)
             == RelabelStep(so.value.state, y, c, threshold, direction);
    }
  }

  lemma {:induction false} ScanDatasetIgnoresNewTag(a: Dataset, b: Dataset, c: Category, threshold: real, direction: string)
    requires |a| == |b| && forall s :: 0 <= s < |a| ==> SameReads(a[s], b[s])
    ensures ScanDataset(a, c, threshold, direction) == ScanDataset(b, c, threshold, direction)
    decreases |a|
  {
    if a != [] {
      var ia, ib := a[..|a| - 1], b[..|b| - 1];
      assert |ia| == |ib| && forall s :: 0 <= s < |ia| ==> ia[s] == a[s] && ib[s] == b[s];
      ScanDatasetIgnoresNewTag(ia, ib, c, threshold, direction);
      ScanIgnoresNewTag(SentenceStart, a[|a| - 1], b[|b| - 1], c, threshold, direction);
    }
  }

  /** Relabelling a relabelled dataset with the same parameters makes the same decisions,
      reports the same counts and changes nothing more. */
  lemma RelabelIdempotent(d: Dataset, c: Category, threshold: real, direction: string)
    requires ScanDataset(d, c, threshold, direction).Some?
    ensures var rl := ScanDataset(d, c, threshold, direction).value;
            var once := RelabelAll(d, rl.writes);
            && ScanDataset(once, c, threshold, direction) == Some(rl)
            && RelabelAll(once, rl.writes) == once
  {
    var rl := ScanDataset(d, c, threshold, direction).value;
    RelabelKeepsReads(d, rl.writes);
    ScanDatasetIgnoresNewTag(d, RelabelAll(d, rl.writes), c, threshold, direction);
    RelabelAllTwice(d, rl.writes);
  }

  /** Writing new tags leaves the columns the scan reads alone. */
  lemma RelabelKeepsReads(d: Dataset, writes: seq<seq<bool>>)
    requires |writes| == |d| && forall s :: 0 <= s < |d| ==> |writes[s]| == |d[s]|
    ensures |RelabelAll(d, writes)| == |d|
    ensures forall s :: 0 <= s < |d| ==> SameReads(d[s], RelabelAll(d, writes)[s])
  {
    var once := RelabelAll(d, writes);
    forall s | 0 <= s < |d|
      ensures SameReads(d[s], once[s])
    {
    }
  }

  /** Applying the same writes twice gives what applying them once does. */
  lemma RelabelAllTwice(d: Dataset, writes: seq<seq<bool>>)
    requires |writes| == |d| && forall s :: 0 <= s < |d| ==> |writes[s]| == |d[s]|
    ensures RelabelAll(RelabelAll(d, writes), writes) == RelabelAll(d, writes)
  {
    var once := RelabelAll(d, writes);
    assert forall s :: 0 <= s < |d| ==> ApplyWrites(once[s], writes[s]) == once[s];
  }

  /** The first counter of `relabel_category` is the number of triggered tokens; together
      the counters count the relabelled tokens. */
  lemma {:induction false} RelabelCounts(d: Dataset, c: Category, threshold: real, direction: string)
    requires ScanDataset(d, c, threshold, direction).Some?
    ensures var rl := ScanDataset(d, c, threshold, direction).value;
            && rl.changed == TriggeredCount(d, c, threshold, direction)
            && rl.changed + rl.additionally == TrueCountAll(rl.writes)
    decreases |d|
  {
    if d != [] {
      var init := d[..|d| - 1];
      var sentence := ScanTokens(SentenceStart, d[|d| - 1], c, threshold, direction);
      ScanDatasetUnfold(d, c, threshold, direction);
      var before := ScanDataset(init, c, threshold, direction);
      assert before.Some? && sentence.Some?;
      AddSentenceSome(before.value, sentence);
      RelabelCounts(init, c, threshold, direction);
      ScanCounts(SentenceStart, d[|d| - 1], c, threshold, direction);
      var w := ScanDataset(d, c, threshold, direction).value.writes;
      assert w[..|w| - 1] == before.value.writes && w[|w| - 1] == sentence.value.writes;
    }
  }

  function TrueCountAll(w: seq<seq<bool>>): nat {
    if w == [] then 0 else TrueCountAll(w[..|w| - 1]) + TrueCount(w[|w| - 1])
  }

  /** The scan of one more token of a sentence extends the scan of the tokens before it. */
  lemma ScanTokensSnoc(st: ScanState, toks: seq<TokenLabels>, t: nat, c: Category, threshold: real, direction: string,
                       sc: Scan, step: Option<Step>)
    requires t < |toks|
    requires ScanTokens(st, toks[..t], c, threshold, direction) == Some(sc)
    requires step == RelabelStep(sc.state, toks[t], c, threshold, direction)
    ensures step.None? ==> ScanTokens(st, toks[..t + 1], c, threshold, direction).None?
    ensures step.Some? ==>
              ScanTokens(st, toks[..t + 1], c, threshold, direction)
              == Some(Scan(step.value.state, sc.writes + [step.value.write], sc.changed + step.value.changed,
                           sc.additionally + step.value.additionally))
  {
    var init := toks[..t + 1];
    assert |init| - 1 == t;
    assert init[..t] == toks[..t] && init[t] == toks[t];
    ScanTokensUnfold(st, init, c, threshold, direction);
    assert ScanTokens(st, init, c, threshold, direction) == Extend(Some(sc), toks[t], c, threshold, direction);
    ExtendSome(sc, toks[t], c, threshold, direction, step);
  }

  lemma ExtendSome(sc: Scan, tok: TokenLabels, c: Category, threshold: real, direction: string, step: Option<Step>)
    requires step == RelabelStep(sc.state, tok, c, threshold, direction)
    ensures step.None? ==> Extend(Some(sc), tok, c, threshold, direction).None?
    ensures step.Some? ==>
              Extend(Some(sc), tok, c, threshold, direction)
              == Some(Scan(step.value.state, sc.writes + [step.value.write], sc.changed + step.value.changed,
                           sc.additionally + step.value.additionally))
  {
  }

  lemma ScanTokensUnfold(st: ScanState, toks: seq<TokenLabels>, c: Category, threshold: real, direction: string)
    requires toks != []
    ensures ScanTokens(st, toks, c, threshold, direction)
            == Extend(ScanTokens(st, toks[..|toks| - 1], c, threshold, direction), toks[|toks| - 1], c, threshold, direction)
  {
  }

  /** The relabelling of one more sentence adds its scan to the relabelling before it. */
  lemma ScanDatasetSnoc(d: Dataset, s: nat, c: Category, threshold: real, direction: string,
                        rl: Relabelling, sentence: Option<Scan>)
    requires s < |d|
    requires ScanDataset(d[..s], c, threshold, direction) == Some(rl)
    requires sentence == ScanTokens(SentenceStart, d[s], c, threshold, direction)
    ensures sentence.None? ==> ScanDataset(d[..s + 1], c, threshold, direction).None?
    ensures sentence.Some? ==>
              ScanDataset(d[..s + 1], c, threshold, direction)
              == Some(Relabelling(rl.writes + [sentence.value.writes], rl.changed + sentence.value.changed,
                                  rl.additionally + sentence.value.additionally))
  {
    var init := d[..s + 1];
    assert |init| - 1 == s;
    assert init[..s] == d[..s] && init[s] == d[s];
    ScanDatasetUnfold(init, c, threshold, direction);
    assert ScanDataset(init, c, threshold, direction) == AddSentence(Some(rl), sentence);
    AddSentenceSome(rl, sentence);
  }

  lemma AddSentenceSome(rl: Relabelling, sentence: Option<Scan>)
    ensures sentence.None? ==> AddSentence(Some(rl), sentence).None?
    ensures sentence.Some? ==>
              AddSentence(Some(rl), sentence)
              == Some(Relabelling(rl.writes + [sentence.value.writes], rl.changed + sentence.value.changed,
                                  rl.additionally + sentence.value.additionally))
  {
  }

  lemma ScanDatasetUnfold(d: Dataset, c: Category, threshold: real, direction: string)
    requires d != []
    ensures ScanDataset(d, c, threshold, direction)
            == AddSentence(ScanDataset(d[..|d| - 1], c, threshold, direction),
                           ScanTokens(SentenceStart, d[|d| - 1], c, threshold, direction))
  {
  }

  /** A failure in a prefix of the tokens is a failure of the whole sentence. */
  lemma {:induction false} ScanPrefixFails(st: ScanState, toks: seq<TokenLabels>, k: nat,
                                           c: Category, threshold: real, direction: string)
    requires k <= |toks|
    requires ScanTokens(st, toks[..k], c, threshold, direction).None?
    ensures ScanTokens(st, toks, c, threshold, direction).None?
    decreases |toks| - k
  {
    if k < |toks| {
      assert toks[..k + 1][..k] == toks[..k];
      ScanPrefixFails(st, toks, k + 1, c, threshold, direction);
    } else {
      assert toks[..k] == toks;
    }
  }

  /** A failure in a prefix of the sentences is a failure of the whole dataset. */
  lemma {:induction false} ScanDatasetPrefixFails(d: Dataset, k: nat, c: Category, threshold: real, direction: string)
    requires k <= |d|
    requires ScanDataset(d[..k], c, threshold, direction).None?
    ensures ScanDataset(d, c, threshold, direction).None?
    decreases |d| - k
  {
    if k < |d| {
      assert d[..k + 1][..k] == d[..k];
      ScanDatasetPrefixFails(d, k + 1, c, threshold, direction);
    } else {
      assert d[..k] == d;
    }
  }

  // ---------------------------------------------------------------- epoch log

  /** One line of an epoch log after the header: a line holding only the line break, or
      a row with its sentence and token indices, predicted and noisy tags and metric. */
  datatype LogLine = Blank | Row(sentIndex: int, tokenIndex: int, predicted: string, noisy: string, metric: real)

  /** Python list indexing: a negative index counts from the end. */
  function PyIndex(i: int, n: nat): (r: Option<nat>)
    ensures r.Some? <==> -(n as int) <= i < n
    ensures r.Some? ==> r.value < n && (r.value == i || r.value == n + i)
  {
    if 0 <= i < n then Some(i) else if -(n as int) <= i < 0 then Some((n + i) as nat) else None
  }

  /** The dataset so far and the sentence the current block of rows writes to. */
  datatype LogState = LogState(data: Dataset, current: Option<nat>)

  function ApplyLine(st: LogState, line: LogLine): Option<LogState>
    requires st.current.Some? ==> st.current.value < |st.data|
  {
    match line
    case Blank => Some(st.(current := None))
    case Row(sentIndex, tokenIndex, predicted, noisy, metric) =>
      var sentence := if st.current.None? then PyIndex(sentIndex, |st.data|) else st.current;
      if sentence.None? then None
      else
        var s := sentence.value;
        match PyIndex(tokenIndex, |st.data[s]|)
        case None => None
        case Some(t) =>
          var tok := st.data[s][t].(predicted := predicted, observed := noisy, metric := metric);
          Some(LogState(st.data[s := st.data[s][t := tok]], Some(s)))
  }

  /** `update_dataset_with_epoch_log_info` over the lines after the header; `None` is an
      IndexError. */
  function ApplyLog(d: Dataset, lines: seq<LogLine>): (r: Option<LogState>)
    ensures r.Some? ==> SameShape(r.value.data, d)
    ensures r.Some? && r.value.current.Some? ==> r.value.current.value < |d|
  {
    if lines == [] then Some(LogState(d, None))
    else
      match ApplyLog(d, lines[..|lines| - 1])
      case None => None
      case Some(st) => ApplyLine(st, lines[|lines| - 1])
  }

  /** The log writes only the predicted tag, the observed tag and the metric: new tags
      and `modified` labels are untouched. */
  lemma {:induction false} LogKeepsOtherColumns(d: Dataset, lines: seq<LogLine>)
    requires ApplyLog(d, lines).Some?
    ensures var r := ApplyLog(d, lines).value.data;
            forall s, t :: 0 <= s < |d| && 0 <= t < |d[s]| ==>
              r[s][t].newTag == d[s][t].newTag && r[s][t].modified == d[s][t].modified
    decreases |lines|
  {
    if lines != [] {
      LogKeepsOtherColumns(d, lines[..|lines| - 1]);
    }
  }

  /** Within a block of rows the sentence is chosen by the block's first row only: after a
      run of rows starting at a blank line (or at the top), every row has written to the
      sentence the first row named. */
  lemma {:induction false} BlockUsesFirstSentence(d: Dataset, before: seq<LogLine>, block: seq<LogLine>)
    requires before == [] || before[|before| - 1] == Blank
    requires block != [] && forall i :: 0 <= i < |block| ==> block[i].Row?
    requires ApplyLog(d, before + block).Some?
    ensures ApplyLog(d, before + block).value.current == PyIndex(block[0].sentIndex, |d|)
    decreases |block|
  {
    var lines := before + block;
    assert lines[..|lines| - 1] == before + block[..|block| - 1];
    if |block| == 1 {
      assert before + block[..0] == before;
      if before != [] {
        assert before[..|before| - 1] + [Blank] == before;
      }
    } else {
      BlockUsesFirstSentence(d, before, block[..|block| - 1]);
    }
  }

  /** The last row of a log sets the fields of the token it names. */
  lemma LastRowWins(d: Dataset, lines: seq<LogLine>)
    requires lines != [] && lines[|lines| - 1].Row?
    requires ApplyLog(d, lines).Some?
    ensures var r := ApplyLog(d, lines).value;
            var row := lines[|lines| - 1];
            && r.current.Some?
            && var s := r.current.value;
               && PyIndex(row.tokenIndex, |d[s]|).Some?
               && var tok := r.data[s][PyIndex(row.tokenIndex, |d[s]|).value];
                  tok.predicted == row.predicted && tok.observed == row.noisy && tok.metric == row.metric
  {
  }

  /** A failure on a prefix of the lines is a failure of the whole log. */
  lemma {:induction false} LogPrefixFails(d: Dataset, lines: seq<LogLine>, k: nat)
    requires k <= |lines|
    requires ApplyLog(d, lines[..k]).None?
    ensures ApplyLog(d, lines).None?
    decreases |lines| - k
  {
    if k < |lines| {
      assert lines[..k + 1][..k] == lines[..k];
      LogPrefixFails(d, lines, k + 1);
    } else {
      assert lines[..k] == lines;
    }
  }

  // ---------------------------------------------------------------- copy_new_tag_to_original

  /** A span's identity within its sentence. */
  datatype SpanKey = SpanKey(start: nat, last: nat)

  function KeyOf(sp: Span): SpanKey {
    SpanKey(sp.start, sp.last)
  }

  /** The entity labels a sentence's spans receive from a list of span labels set one
      after the other: the last label set on a span stays. */
  function LabelMap(labels: seq<Span>): map<SpanKey, string> {
    if labels == [] then map[]
    else LabelMap(labels[..|labels| - 1])[KeyOf(labels[|labels| - 1]) := labels[|labels| - 1].value]
  }

  /** A span has a label iff some label names it, and the label it keeps is the value of
      the last one that names it. */
  lemma {:induction false} LabelMapLastWins(labels: seq<Span>)
    ensures forall k :: k in LabelMap(labels) <==> exists i :: 0 <= i < |labels| && KeyOf(labels[i]) == k
    ensures forall i :: 0 <= i < |labels| ==>
              (forall j :: i < j < |labels| ==> KeyOf(labels[j]) != KeyOf(labels[i])) ==>
              LabelMap(labels)[KeyOf(labels[i])] == labels[i].value
    decreases |labels|
  {
    if labels != [] {
      var init := labels[..|labels| - 1];
      LabelMapLastWins(init);
      forall k | k in LabelMap(labels)
        ensures exists i :: 0 <= i < |labels| && KeyOf(labels[i]) == k
      {
        if k != KeyOf(labels[|labels| - 1]) {
          var i :| 0 <= i < |init| && KeyOf(init[i]) == k;
          assert labels[i] == init[i];
        }
      }
      forall i | 0 <= i < |labels| - 1
        ensures labels[i] == init[i]
      {
      }
    }
  }

  /** The entity labels of a sentence after `copy_new_tag_to_original`: every span
      labelled in the new column gets that label in the original column; the original
      labels of other spans stay. */
  function CopyLabels(original: map<SpanKey, string>, newLabels: seq<Span>): (r: map<SpanKey, string>)
    ensures r.Keys == original.Keys + LabelMap(newLabels).Keys
    ensures forall k :: k in r ==> r[k] == if k in LabelMap(newLabels) then LabelMap(newLabels)[k] else original[k]
  {
    original + LabelMap(newLabels)
  }
}
