/** The training corpus whose token labels the remediation steps of
    pipeline_sample_metrics_token_categories.py change in place, sentence by sentence and
    token by token. */
module CorpusOps {
  import opened Wrappers
  import opened Strings
  import opened Categories
  import opened Bioes
  import opened Remediation

  /** Which token column `add_bioes_ner_tags` fills: the observed BIOES column
      (`ner_bio`) or the new one (`ner_new_bio`). */
  datatype Column = ObservedColumn | NewColumn

  /** A token whose given column holds `tag` and whose `modified` label is cleared. */
  function WithBioesTag(tok: TokenLabels, column: Column, tag: string): TokenLabels {
    match column
    case ObservedColumn => tok.(observed := tag, modified := false)
    case NewColumn => tok.(newTag := tag, modified := false)
  }

  /** A token after its write flag is applied. */
  function Relabelled(tok: TokenLabels, w: bool): TokenLabels {
    if w then tok.(newTag := tok.predicted) else tok
  }

  /** The tokens of a sentence whose first `|writes|` tokens have been relabelled. */
  function PartlyRelabelled(toks: seq<TokenLabels>, writes: seq<bool>): (r: seq<TokenLabels>)
    requires |writes| <= |toks|
    ensures |r| == |toks|
  {
    seq(|toks|, i requires 0 <= i < |toks| => if i < |writes| then Relabelled(toks[i], writes[i]) else toks[i])
  }

  lemma PartlyRelabelledStep(toks: seq<TokenLabels>, writes: seq<bool>, w: bool)
    requires |writes| < |toks|
    ensures PartlyRelabelled(toks, writes + [w])
            == PartlyRelabelled(toks, writes)[|writes| := Relabelled(toks[|writes|], w)]
  {
  }

  lemma PartlyRelabelledAll(toks: seq<TokenLabels>, writes: seq<bool>)
    requires |writes| == |toks|
    ensures PartlyRelabelled(toks, writes) == ApplyWrites(toks, writes)
  {
  }

  /** The dataset whose first `|writes|` sentences have been relabelled. */
  function PartlyRelabelledData(d: Dataset, writes: seq<seq<bool>>): (r: Dataset)
    requires |writes| <= |d|
    ensures |r| == |d|
  {
    seq(|d|, i requires 0 <= i < |d| =>
      if i < |writes| && |writes[i]| == |d[i]| then ApplyWrites(d[i], writes[i]) else d[i])
  }

  lemma PartlyRelabelledDataStep(d: Dataset, writes: seq<seq<bool>>, w: seq<bool>)
    requires |writes| < |d| && |w| == |d[|writes|]|
    ensures PartlyRelabelledData(d, writes + [w])
            == PartlyRelabelledData(d, writes)[|writes| := ApplyWrites(d[|writes|], w)]
  {
  }

  lemma PartlyRelabelledDataAll(d: Dataset, writes: seq<seq<bool>>)
    requires |writes| == |d| && forall s :: 0 <= s < |d| ==> |writes[s]| == |d[s]|
    ensures PartlyRelabelledData(d, writes) == RelabelAll(d, writes)
  {
  }

  /** The tokens of a sentence whose first `t` tokens have been masked. */
  function PartlyMaskedTokens(toks: seq<TokenLabels>, t: nat, c: Category, threshold: real, direction: string)
    : (r: seq<TokenLabels>)
    ensures |r| == |toks|
  {
    seq(|toks|, i requires 0 <= i < |toks| => if i < t then MaskToken(toks[i], c, threshold, direction) else toks[i])
  }

  lemma PartlyMaskedTokensStep(toks: seq<TokenLabels>, t: nat, c: Category, threshold: real, direction: string)
    requires t < |toks|
    ensures PartlyMaskedTokens(toks, t + 1, c, threshold, direction)
            == PartlyMaskedTokens(toks, t, c, threshold, direction)[t := MaskToken(toks[t], c, threshold, direction)]
    ensures t + 1 == |toks| ==>
              PartlyMaskedTokens(toks, t + 1, c, threshold, direction) == MaskSentence(toks, c, threshold, direction)
  {
  }

  /** The dataset whose first `s` sentences have been masked. */
  function PartlyMasked(d: Dataset, s: nat, c: Category, threshold: real, direction: string): (r: Dataset)
    ensures |r| == |d|
  {
    seq(|d|, i requires 0 <= i < |d| => if i < s then MaskSentence(d[i], c, threshold, direction) else d[i])
  }

  lemma PartlyMaskedStep(d: Dataset, s: nat, c: Category, threshold: real, direction: string)
    requires s < |d|
    ensures PartlyMasked(d, s + 1, c, threshold, direction)
            == PartlyMasked(d, s, c, threshold, direction)[s := MaskSentence(d[s], c, threshold, direction)]
    ensures s + 1 == |d| ==> PartlyMasked(d, s + 1, c, threshold, direction) == MaskAll(d, c, threshold, direction)
  {
  }

  class Corpus {
    /** The token columns of every sentence. */
    var sentences: Dataset
    /** The entity labels of every sentence in the original tag column, by span. */
    var entities: seq<map<SpanKey, string>>

    constructor (sentences: Dataset, entities: seq<map<SpanKey, string>>)
      ensures this.sentences == sentences && this.entities == entities
    {
      this.sentences := sentences;
      this.entities := entities;
    }

    /** `mask_category`: every triggered token's new tag becomes `S-MASK`; returns the
        number of masked tokens and 0. */
    method MaskCategory(c: Category, threshold: real, direction: string) returns (changed: nat, additionally: nat)
      modifies this
      ensures sentences == MaskAll(old(sentences), c, threshold, direction)
      ensures changed == TriggeredCount(old(sentences), c, threshold, direction) && additionally == 0
      ensures entities == old(entities)
    {
      changed, additionally := 0, 0;
      ghost var d := sentences;
      for s := 0 to |sentences|
        invariant sentences == PartlyMasked(d, s, c, threshold, direction)
        invariant changed == TriggeredCount(d[..s], c, threshold, direction)
        invariant entities == old(entities)
      {
        var sentence, count := MaskSentenceTokens(sentences[s], c, threshold, direction);
        PartlyMaskedStep(d, s, c, threshold, direction);
        assert d[..s + 1][..s] == d[..s];
        sentences := sentences[s := sentence];
        changed := changed + count;
      }
      assert d[..|d|] == d;
    }

    /** The body of `mask_category` for one sentence: each triggered token's new tag
        becomes `S-MASK`. Returns the masked tokens and the number of triggered ones. */
    static method MaskSentenceTokens(toks: seq<TokenLabels>, c: Category, threshold: real, direction: string)
      returns (sentence: seq<TokenLabels>, count: nat)
      ensures sentence == MaskSentence(toks, c, threshold, direction)
      ensures count == TriggeredIn(toks, c, threshold, direction)
    {
      sentence, count := toks, 0;
      for t := 0 to |toks|
        invariant sentence == PartlyMaskedTokens(toks, t, c, threshold, direction)
        invariant count == TriggeredIn(toks[..t], c, threshold, direction)
      {
        var tok := sentence[t];
        PartlyMaskedTokensStep(toks, t, c, threshold, direction);
        assert toks[..t + 1][..t] == toks[..t];
        if InCategory(tok.observed, tok.predicted, c) {
          if Exceeds(tok.metric, threshold, direction) {
            sentence := sentence[t := tok.(newTag := "S-MASK")];
            count := count + 1;
          }
        }
      }
      assert toks[..|toks|] == toks;
    }

    /** `relabel_category`: each triggered token, and each token propagating the entity of
        the last triggered one, takes its predicted tag as its new tag. Returns the two
        counters, or the IndexError raised for a relabelled tag without `-` (the labels
        written before the error are not described). */
    method RelabelCategory(c: Category, threshold: real, direction: string) returns (r: Result<(nat, nat)>)
      modifies this
      ensures ScanDataset(old(sentences), c, threshold, direction).None? ==> r == Failure(IndexError)
      ensures ScanDataset(old(sentences), c, threshold, direction).Some? ==>
                var rl := ScanDataset(old(sentences), c, threshold, direction).value;
                && r == Success((rl.changed, rl.additionally))
                && sentences == RelabelAll(old(sentences), rl.writes)
      ensures entities == old(entities)
    {
      ghost var d := sentences;
      var changed: nat, additionally: nat := 0, 0;
      ghost var writes: seq<seq<bool>> := [];
      ghost var rl := Relabelling(writes, changed, additionally);
      var relabelled := sentences;
      var failed := false;
      for s := 0 to |relabelled|
        invariant |writes| == s
        invariant ScanDataset(d[..s], c, threshold, direction) == Some(rl)
        invariant rl == Relabelling(writes, changed, additionally)
        invariant relabelled == PartlyRelabelledData(d, writes)
        invariant !failed && entities == old(entities)
      {
        var sentence, counts, sentenceWrites, next := RelabelSentenceAt(d, s, relabelled[s], c, threshold, direction, rl);
        if counts.None? {
          failed := true;
          break;
        }
        PartlyRelabelledDataStep(d, writes, sentenceWrites);
        relabelled := relabelled[s := sentence];
        writes := writes + [sentenceWrites];
        changed := changed + counts.value.0;
        additionally := additionally + counts.value.1;
        rl := next;
      }
      sentences := relabelled;
      if failed {
        return Failure(IndexError);
      }
      assert d[..|d|] == d;
      PartlyRelabelledDataAll(d, writes);
      r := Success((changed, additionally));
    }

    /** The body of `relabel_category` for one sentence: the scan state starts afresh, and
        the tokens are relabelled as the scan decides. Returns the relabelled tokens and the
        sentence's two counters, or `None` for an IndexError. */
    static method RelabelSentence(toks: seq<TokenLabels>, c: Category, threshold: real, direction: string)
      returns (sentence: seq<TokenLabels>, counts: Option<(nat, nat)>, ghost writes: seq<bool>)
      ensures var sc := ScanTokens(SentenceStart, toks, c, threshold, direction);
              && (sc.None? <==> counts.None?)
              && (sc.Some? ==>
                    && counts == Some((sc.value.changed, sc.value.additionally))
                    && writes == sc.value.writes
                    && sentence == ApplyWrites(toks, writes))
    {
      sentence := toks;
      var st := SentenceStart;
      writes := [];
      var changed: nat, additionally: nat := 0, 0;
      ghost var scan := Scan(st, writes, changed, additionally);
      for t := 0 to |toks|
        invariant |writes| == t
        invariant ScanTokens(SentenceStart, toks[..t], c, threshold, direction) == Some(scan)
        invariant scan == Scan(st, writes, changed, additionally)
        invariant sentence == PartlyRelabelled(toks, writes)
      {
        var step, next := RelabelTokenAt(toks, t, c, threshold, direction, st, scan);
        if step.None? {
          return sentence, None, writes;
        }
        var w := step.value.write;
        PartlyRelabelledStep(toks, writes, w);
        sentence := sentence[t := Relabelled(toks[t], w)];
        st := step.value.state;
        writes := writes + [w];
        changed := changed + step.value.changed;
        additionally := additionally + step.value.additionally;
        scan := next;
      }
      assert toks[..|toks|] == toks;
      PartlyRelabelledAll(toks, writes);
      counts := Some((changed, additionally));
    }

    /** One sentence of the dataset's relabelling: the sentence `s` after the relabelling
        `rl` of the sentences before it. */
    static method RelabelSentenceAt(ghost d: Dataset, s: nat, toks: seq<TokenLabels>,
                                    c: Category, threshold: real, direction: string, ghost rl: Relabelling)
      returns (sentence: seq<TokenLabels>, counts: Option<(nat, nat)>, ghost writes: seq<bool>, ghost next: Relabelling)
      requires s < |d| && toks == d[s]
      requires ScanDataset(d[..s], c, threshold, direction) == Some(rl)
      ensures counts.None? ==> ScanDataset(d, c, threshold, direction).None?
      ensures counts.Some? ==>
                && ScanDataset(d[..s + 1], c, threshold, direction) == Some(next)
                && next == Relabelling(rl.writes + [writes], rl.changed + counts.value.0,
                                       rl.additionally + counts.value.1)
                && |writes| == |toks|
                && sentence == ApplyWrites(toks, writes)
    {
      sentence, counts, writes := RelabelSentence(toks, c, threshold, direction);
      next := rl;
      if counts.Some? {
        next := Relabelling(rl.writes + [writes], rl.changed + counts.value.0, rl.additionally + counts.value.1);
      }
      ScanDatasetSnoc(d, s, c, threshold, direction, rl, ScanTokens(SentenceStart, d[s], c, threshold, direction));
      if counts.None? {
        ScanDatasetPrefixFails(d, s + 1, c, threshold, direction);
      }
    }

    /** One token of a sentence's scan: the step taken at token `t` after the scan `sc` of
        the tokens before it. */
    static method RelabelTokenAt(toks: seq<TokenLabels>, t: nat, c: Category, threshold: real, direction: string,
                                 st: ScanState, ghost sc: Scan)
      returns (step: Option<Step>, ghost next: Scan)
      requires t < |toks| && st == sc.state
      requires ScanTokens(SentenceStart, toks[..t], c, threshold, direction) == Some(sc)
      ensures step.None? ==> ScanTokens(SentenceStart, toks, c, threshold, direction).None?
      ensures step.Some? ==>
                && ScanTokens(SentenceStart, toks[..t + 1], c, threshold, direction) == Some(next)
                && next == Scan(step.value.state, sc.writes + [step.value.write], sc.changed + step.value.changed,
                                sc.additionally + step.value.additionally)
    {
      step := RelabelToken(st, toks[t], c, threshold, direction);
      next := sc;
      if step.Some? {
        next := Scan(step.value.state, sc.writes + [step.value.write], sc.changed + step.value.changed,
                     sc.additionally + step.value.additionally);
      }
      ScanTokensSnoc(SentenceStart, toks, t, c, threshold, direction, sc, step);
      if step.None? {
        ScanPrefixFails(SentenceStart, toks, t + 1, c, threshold, direction);
      }
    }

    /** The loop body of `relabel_category` for one token: the category and threshold
        test, then the propagation test on `prev` and `previous_changed`. */
    static method RelabelToken(st: ScanState, tok: TokenLabels, c: Category, threshold: real, direction: string)
      returns (r: Option<Step>)
      ensures r == RelabelStep(st, tok, c, threshold, direction)
    {
      var prev, previousChanged := st.prev, st.previousChanged;
      if InCategory(tok.observed, tok.predicted, c) {
        if Exceeds(tok.metric, threshold, direction) {
          return Some(Step(ScanState(tok.predicted, true), true, 1, 0));
        }
        return Some(Step(st, false, 0, 0));
      }
      if previousChanged && prev != "O" {
        var entity := EntityType(prev);
        if entity.None? {
          return None;
        }
        if EndsWith(tok.observed, entity.value) && EndsWith(tok.predicted, entity.value) {
          return Some(Step(st, true, 0, 1));
        }
      }
      return Some(Step(ScanState(prev, false), false, 0, 0));
    }

    /** `add_bioes_ner_tags`: in every sentence the chosen column becomes the BIOES encoding
        of the sentence's spans and `modified` is cleared; nothing else changes. */
    method AddBioesTags(spans: seq<seq<Span>>, column: Column)
      requires |spans| == |sentences|
      requires forall s :: 0 <= s < |spans| ==> InBounds(spans[s], |sentences[s]|)
      modifies this
      ensures SameShape(sentences, old(sentences))
      ensures forall s, t :: 0 <= s < |sentences| && 0 <= t < |sentences[s]| ==>
                sentences[s][t] == WithBioesTag(old(sentences)[s][t], column,
                                                Encode(|old(sentences)[s]|, spans[s], BIOES)[t])
      ensures entities == old(entities)
    {
      ghost var d := sentences;
      for s := 0 to |sentences|
        invariant |sentences| == |d|
        invariant forall s' :: 0 <= s' < s ==> |sentences[s']| == |d[s']|
        invariant forall s', t :: 0 <= s' < s && 0 <= t < |d[s']| ==>
                    sentences[s'][t] == WithBioesTag(d[s'][t], column, Encode(|d[s']|, spans[s'], BIOES)[t])
        invariant forall s' :: s <= s' < |d| ==> sentences[s'] == d[s']
        invariant entities == old(entities)
      {
        var tags := SentenceLabels(|sentences[s]|, spans[s], BIOES);
        var sentence := sentences[s];
        var updated := [];
        for t := 0 to |sentence|
          invariant |updated| == t
          invariant forall t' :: 0 <= t' < t ==> updated[t'] == WithBioesTag(sentence[t'], column, tags[t'])
        {
          updated := updated + [WithBioesTag(sentence[t], column, tags[t])];
        }
        sentences := sentences[s := updated];
      }
    }

    /** `update_dataset_with_epoch_log_info` over the log lines after the header: each row
        writes the predicted tag, the observed (noisy) tag and the metric of the token it
        names. Fails with IndexError on a sentence or token index out of range (the rows
        applied before the error are not described). */
    method UpdateWithEpochLog(lines: seq<LogLine>) returns (r: Result<()>)
      modifies this
      ensures ApplyLog(old(sentences), lines).None? ==> r == Failure(IndexError)
      ensures ApplyLog(old(sentences), lines).Some? ==>
                r == Success(()) && sentences == ApplyLog(old(sentences), lines).value.data
      ensures entities == old(entities)
    {
      ghost var d := sentences;
      var current: Option<nat> := None;
      for i := 0 to |lines|
        invariant ApplyLog(d, lines[..i]) == Some(LogState(sentences, current))
        invariant entities == old(entities)
      {
        assert lines[..i + 1][..i] == lines[..i];
        var line := lines[i];
        if line.Blank? {
          current := None;
        } else {
          if current.None? {
            current := PyIndex(line.sentIndex, |sentences|);
            if current.None? {
              LogPrefixFails(d, lines, i + 1);
              return Failure(IndexError);
            }
          }
          var s := current.value;
          var t := PyIndex(line.tokenIndex, |sentences[s]|);
          if t.None? {
            LogPrefixFails(d, lines, i + 1);
            return Failure(IndexError);
          }
          var tok := sentences[s][t.value];
          sentences := sentences[s := sentences[s][t.value := tok.(predicted := line.predicted,
                                                                   observed := line.noisy,
                                                                   metric := line.metric)]];
        }
      }
      assert lines[..|lines|] == lines;
      r := Success(());
    }

    /** `copy_new_tag_to_original`: every span labelled in a sentence's new column takes
        that label in the original column, one label after the other. */
    method CopyNewTagToOriginal(newLabels: seq<seq<Span>>)
      requires |newLabels| == |entities|
      modifies this
      ensures |entities| == |old(entities)|
      ensures forall s :: 0 <= s < |entities| ==> entities[s] == CopyLabels(old(entities)[s], newLabels[s])
      ensures sentences == old(sentences)
    {
      for s := 0 to |entities|
        invariant |entities| == |old(entities)|
        invariant forall s' :: 0 <= s' < s ==> entities[s'] == CopyLabels(old(entities)[s'], newLabels[s'])
        invariant forall s' :: s <= s' < |entities| ==> entities[s'] == old(entities)[s']
        invariant sentences == old(sentences)
      {
        var labels := entities[s];
        for k := 0 to |newLabels[s]|
          invariant labels == old(entities)[s] + LabelMap(newLabels[s][..k])
        {
          var lab := newLabels[s][k];
          assert newLabels[s][..k + 1][..k] == newLabels[s][..k];
          labels := labels[KeyOf(lab) := lab.value];
        }
        assert newLabels[s][..|newLabels[s]|] == newLabels[s];
        entities := entities[s := labels];
      }
    }
  }
}
