/** Token-level encoding of entity spans (`_get_gold_labels` in sequence_tagger_model.py,
    `add_bioes_ner_tags` in pipeline_sample_metrics_token_categories.py) and the tag rewrite
    applied when a dataset is written out (`output_bio_dataset`). */
module Bioes {
  import opened Wrappers
  import opened Strings

  /** An entity span over the 0-based token positions `start..last` (both included). */
  datatype Span = Span(start: nat, last: nat, value: string)

  datatype Scheme = BIO | BIOES

  /** Every span lies inside a sentence of `n` tokens. */
  predicate InBounds(spans: seq<Span>, n: nat) {
    forall k :: 0 <= k < |spans| ==> spans[k].start <= spans[k].last < n
  }

  /** The tag span `sp` gives to position `i`, one of its own positions. */
  function SpanTag(scheme: Scheme, sp: Span, i: nat): string {
    match scheme
    case BIOES =>
      if sp.start == sp.last then "S-" + sp.value
      else if i == sp.start then "B-" + sp.value
      else if i == sp.last then "E-" + sp.value
      else "I-" + sp.value
    case BIO =>
      if i == sp.start then "B-" + sp.value else "I-" + sp.value
  }

  /** `labels` with the positions of `sp` overwritten by the span's tags. */
  function Paint(labels: seq<string>, sp: Span, scheme: Scheme): (r: seq<string>)
    ensures |r| == |labels|
  {
    seq(|labels|, i requires 0 <= i < |labels| =>
      if sp.start <= i <= sp.last then SpanTag(scheme, sp, i) else labels[i])
  }

  /** The tags of a sentence of `n` tokens: all `O`, then every span painted in order, so a
      later span overwrites an earlier one where they overlap. */
  function Encode(n: nat, spans: seq<Span>, scheme: Scheme): (labels: seq<string>)
    ensures |labels| == n
  {
    if spans == [] then seq(n, _ => "O")
    else Paint(Encode(n, spans[..|spans| - 1], scheme), spans[|spans| - 1], scheme)
  }

  predicate Covers(sp: Span, i: nat) {
    sp.start <= i <= sp.last
  }

  /** Spans that share no position. */
  predicate Disjoint(spans: seq<Span>) {
    forall k, l :: 0 <= k < l < |spans| ==>
      spans[k].last < spans[l].start || spans[l].last < spans[k].start
  }

  /** With disjoint spans, each position of a span carries that span's tag (`S-` for a
      one-token span, otherwise `B-` first, `E-` last and `I-` between in BIOES; `B-`
      then `I-` in BIO), and every position outside all spans is `O`. */
  lemma {:induction false} EncodePositions(n: nat, spans: seq<Span>, scheme: Scheme)
    requires Disjoint(spans)
    ensures forall k, i :: 0 <= k < |spans| && 0 <= i < n && Covers(spans[k], i) ==>
              Encode(n, spans, scheme)[i] == SpanTag(scheme, spans[k], i)
    ensures forall i :: 0 <= i < n && (forall k :: 0 <= k < |spans| ==> !Covers(spans[k], i)) ==>
              Encode(n, spans, scheme)[i] == "O"
    decreases |spans|
  {
    if spans != [] {
      var init := spans[..|spans| - 1];
      assert Disjoint(init) by {
        forall k, l | 0 <= k < l < |init|
          ensures init[k].last < init[l].start || init[l].last < init[k].start
        {
          assert init[k] == spans[k] && init[l] == spans[l];
        }
      }
      EncodePositions(n, init, scheme);
      forall i | 0 <= i < n && (forall k :: 0 <= k < |spans| ==> !Covers(spans[k], i))
        ensures Encode(n, spans, scheme)[i] == "O"
      {
        assert forall k :: 0 <= k < |init| ==> init[k] == spans[k];
        assert !Covers(spans[|spans| - 1], i);
      }
      forall k, i | 0 <= k < |spans| && 0 <= i < n && Covers(spans[k], i)
        ensures Encode(n, spans, scheme)[i] == SpanTag(scheme, spans[k], i)
      {
        if k < |spans| - 1 {
          assert init[k] == spans[k];
          assert !Covers(spans[|spans| - 1], i);
        }
      }
    }
  }

  /** The tags of one sentence (`sentence_labels`), written into a list of `O`s span by
      span in the order the source takes the writes. */
  method SentenceLabels(n: nat, spans: seq<Span>, scheme: Scheme) returns (labels: seq<string>)
    requires InBounds(spans, n)
    ensures labels == Encode(n, spans, scheme)
  {
    var a := new string[n](_ => "O");
    assert a[..] == Encode(n, spans[..0], scheme);
    for k := 0 to |spans|
      invariant a[..] == Encode(n, spans[..k], scheme)
    {
      PaintSpan(a, spans[k], scheme);
      assert spans[..k + 1][..k] == spans[..k];
    }
    assert spans[..|spans|] == spans;
    labels := a[..];
  }

  /** The writes of one span: `S-` for a one-token span in BIOES, otherwise `B-` at the
      start, then `E-` at the end in BIOES, then `I-` in between (through the end in BIO). */
  method PaintSpan(a: array<string>, sp: Span, scheme: Scheme)
    requires sp.start <= sp.last < a.Length
    modifies a
    ensures a[..] == Paint(old(a[..]), sp, scheme)
  {
    ghost var before := a[..];
    if scheme == BIOES && sp.start == sp.last {
      a[sp.start] := "S-" + sp.value;
    } else if scheme == BIOES {
      a[sp.start] := "B-" + sp.value;
      a[sp.last] := "E-" + sp.value;
      for i := sp.start + 1 to sp.last
        invariant forall j :: 0 <= j < a.Length ==>
                    a[j] == if Covers(sp, j) && (j < i || j == sp.last) then SpanTag(scheme, sp, j) else before[j]
      {
        a[i] := "I-" + sp.value;
      }
    } else {
      a[sp.start] := "B-" + sp.value;
      for i := sp.start + 1 to sp.last + 1
        invariant forall j :: 0 <= j < a.Length ==>
                    a[j] == if Covers(sp, j) && j < i then SpanTag(scheme, sp, j) else before[j]
      {
        a[i] := "I-" + sp.value;
      }
    }
  }

  /** A sentence as the label extraction sees it: each token's labels by label type (a
      type the token has no label of is absent from its map), and the sentence's entity
      spans by label type. */
  datatype Sentence = Sentence(tokenLabels: seq<map<string, string>>, spans: map<string, seq<Span>>)

  predicate WellFormed(s: Sentence) {
    forall t :: t in s.spans ==> InBounds(s.spans[t], |s.tokenLabels|)
  }

  /** `sentence.get_labels(labelType)`: the spans of that type, none for a type the
      sentence has no labels of. */
  function SpansOf(s: Sentence, labelType: string): (spans: seq<Span>)
    ensures WellFormed(s) ==> InBounds(spans, |s.tokenLabels|)
    ensures labelType !in s.spans ==> spans == []
  {
    if labelType in s.spans then s.spans[labelType] else []
  }

  /** `token.get_label(labelType, "O").value` for every token of the sentence. */
  function ColumnLabels(s: Sentence, labelType: string): (labels: seq<string>)
    ensures |labels| == |s.tokenLabels|
    ensures forall i :: 0 <= i < |labels| ==>
              (labelType in s.tokenLabels[i] ==> labels[i] == s.tokenLabels[i][labelType]) &&
              (labelType !in s.tokenLabels[i] ==> labels[i] == "O")
  {
    seq(|s.tokenLabels|, i requires 0 <= i < |s.tokenLabels| =>
      if labelType in s.tokenLabels[i] then s.tokenLabels[i][labelType] else "O")
  }

  /** `label_type` defaults to the model's own label type. */
  function ResolveLabelType(modelType: string, requested: Option<string>): string {
    if requested.Some? then requested.value else modelType
  }

  /** One sentence's gold labels as `_get_gold_labels` is written: the span mode encodes
      the spans of the requested label type, but the token mode reads the model's own
      label type whatever was requested. */
  function SentenceGoldAsWritten(s: Sentence, modelType: string, requested: Option<string>,
                                 predictSpans: bool, scheme: Scheme): (labels: seq<string>)
    ensures |labels| == |s.tokenLabels|
    ensures !predictSpans ==> labels == ColumnLabels(s, modelType)
  {
    if predictSpans then Encode(|s.tokenLabels|, SpansOf(s, ResolveLabelType(modelType, requested)), scheme)
    else ColumnLabels(s, modelType)
  }

  /** One sentence's gold labels of the label type asked for, in both modes: the span
      encoding, or each token's label with `O` as the default. */
  function SentenceGold(s: Sentence, labelType: string, predictSpans: bool, scheme: Scheme): (labels: seq<string>)
    ensures |labels| == |s.tokenLabels|
  {
    if predictSpans then Encode(|s.tokenLabels|, SpansOf(s, labelType), scheme)
    else ColumnLabels(s, labelType)
  }

  /** The gold labels of a label type depend on that type's labels and spans alone. */
  lemma SentenceGoldReadsOneType(s: Sentence, s': Sentence, labelType: string, predictSpans: bool, scheme: Scheme)
    requires |s.tokenLabels| == |s'.tokenLabels|
    requires forall i :: 0 <= i < |s.tokenLabels| ==>
               (labelType in s.tokenLabels[i] <==> labelType in s'.tokenLabels[i]) &&
               (labelType in s.tokenLabels[i] ==> s.tokenLabels[i][labelType] == s'.tokenLabels[i][labelType])
    requires SpansOf(s, labelType) == SpansOf(s', labelType)
    ensures SentenceGold(s, labelType, predictSpans, scheme) == SentenceGold(s', labelType, predictSpans, scheme)
  {
    if !predictSpans {
      var a, b := ColumnLabels(s, labelType), ColumnLabels(s', labelType);
      assert forall i :: 0 <= i < |a| ==> a[i] == b[i];
    }
  }

  /** The written and the intended extraction agree in the span mode, and in the token
      mode whenever the requested label type is the model's own (no `_clean` request). */
  lemma SentenceGoldAgreement(s: Sentence, modelType: string, requested: Option<string>,
                              predictSpans: bool, scheme: Scheme)
    ensures predictSpans || ResolveLabelType(modelType, requested) == modelType ==>
              SentenceGoldAsWritten(s, modelType, requested, predictSpans, scheme)
                == SentenceGold(s, ResolveLabelType(modelType, requested), predictSpans, scheme)
  {
  }

  /** As written, a token-mode request for the clean labels returns the observed ones: a
      token observed as `B-PER` whose clean label is `O` yields `B-PER`. */
  lemma GoldAsWrittenIgnoresClean(s: Sentence)
    requires s == Sentence([map["ner" := "B-PER", "ner_clean" := "O"]], map[])
    ensures SentenceGoldAsWritten(s, "ner", Some("ner_clean"), false, BIOES) == ["B-PER"]
    ensures SentenceGold(s, "ner_clean", false, BIOES) == ["O"]
  {
  }

  /** The gold labels of a batch, sentence after sentence. */
  function BatchGold(sentences: seq<Sentence>, labelType: string, predictSpans: bool, scheme: Scheme): seq<string> {
    if sentences == [] then []
    else BatchGold(sentences[..|sentences| - 1], labelType, predictSpans, scheme)
         + SentenceGold(sentences[|sentences| - 1], labelType, predictSpans, scheme)
  }

  function TokenCount(sentences: seq<Sentence>): nat {
    if sentences == [] then 0
    else TokenCount(sentences[..|sentences| - 1]) + |sentences[|sentences| - 1].tokenLabels|
  }

  /** One label per token of the batch. */
  lemma {:induction false} BatchGoldLength(sentences: seq<Sentence>, labelType: string, predictSpans: bool, scheme: Scheme)
    ensures |BatchGold(sentences, labelType, predictSpans, scheme)| == TokenCount(sentences)
    decreases |sentences|
  {
    if sentences != [] {
      BatchGoldLength(sentences[..|sentences| - 1], labelType, predictSpans, scheme);
    }
  }

  /** The labels of two batches of sentences taken together are the labels of the first
      followed by those of the second: each sentence's labels depend on it alone. */
  lemma {:induction false} BatchGoldAppend(a: seq<Sentence>, b: seq<Sentence>, labelType: string,
                                           predictSpans: bool, scheme: Scheme)
    ensures BatchGold(a + b, labelType, predictSpans, scheme)
            == BatchGold(a, labelType, predictSpans, scheme) + BatchGold(b, labelType, predictSpans, scheme)
    decreases |b|
  {
    if b == [] {
      assert a + b == a;
    } else {
      var init := b[..|b| - 1];
      BatchGoldAppend(a, init, labelType, predictSpans, scheme);
      AppendInit(a, b);
      BatchGoldSnoc(a + b, labelType, predictSpans, scheme);
      BatchGoldSnoc(b, labelType, predictSpans, scheme);
      AppendAssoc(BatchGold(a, labelType, predictSpans, scheme), BatchGold(init, labelType, predictSpans, scheme),
                  SentenceGold(b[|b| - 1], labelType, predictSpans, scheme));
    }
  }

  lemma BatchGoldSnoc(s: seq<Sentence>, labelType: string, predictSpans: bool, scheme: Scheme)
    requires s != []
    ensures BatchGold(s, labelType, predictSpans, scheme)
            == BatchGold(s[..|s| - 1], labelType, predictSpans, scheme)
               + SentenceGold(s[|s| - 1], labelType, predictSpans, scheme)
  {
  }

  lemma AppendInit(a: seq<Sentence>, b: seq<Sentence>)
    requires b != []
    ensures (a + b)[..|a + b| - 1] == a + b[..|b| - 1]
    ensures (a + b)[|a + b| - 1] == b[|b| - 1]
  {
  }

  lemma AppendAssoc(x: seq<string>, y: seq<string>, z: seq<string>)
    ensures (x + y) + z == x + (y + z)
  {
  }

  /** `_get_gold_labels` with the token mode reading the requested label type: the labels
      of all tokens of the batch, extended sentence by sentence. */
  method GoldLabels(sentences: seq<Sentence>, modelType: string, requested: Option<string>,
                    predictSpans: bool, scheme: Scheme)
    returns (labels: seq<string>)
    requires forall s :: 0 <= s < |sentences| ==> WellFormed(sentences[s])
    ensures labels == BatchGold(sentences, ResolveLabelType(modelType, requested), predictSpans, scheme)
  {
    var labelType := if requested.Some? then requested.value else modelType;
    labels := [];
    for s := 0 to |sentences|
      invariant labels == BatchGold(sentences[..s], labelType, predictSpans, scheme)
    {
      var sentence := sentences[s];
      var sentenceLabels;
      if predictSpans {
        sentenceLabels := SentenceLabels(|sentence.tokenLabels|, SpansOf(sentence, labelType), scheme);
      } else {
        sentenceLabels := ColumnLabels(sentence, labelType);
      }
      assert sentences[..s + 1][..s] == sentences[..s];
      labels := labels + sentenceLabels;
    }
    assert sentences[..|sentences|] == sentences;
  }

  /** The rewrite of `output_bio_dataset` as written: a tag starting with `S-` has every
      `S-` in it replaced by `B-`, and then a tag starting with `E-` has every `E-`
      replaced by `I-` (`str.replace` replaces all occurrences). */
  function OutputTagAsWritten(tag: string): string {
    var t := if StartsWith(tag, "S-") then ReplaceAll(tag, "S-", "B-") else tag;
    if StartsWith(t, "E-") then ReplaceAll(t, "E-", "I-") else t
  }

  /** The rewrite as intended: only the two-character prefix changes. */
  function OutputTag(tag: string): string {
    if StartsWith(tag, "S-") then "B-" + tag[2..]
    else if StartsWith(tag, "E-") then "I-" + tag[2..]
    else tag
  }

  /** The intended rewrite turns a BIOES encoding into the BIO encoding of the same
      spans, position by position, whatever the spans and their types. */
  lemma {:induction false} OutputTagBioesToBio(n: nat, spans: seq<Span>)
    ensures var bioes := Encode(n, spans, BIOES);
            seq(n, i requires 0 <= i < n => OutputTag(bioes[i])) == Encode(n, spans, BIO)
    decreases |spans|
  {
    if spans != [] {
      OutputTagBioesToBio(n, spans[..|spans| - 1]);
      var sp := spans[|spans| - 1];
      forall i | sp.start <= i <= sp.last
        ensures OutputTag(SpanTag(BIOES, sp, i)) == SpanTag(BIO, sp, i)
      {
        var t := SpanTag(BIOES, sp, i);
        assert t[2..] == sp.value;
      }
    } else {
      assert OutputTag("O") == "O";
    }
  }

  /** As written, an entity type containing `E-` is altered too: the last tag of the
      span "LIVE-EVENT" is rewritten to "I-LIVI-EVENT" instead of "I-LIVE-EVENT". */
  lemma OutputTagAsWrittenAltersType(tag: string)
    requires tag == SpanTag(BIOES, Span(0, 1, "LIVE-EVENT"), 1)
    ensures OutputTagAsWritten(tag) == "I-LIVI-EVENT"
    ensures OutputTag(tag) == "I-LIVE-EVENT"
  {
    assert tag == "E-" + "LIVE-EVENT";
    AsWrittenOnLiveEvent(tag);
    IntendedOnLiveEvent(tag);
  }

  lemma AsWrittenOnLiveEvent(tag: string)
    requires tag == "E-" + "LIVE-EVENT"
    ensures OutputTagAsWritten(tag) == "I-LIVI-EVENT"
  {
    assert tag[..2] == "E-" && tag[2..] == "LIVE-EVENT";
    assert !StartsWith(tag, "S-") && StartsWith(tag, "E-");
    ReplaceInLiveEvent(tag[2..]);
    assert ReplaceAll(tag, "E-", "I-") == "I-" + "LIVI-EVENT";
  }

  lemma IntendedOnLiveEvent(tag: string)
    requires tag == "E-" + "LIVE-EVENT"
    ensures OutputTag(tag) == "I-LIVE-EVENT"
  {
    assert tag[..2] == "E-" && tag[2..] == "LIVE-EVENT";
  }

  // The steps of `"E-LIVE-EVENT".replace("E-", "I-")`, one character at a time.

  lemma ReplaceInNt(s: string)
    requires s == "NT"
    ensures ReplaceAll(s, "E-", "I-") == "NT"
  {
    ReplaceAllSkip(s, "E-", "I-");
    assert s[1..] == "T";
  }

  lemma ReplaceInEnt(s: string)
    requires s == "ENT"
    ensures ReplaceAll(s, "E-", "I-") == "ENT"
  {
    assert s[..2] != "E-" by { assert s[1] == 'N'; }
    ReplaceInNt(s[1..]);
  }

  lemma ReplaceInVent(s: string)
    requires s == "VENT"
    ensures ReplaceAll(s, "E-", "I-") == "VENT"
  {
    ReplaceAllSkip(s, "E-", "I-");
    ReplaceInEnt(s[1..]);
  }

  lemma ReplaceInEvent(s: string)
    requires s == "EVENT"
    ensures ReplaceAll(s, "E-", "I-") == "EVENT"
  {
    assert s[..2] != "E-" by { assert s[1] == 'V'; }
    ReplaceInVent(s[1..]);
  }

  lemma ReplaceInEEvent(s: string)
    requires s == "E-EVENT"
    ensures ReplaceAll(s, "E-", "I-") == "I-EVENT"
  {
    ReplaceAllHit(s, "E-", "I-");
    ReplaceInEvent(s[2..]);
  }

  lemma ReplaceInVeEvent(s: string)
    requires s == "VE-EVENT"
    ensures ReplaceAll(s, "E-", "I-") == "VI-EVENT"
  {
    ReplaceAllSkip(s, "E-", "I-");
    ReplaceInEEvent(s[1..]);
  }

  lemma ReplaceInIveEvent(s: string)
    requires s == "IVE-EVENT"
    ensures ReplaceAll(s, "E-", "I-") == "IVI-EVENT"
  {
    ReplaceAllSkip(s, "E-", "I-");
    ReplaceInVeEvent(s[1..]);
  }

  lemma ReplaceInLiveEvent(s: string)
    requires s == "LIVE-EVENT"
    ensures ReplaceAll(s, "E-", "I-") == "LIVI-EVENT"
  {
    ReplaceAllSkip(s, "E-", "I-");
    ReplaceInIveEvent(s[1..]);
  }

  /** The two rewrites agree on every tag whose type contains neither `S-` nor `E-`. */
  lemma OutputTagAgreement(tag: string)
    requires |tag| >= 2 ==> !Contains(tag[2..], "S-") && !Contains(tag[2..], "E-")
    ensures OutputTagAsWritten(tag) == OutputTag(tag)
  {
    if StartsWith(tag, "S-") {
      ReplaceAbsent(tag[2..], "S-", "B-");
      assert tag == "S-" + tag[2..];
      assert tag[..2] == "S-";
      assert ReplaceAll(tag, "S-", "B-") == "B-" + ReplaceAll(tag[2..], "S-", "B-");
      assert !StartsWith("B-" + tag[2..], "E-");
    } else if StartsWith(tag, "E-") {
      ReplaceAbsent(tag[2..], "E-", "I-");
      assert tag[..2] == "E-";
      assert ReplaceAll(tag, "E-", "I-") == "I-" + ReplaceAll(tag[2..], "E-", "I-");
    }
  }
}
