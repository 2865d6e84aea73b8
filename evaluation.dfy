/** The span alignment of `calculate_f1_between_columns`
    (pipeline_sample_metrics_token_categories.py): the gold and predicted labels of every
    sentence are grouped by span key, the keys are aligned into two lists of label lists, and
    the target names and the averaged report are prepared for scoring. The scoring itself is
    not part of this model. */
module Evaluation {
  import opened Wrappers

  /** A span key: the sentence number and the span's unlabeled identifier, standing for the
      string `str(sentence_id) + ": " + identifier` (the decimal prefix ends at the first
      colon, so that string determines the pair). */
  datatype Key = Key(sentence: nat, identifier: string)

  /** A label of one column: the identifier of its span and its value. */
  datatype Label = Label(identifier: string, value: string)

  /** A datapoint with its labels in the two compared columns. */
  datatype Datapoint = Datapoint(gold: seq<Label>, predicted: seq<Label>)

  type Entry = (Key, string)

  function LabelsOf(dp: Datapoint, gold: bool): seq<Label> {
    if gold then dp.gold else dp.predicted
  }

  /** The keyed values of one sentence's labels, in order. */
  function Tagged(s: nat, labels: seq<Label>): (t: seq<Entry>)
    ensures |t| == |labels|
    ensures forall i :: 0 <= i < |t| ==> t[i] == (Key(s, labels[i].identifier), labels[i].value)
  {
    seq(|labels|, i requires 0 <= i < |labels| => (Key(s, labels[i].identifier), labels[i].value))
  }

  /** All keyed values of one column of the dataset, in visiting order. */
  function Entries(data: seq<Datapoint>, gold: bool): seq<Entry> {
    if data == [] then []
    else Entries(data[..|data| - 1], gold) + Tagged(|data| - 1, LabelsOf(data[|data| - 1], gold))
  }

  /** One step of the grouping: append `v` to the list of `k`, or start it. */
  function Add(m: map<Key, seq<string>>, k: Key, v: string): map<Key, seq<string>> {
    if k in m then m[k := m[k] + [v]] else m[k := [v]]
  }

  /** The dictionary the loop builds from a list of keyed values. */
  function Group(e: seq<Entry>): map<Key, seq<string>> {
    if e == [] then map[] else Add(Group(e[..|e| - 1]), e[|e| - 1].0, e[|e| - 1].1)
  }

  /** The values given to key `k`, in order. */
  function ValuesOf(e: seq<Entry>, k: Key): (vs: seq<string>)
    ensures |vs| <= |e|
  {
    if e == [] then []
    else ValuesOf(e[..|e| - 1], k) + (if e[|e| - 1].0 == k then [e[|e| - 1].1] else [])
  }

  ghost predicate HasKey(e: seq<Entry>, k: Key) {
    exists i :: 0 <= i < |e| && e[i].0 == k
  }

  /** The grouping holds a key iff some value carries it, and its list is exactly the
      values carrying it, in their order. */
  lemma {:induction false} GroupMeaning(e: seq<Entry>)
    ensures forall k :: k in Group(e) ==> Group(e)[k] == ValuesOf(e, k)
    ensures forall k :: k !in Group(e) ==> ValuesOf(e, k) == []
    ensures forall k :: k in Group(e) ==> Group(e)[k] != []
    decreases |e|
  {
    if e != [] {
      GroupMeaning(e[..|e| - 1]);
    }
  }

  /** A key has values iff some entry carries it. */
  lemma {:induction false} ValuesOfPresent(e: seq<Entry>, k: Key)
    ensures ValuesOf(e, k) != [] <==> HasKey(e, k)
    decreases |e|
  {
    if e != [] {
      var init := e[..|e| - 1];
      ValuesOfPresent(init, k);
      if HasKey(init, k) {
        var i :| 0 <= i < |init| && init[i].0 == k;
        assert e[i].0 == k;
      }
      if HasKey(e, k) && e[|e| - 1].0 != k {
        var i :| 0 <= i < |e| && e[i].0 == k;
        assert init[i].0 == k;
      }
    }
  }

  /** `Entries` of a longer prefix adds the next sentence's labels. */
  lemma EntriesSnoc(data: seq<Datapoint>, s: nat, gold: bool)
    requires s < |data|
    ensures Entries(data[..s + 1], gold) == Entries(data[..s], gold) + Tagged(s, LabelsOf(data[s], gold))
  {
    assert data[..s + 1][..s] == data[..s];
  }

  lemma GroupSnoc(e: seq<Entry>, x: Entry)
    ensures Group(e + [x]) == Add(Group(e), x.0, x.1)
  {
    assert (e + [x])[..|e|] == e;
  }

  /** Grouping one more label of a sentence. */
  lemma GroupTaggedStep(e: seq<Entry>, s: nat, labels: seq<Label>, j: nat)
    requires j < |labels|
    ensures Group(e + Tagged(s, labels)[..j + 1])
            == Add(Group(e + Tagged(s, labels)[..j]), Key(s, labels[j].identifier), labels[j].value)
  {
    var t := Tagged(s, labels);
    assert e + t[..j + 1] == (e + t[..j]) + [t[j]];
    GroupSnoc(e + t[..j], t[j]);
  }

  /** The inner loop over one sentence's labels of one column: each label's value is appended
      to its key's list, and its key is added to the set of spans. */
  method AddLabels(m: map<Key, seq<string>>, spans: set<Key>, ghost e: seq<Entry>, s: nat, labels: seq<Label>)
    returns (m': map<Key, seq<string>>, spans': set<Key>)
    requires m == Group(e) && m.Keys <= spans
    ensures m' == Group(e + Tagged(s, labels))
    ensures spans' == spans + m'.Keys && m.Keys <= m'.Keys
  {
    m', spans' := m, spans;
    assert e + Tagged(s, labels)[..0] == e;
    for j := 0 to |labels|
      invariant m' == Group(e + Tagged(s, labels)[..j])
      invariant spans' == spans + m'.Keys && m.Keys <= m'.Keys
    {
      GroupTaggedStep(e, s, labels, j);
      var representation := Key(s, labels[j].identifier);
      var value := labels[j].value;
      if representation !in m' {
        m' := m'[representation := [value]];
      } else {
        m' := m'[representation := m'[representation] + [value]];
      }
      if representation !in spans' {
        spans' := spans' + {representation};
      }
    }
    assert Tagged(s, labels)[..|labels|] == Tagged(s, labels);
  }

  /** The first loop of `calculate_f1_between_columns`: sentence by sentence, the gold and
      then the predicted labels are grouped by key, and every key goes into `all_spans`. */
  method CollectValues(data: seq<Datapoint>)
    returns (trueValues: map<Key, seq<string>>, predictedValues: map<Key, seq<string>>, allSpans: set<Key>)
    ensures trueValues == Group(Entries(data, true))
    ensures predictedValues == Group(Entries(data, false))
    ensures allSpans == trueValues.Keys + predictedValues.Keys
  {
    trueValues, predictedValues, allSpans := map[], map[], {};
    var sentenceId := 0;
    while sentenceId < |data|
      invariant sentenceId <= |data|
      invariant trueValues == Group(Entries(data[..sentenceId], true))
      invariant predictedValues == Group(Entries(data[..sentenceId], false))
      invariant allSpans == trueValues.Keys + predictedValues.Keys
    {
      EntriesSnoc(data, sentenceId, true);
      EntriesSnoc(data, sentenceId, false);
      var t;
      t, allSpans := AddLabels(trueValues, allSpans, Entries(data[..sentenceId], true), sentenceId, data[sentenceId].gold);
      trueValues := t;
      var p;
      p, allSpans := AddLabels(predictedValues, allSpans, Entries(data[..sentenceId], false), sentenceId, data[sentenceId].predicted);
      predictedValues := p;
      sentenceId := sentenceId + 1;
    }
    assert data[..|data|] == data;
  }

  /** The list of one side for a key, `["O"]` if that side has no label there. */
  function ValuesOrO(m: map<Key, seq<string>>, k: Key): seq<string> {
    if k in m then m[k] else ["O"]
  }

  /** The two span-aligned lists for spans visited in `order`; a key whose gold list is
      empty is skipped. */
  function Aligned(order: seq<Key>, tv: map<Key, seq<string>>, pv: map<Key, seq<string>>)
    : (r: (seq<seq<string>>, seq<seq<string>>))
    ensures |r.0| == |r.1| <= |order|
  {
    if order == [] then ([], [])
    else
      var before := Aligned(order[..|order| - 1], tv, pv);
      var span := order[|order| - 1];
      var gold := ValuesOrO(tv, span);
      if gold == [] then before
      else (before.0 + [gold], before.1 + [ValuesOrO(pv, span)])
  }

  /** `order` visits each element of `s` exactly once. */
  ghost predicate Enumerates(order: seq<Key>, s: set<Key>) {
    && (forall i, j :: 0 <= i < j < |order| ==> order[i] != order[j])
    && (forall k :: k in order <==> k in s)
  }

  /** The alignment loop over `all_spans`. A set has no fixed iteration order, so each step
      picks any span not yet visited; the order taken is returned as a ghost. */
  method Align(allSpans: set<Key>, tv: map<Key, seq<string>>, pv: map<Key, seq<string>>)
    returns (trueAligned: seq<seq<string>>, predictedAligned: seq<seq<string>>, ghost order: seq<Key>)
    ensures Enumerates(order, allSpans)
    ensures (trueAligned, predictedAligned) == Aligned(order, tv, pv)
  {
    trueAligned, predictedAligned, order := [], [], [];
    var remaining := allSpans;
    while remaining != {}
      invariant remaining <= allSpans
      invariant forall i, j :: 0 <= i < j < |order| ==> order[i] != order[j]
      invariant forall k :: k in order <==> k in allSpans - remaining
      invariant (trueAligned, predictedAligned) == Aligned(order, tv, pv)
      decreases remaining
    {
      var span :| span in remaining;
      VisitNext(order, span, allSpans, remaining);
      remaining := remaining - {span};
      ghost var visited := order;
      order := order + [span];
      assert order[..|order| - 1] == visited;
      var gold := if span in tv then tv[span] else ["O"];
      if gold == [] {
        continue;
      }
      trueAligned := trueAligned + [gold];
      predictedAligned := predictedAligned + [if span in pv then pv[span] else ["O"]];
    }
  }

  /** Visiting one more span keeps the visited spans distinct. */
  lemma VisitNext(order: seq<Key>, span: Key, allSpans: set<Key>, remaining: set<Key>)
    requires forall i, j :: 0 <= i < j < |order| ==> order[i] != order[j]
    requires forall k :: k in order <==> k in allSpans - remaining
    requires span in remaining && remaining <= allSpans
    ensures forall i, j :: 0 <= i < j < |order + [span]| ==> (order + [span])[i] != (order + [span])[j]
    ensures forall k :: k in order + [span] <==> k in allSpans - (remaining - {span})
  {
    assert span !in order;
  }

  /** When no gold list is empty (as after grouping), nothing is skipped: entry `i` of the
      two lists belongs to the `i`-th visited span, with `["O"]` for a side that lacks it. */
  lemma {:induction false} AlignedMeaning(order: seq<Key>, tv: map<Key, seq<string>>, pv: map<Key, seq<string>>)
    requires forall k :: k in tv ==> tv[k] != []
    ensures var r := Aligned(order, tv, pv);
            && |r.0| == |r.1| == |order|
            && forall i :: 0 <= i < |order| ==>
                 r.0[i] == ValuesOrO(tv, order[i]) && r.1[i] == ValuesOrO(pv, order[i])
    decreases |order|
  {
    if order != [] {
      AlignedMeaning(order[..|order| - 1], tv, pv);
    }
  }

  /** The first label of each aligned list: `y_true` and `y_pred`, before the labels are
      mapped to dictionary indices. */
  function FirstLabels(lists: seq<seq<string>>): (ys: seq<string>)
    requires forall i :: 0 <= i < |lists| ==> lists[i] != []
    ensures |ys| == |lists|
  {
    seq(|lists|, i requires 0 <= i < |lists| => lists[i][0])
  }

  /** The first of a list of values, or "O" for none. */
  function FirstOrO(vs: seq<string>): string {
    if vs == [] then "O" else vs[0]
  }

  /** After grouping (`gold` and `predicted` are the keyed values of the two columns, as
      `Entries` lists them) and alignment in any visiting order, `y_true` has one label per
      visited span: the first gold value given to that span, or "O" if it has none;
      likewise `y_pred` with the first predicted value. */
  lemma SpanAlignment(gold: seq<Entry>, predicted: seq<Entry>, order: seq<Key>)
    ensures var r := Aligned(order, Group(gold), Group(predicted));
            && (forall i :: 0 <= i < |r.0| ==> r.0[i] != [] && r.1[i] != [])
            && |FirstLabels(r.0)| == |FirstLabels(r.1)| == |order|
            && forall i :: 0 <= i < |order| ==>
                 && FirstLabels(r.0)[i] == FirstOrO(ValuesOf(gold, order[i]))
                 && FirstLabels(r.1)[i] == FirstOrO(ValuesOf(predicted, order[i]))
  {
    var tv, pv := Group(gold), Group(predicted);
    GroupMeaning(gold);
    GroupMeaning(predicted);
    AlignedMeaning(order, tv, pv);
    var r := Aligned(order, tv, pv);
    assert forall i :: 0 <= i < |r.0| ==> r.0[i] != [] && r.1[i] != [];
    forall i | 0 <= i < |order|
      ensures FirstLabels(r.0)[i] == FirstOrO(ValuesOf(gold, order[i]))
      ensures FirstLabels(r.1)[i] == FirstOrO(ValuesOf(predicted, order[i]))
    {
      FirstOfSide(gold, r.0, i, order[i]);
      FirstOfSide(predicted, r.1, i, order[i]);
    }
  }

  lemma FirstOfSide(e: seq<Entry>, lists: seq<seq<string>>, i: nat, k: Key)
    requires forall j :: 0 <= j < |lists| ==> lists[j] != []
    requires i < |lists| && lists[i] == ValuesOrO(Group(e), k)
    requires k in Group(e) ==> Group(e)[k] == ValuesOf(e, k)
    requires k !in Group(e) ==> ValuesOf(e, k) == []
    ensures FirstLabels(lists)[i] == FirstOrO(ValuesOf(e, k))
  {
  }

  /** The target-name loop over `counter.most_common()`, given as the sequence of distinct
      labels in that order: every label except "O" is kept, in order. */
  method TargetNames(counted: seq<string>) returns (names: seq<string>)
    ensures names == WithoutO(counted)
  {
    names := [];
    for i := 0 to |counted|
      invariant names == WithoutO(counted[..i])
    {
      assert counted[..i + 1] == counted[..i] + [counted[i]];
      WithoutOAppend(counted[..i], counted[i]);
      if counted[i] == "O" {
        continue;
      }
      names := names + [counted[i]];
    }
    assert counted[..|counted|] == counted;
  }

  function WithoutO(labels: seq<string>): seq<string> {
    if labels == [] then []
    else (if labels[0] == "O" then [] else [labels[0]]) + WithoutO(labels[1..])
  }

  lemma {:induction false} WithoutOAppend(labels: seq<string>, x: string)
    ensures WithoutO(labels + [x]) == WithoutO(labels) + (if x == "O" then [] else [x])
    decreases |labels|
  {
    if labels != [] {
      assert (labels + [x])[1..] == labels[1..] + [x];
      WithoutOAppend(labels[1..], x);
    }
  }

  /** The target names are the counted labels other than "O", each once: "O" never
      appears, and distinct counted labels give distinct names. */
  lemma {:induction false} TargetNamesMeaning(counted: seq<string>)
    ensures forall l :: l in WithoutO(counted) <==> l in counted && l != "O"
    ensures (forall i, j :: 0 <= i < j < |counted| ==> counted[i] != counted[j]) ==>
              forall i, j :: 0 <= i < j < |WithoutO(counted)| ==> WithoutO(counted)[i] != WithoutO(counted)[j]
    decreases |counted|
  {
    if counted != [] {
      TargetNamesMeaning(counted[1..]);
      var rest := WithoutO(counted[1..]);
      if (forall i, j :: 0 <= i < j < |counted| ==> counted[i] != counted[j]) && counted[0] != "O" {
        forall i, j | 0 <= i < j < |WithoutO(counted)|
          ensures WithoutO(counted)[i] != WithoutO(counted)[j]
        {
          if i == 0 {
            assert WithoutO(counted)[j] in rest;
            assert counted[0] !in counted[1..];
          } else {
            assert WithoutO(counted)[i] == rest[i - 1] && WithoutO(counted)[j] == rest[j - 1];
          }
        }
      }
    }
  }

  /** The averages of a classification report (one row of named values per average type)
      and its "accuracy" entry, which is present only when sklearn reports no micro average. */
  datatype Report = Report(averages: map<string, map<string, real>>, accuracy: Option<real>)

  /** The micro-average completion after scoring: with exactly one target name the micro
      average becomes the macro average; if there is still no micro average, each field of
      the macro average is given the accuracy. A missing entry raises `KeyError`; the
      accuracy is read only inside the loop over the macro fields. */
  function CompleteMicroAverage(report: Report, targetCount: nat): (r: Result<Report>)
  {
    var first :=
      if targetCount == 1 then
        (if "macro avg" in report.averages
         then Success(report.(averages := report.averages["micro avg" := report.averages["macro avg"]]))
         else Failure(KeyError("macro avg")))
      else Success(report);
    if first.Failure? then first
    else
      var rep := first.value;
      if "micro avg" in rep.averages then Success(rep)
      else if "macro avg" !in rep.averages then Failure(KeyError("macro avg"))
      else
        var macro := rep.averages["macro avg"];
        if rep.accuracy.None? && macro != map[] then Failure(KeyError("accuracy"))
        else Success(rep.(averages := rep.averages["micro avg" := map f | f in macro :: rep.accuracy.value]))
  }

  /** After completion there is a micro average; with one target it equals the macro
      average, otherwise an existing one is kept and a missing one has the macro fields,
      each equal to the accuracy. Nothing else in the report changes. The completion fails
      only for a missing macro average, or for a missing accuracy when the macro average
      has a field to copy it into. */
  lemma MicroAverageCompleted(report: Report, targetCount: nat)
    ensures var r := CompleteMicroAverage(report, targetCount);
            && (r.Success? ==>
                  && "micro avg" in r.value.averages
                  && r.value.accuracy == report.accuracy
                  && (forall k :: k != "micro avg" ==>
                        (k in r.value.averages <==> k in report.averages) &&
                        (k in report.averages ==> r.value.averages[k] == report.averages[k]))
                  && (targetCount == 1 ==> r.value.averages["micro avg"] == report.averages["macro avg"])
                  && (targetCount != 1 && "micro avg" in report.averages ==>
                        r.value.averages["micro avg"] == report.averages["micro avg"])
                  && (targetCount != 1 && "micro avg" !in report.averages ==>
                        && r.value.averages["micro avg"].Keys == report.averages["macro avg"].Keys
                        && forall f :: f in r.value.averages["micro avg"] ==>
                             r.value.averages["micro avg"][f] == report.accuracy.value))
            && (r.Failure? <==>
                  || ("macro avg" !in report.averages && (targetCount == 1 || "micro avg" !in report.averages))
                  || (&& targetCount != 1 && "micro avg" !in report.averages && "macro avg" in report.averages
                      && report.averages["macro avg"] != map[] && report.accuracy.None?))
  {
  }

  /** An empty macro average is copied without reading the accuracy. */
  lemma EmptyMacroAverageCompleted()
    ensures CompleteMicroAverage(Report(map["macro avg" := map[]], None), 2)
              == Success(Report(map["macro avg" := map[], "micro avg" := map[]], None))
  {
  }
}
