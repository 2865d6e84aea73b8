# sample_metrics in Dafny

This project models the core of *sample_metrics*, a toolkit for training a flair sequence tagger
on noisy NER data. The toolkit computes per-token training-dynamics metrics ("sample metrics")
in every epoch. It sorts tokens into four categories by comparing the observed tag with the
predicted tag. Then it remediates the labels of one category, either by masking them or by
relabelling them, once a metric crosses a threshold at a given epoch.

The modules follow the source files:

- `Mild`, `TokenHistory`, `Tagger`, `EarlyExit` and the gold-label part of `Bioes` model
  sequence_tagger_model.py:
  - the MILD counters;
  - the per-token metric history and its per-epoch update (`_calculate_metrics`);
  - the batch loop that stores the updated histories back on the tokens (a `Token` class with
    a mutable `history` field);
  - the early-exit layer metrics (prediction depth, first layer, layer agreement);
  - the BIO/BIOES gold-label encoding of spans.
- `Categories`, `Remediation`, `CorpusOps`, `Evaluation`, `Schedule` and the output rewrite in
  `Bioes` model pipeline_sample_metrics_token_categories.py:
  - the category table;
  - `mask_category`, `relabel_category`, `add_bioes_ner_tags`, `copy_new_tag_to_original` and
    `update_dataset_with_epoch_log_info`, as methods of a `Corpus` class over the token
    columns, each proved against a function on the dataset;
  - the span grouping and alignment of `calculate_f1_between_columns`;
  - the category schedule of `main`, with its stable sort by epoch;
  - `get_data_paths`.
- `Summary` models summarize_scores_sample_metrics.py:
  - the LaTeX label formatters;
  - the mismatch and error shares of `count_errors`;
  - the per-epoch category membership counts.
- `ExperimentConfigs` models run.py: the experiment configurations built by `output_configs`,
  the fixed combined schedules of `get_combined_config`, and the modification filter of `run`.
- `Strings` models the Python string built-ins the code relies on: `strip`, `split`, `join`,
  `replace`, `startswith`, `endswith`, `in`, `int()` and `str()` on integers.
- `Sequences` holds the count of equal entries shared by the MILD counters, the layer
  agreement and the mask count of `count_errors`.
- `Wrappers` holds `Option` and `Result`. A Python exception (`IndexError`, `KeyError`,
  `ValueError`, `ZeroDivisionError`) is a `Failure`.

Noteworthy behaviour the proofs make explicit:

- `hist_MILD` starts with a sentinel 0. As a result, `mild_m + mild_f` is the number of epochs
  plus one (`TokenHistory.MetricBounds`). `calculate_mild_f` and `calculate_mild_m` reduce to
  counting the 1s and the 0s of the flags (`Mild.MildCounts`).
- The prediction returned by `_calculate_metrics` (`torch.argmax`) and the one the history
  uses (the head of `argsort`) can differ only between tied probabilities
  (`Tagger.PredictionsAgreeUpToTies`).
- In `relabel_category`, `prev.split('-')[1]` raises `IndexError` when the previously
  relabelled tag has no `-`. This cannot happen when every predicted tag is `O` or carries a
  type (`Remediation.ScanSucceeds`).
- `count_errors` divides by zero when no token is `B-MASK`. When masking is never good, the
  relabelling shares are NaN (`Summary.CountErrorsShares`).

## Model

| member | source | states |
|---|---|---|
| Strings.Strip | run.py:201 | `str.strip()`: the result has no whitespace at either end, is no longer than the input, and equals an input that has none |
| Strings.StripInfix | run.py:201 | `str.strip()` removes only surrounding whitespace: the result is a slice of the input, and every character before or after that slice is whitespace |
| Strings.Split | summarize_scores_sample_metrics.py:641 | `str.split(c)` always yields at least one part |
| Strings.JoinSplit | summarize_scores_sample_metrics.py:641-655 | joining the parts of a split with the same separator gives the original string back |
| Strings.SplitNoSeparator | summarize_scores_sample_metrics.py:641 | no part of a split contains the separator |
| Strings.SplitParts | summarize_scores_sample_metrics.py:641 | a string containing the separator splits into at least two parts, and one without it splits into itself alone |
| Strings.NonEmpty | sequence_tagger_model.py:37 | the list comprehension `[p for p in parts if p]` keeps no empty part |
| Strings.Remove | sequence_tagger_model.py:36-38 | the string with every occurrence of one character removed contains no such character |
| Strings.ConcatNonEmpty | sequence_tagger_model.py:37-38 | dropping the empty fragments does not change their concatenation |
| Strings.ConcatSplit | sequence_tagger_model.py:37-38 | concatenating the fragments of a split on `c` deletes every `c` |
| Strings.ConcatAppend | sequence_tagger_model.py:38 | `''.join` distributes over list concatenation |
| Strings.ReplaceAbsent | pipeline_sample_metrics_token_categories.py:342-344 | `str.replace` leaves a string without the pattern unchanged |
| Strings.ShowNat | run.py:178 | `str(n)` of a natural number has at least one digit |
| Strings.DigitsValueShow | run.py:178 | the decimal digits of `str(n)` read back as `n` |
| Strings.ShowNatEnds | run.py:178 | `str(n)` starts and ends with a digit |
| Strings.ParseDigitString | pipeline_sample_metrics_token_categories.py:821 | `int()` of a digit string with a digit at each end is its decimal value |
| Strings.ParseNegatedDigitString | pipeline_sample_metrics_token_categories.py:821 | `int()` of `-` followed by such a digit string is its negated value |
| Strings.ParseShowInt | pipeline_sample_metrics_token_categories.py:821 | round trip: `int(str(n)) == n` for every integer |
| Mild.FlagsString | sequence_tagger_model.py:36 | the flag string has one character per epoch flag |
| Sequences.Count | sequence_tagger_model.py:838-851 | the number of entries equal to a value is at most the length |
| Sequences.CountZero | sequence_tagger_model.py:838-851 | the count is 0 iff the value does not occur |
| Mild.RemoveDigitLength | sequence_tagger_model.py:36-38 | removing one digit from the flag string leaves as many characters as there are flags of the other value |
| Mild.SplitFragmentsLength | sequence_tagger_model.py:36-39 | the total length of the non-empty fragments of a split on one digit is the count of flags of the other value, for an empty fragment list too |
| Mild.MildCounts | sequence_tagger_model.py:31-51 | `calculate_mild_f` counts the correct epochs and `calculate_mild_m` the incorrect ones, so together they count every flag |
| Mild.CountComplement | sequence_tagger_model.py:31-51 | every flag is a 0 or a 1 |
| Sequences.CountAppend | sequence_tagger_model.py:329-332 | appending an entry raises exactly the count of its own value by one |
| TokenHistory.Fresh | sequence_tagger_model.py:174-185 | the initial history has one prediction count per label |
| TokenHistory.FreshIsConsistent | sequence_tagger_model.py:174-185 | the initial history has last prediction -1, zero sums and counts, `hist_MILD == [0]`, and satisfies the history invariant |
| TokenHistory.NextHistory | sequence_tagger_model.py:250-333 | one epoch's update keeps one prediction count per label |
| TokenHistory.UpdatePreservesConsistent | sequence_tagger_model.py:259-333 | one epoch's update keeps the invariant: the epoch counter grows by one, only the predicted label's count grows, the correctness sum grows iff the prediction equals the observed label, and the last iteration moves iff the prediction changed |
| TokenHistory.MetricBounds | sequence_tagger_model.py:268-341 | for a consistent history, confidence and correctness lie in [0, 1], iter_norm in (0, 1], variance and BvSB are non-negative, msp is the top probability, and mild_m + mild_f is the epoch count plus the sentinel |
| TokenHistory.Replay | sequence_tagger_model.py:243-353 | replaying a run of epochs keeps one prediction count per label |
| TokenHistory.Flags | sequence_tagger_model.py:330-332 | there is one correctness flag per epoch |
| TokenHistory.ReplayCounters | sequence_tagger_model.py:259-333 | from a fresh history, the epoch counter is the run length, `hist_MILD` is the sentinel followed by one flag per epoch, the correctness sum counts the correct epochs, and the last prediction and last change are read off the run |
| TokenHistory.ReplaySums | sequence_tagger_model.py:282-292 | from a fresh history, the running sums equal the whole-run sums computed from scratch |
| TokenHistory.ReplayPredictions | sequence_tagger_model.py:315-318 | from a fresh history, each label's prediction count is the number of epochs predicting it |
| TokenHistory.ReplayFromFresh | sequence_tagger_model.py:174-333 | every field of a history replayed from a fresh one equals its from-scratch definition over the run |
| Tagger.Token.constructor | sequence_tagger_model.py:172 | a new token carries no metric history |
| Tagger.FlattenContains | sequence_tagger_model.py:139-142 | a token is in the batch's token list iff it is in one of its sentences |
| Tagger.ArgMax | sequence_tagger_model.py:249 | `torch.argmax` returns an index of a largest value, and no earlier index holds that value |
| Tagger.PredictionsAgreeUpToTies | sequence_tagger_model.py:249-257 | the returned prediction and the history's prediction have the same probability, and the returned one is the earlier index |
| Tagger.CalculateMetrics | sequence_tagger_model.py:243-353 | each token gets its argmax prediction, its epoch metrics and its updated history, in batch order |
| Tagger.BatchKeepsConsistent | sequence_tagger_model.py:243-353 | a batch updated from consistent histories is consistent again, with every token's epoch counter one higher |
| Tagger.HistoriesAfterInit | sequence_tagger_model.py:172-185 | there is one history per token; when the batch's histories are ready, every token has one, with one prediction count per label |
| Tagger.InitMetricsHistory | sequence_tagger_model.py:172-185 | when the first token has no history, every token of the batch gets a fresh one; otherwise nothing changes |
| Tagger.WriteBackHistories | sequence_tagger_model.py:222-238 | the i-th token of the batch carries the i-th updated history |
| Tagger.CalculateAndStoreMetrics | sequence_tagger_model.py:355-366 | after initialisation, calculation and write-back, every token carries the update of its previous history, and the predictions and metrics are those of that update |
| EarlyExit.FirstIndex | sequence_tagger_model.py:841-845 | the first layer is the lowest layer predicting the gold label, or the layer count if no layer does |
| EarlyExit.TrailingRun | sequence_tagger_model.py:847-851 | the top run is the longest run of top layers agreeing with a label, and the layer below it disagrees |
| EarlyExit.TrailingRunCons | sequence_tagger_model.py:847-851 | the top run of one more bottom layer reaches that layer only when all layers above agree |
| EarlyExit.TrailingRunAtMostCount | sequence_tagger_model.py:840-851 | the top run is no longer than the number of agreeing layers |
| EarlyExit.CalculateLayerMetrics | sequence_tagger_model.py:808-854 | the backward scan computes the prediction depth as the layers below the top run, the first layer, and both agreement counts |
| EarlyExit.LayerMetricBounds | sequence_tagger_model.py:808-854 | the first layer is found iff some layer agrees with gold, and it predicts gold; with at least one layer, the prediction depth is below the layer count, every layer from the prediction depth up agrees with the last, and the last layer agrees with itself |
| EarlyExit.FirstIndexCount | sequence_tagger_model.py:841-845 | no first layer is found iff no layer predicts the gold label |
| EarlyExit.BatchLayerMetrics | sequence_tagger_model.py:727-757 | every token of the batch gets the layer metrics of its own layer predictions |
| Bioes.Paint | sequence_tagger_model.py:416-428 | painting a span keeps the number of labels |
| Bioes.Encode | sequence_tagger_model.py:414-429 | a sentence of n tokens gets n tags |
| Bioes.EncodePositions | sequence_tagger_model.py:411-431 | with disjoint spans, a one-token span gets `S-` in BIOES (`B-` in BIO), a longer span `B-` at its start, `E-` at its end in BIOES, `I-` inside, and every uncovered position is `O` |
| Bioes.SentenceLabels | sequence_tagger_model.py:414-429 | the loop that writes a list of `O`s span by span gives the encoding |
| Bioes.PaintSpan | sequence_tagger_model.py:416-428 | the writes of one span change the array exactly as painting the span does |
| Bioes.SentenceGold | sequence_tagger_model.py:408-436 | there is one gold label per token of the requested label type, in both the span and the token-label mode |
| Bioes.SentenceGoldAsWritten | sequence_tagger_model.py:408-436 | as written, the span mode encodes the spans of the requested label type while the token mode returns the labels of the model's own label type, one per token |
| Bioes.SentenceGoldReadsOneType | sequence_tagger_model.py:408-436 | the gold labels of a label type depend only on the token labels and spans of that type |
| Bioes.SentenceGoldAgreement | sequence_tagger_model.py:408-436 | the written and the corrected extraction agree in the span mode, and in the token mode when no other label type is requested |
| Bioes.GoldAsWrittenIgnoresClean | sequence_tagger_model.py:435 | as written, a token-mode request for the `_clean` labels of a token observed as `B-PER` and clean `O` yields `B-PER` |
| Bioes.BatchGoldLength | sequence_tagger_model.py:429-436 | the batch has one gold label per token |
| Bioes.BatchGoldAppend | sequence_tagger_model.py:429-436 | the labels of two batches together are the labels of the first followed by those of the second |
| Bioes.GoldLabels | sequence_tagger_model.py:401-437 | `_get_gold_labels`, with the label type defaulting to the model's own, extends the list sentence by sentence and returns the labels of the whole batch |
| Bioes.OutputTagBioesToBio | pipeline_sample_metrics_token_categories.py:340-344 | the intended prefix rewrite turns the BIOES encoding of any disjoint spans into their BIO encoding |
| Bioes.OutputTagAsWrittenAltersType | pipeline_sample_metrics_token_categories.py:340-344 | as written, the rewrite of `E-LIVE-EVENT` is `I-LIVI-EVENT`, which is not the intended `I-LIVE-EVENT` |
| Bioes.OutputTagAgreement | pipeline_sample_metrics_token_categories.py:340-344 | both rewrites agree on every tag whose type contains neither `S-` nor `E-` |
| Categories.ParseCategory | pipeline_sample_metrics_token_categories.py:35-40 | exactly the ids "1" to "4" are categories |
| Categories.CategoryOf | pipeline_sample_metrics_token_categories.py:35-40 | the category computed for a pair of tags passes the category test of the masking and relabelling loops |
| Categories.CategoriesPartition | pipeline_sample_metrics_token_categories.py:508-509 | a pair whose observed tag does not end with `MASK` is in exactly one category, and a mask tag is in none |
| Categories.CategoryMeaning | pipeline_sample_metrics_token_categories.py:35-40 | categories 1 and 3 are the correctly predicted tokens, and categories 1 and 2 those observed as `O` |
| Remediation.MaskSentence | pipeline_sample_metrics_token_categories.py:556-571 | a masked sentence has as many tokens as the original |
| Remediation.MaskEffect | pipeline_sample_metrics_token_categories.py:556-571 | masking keeps the shape and every column except the new tag, sets the new tag of every triggered token to `S-MASK`, and leaves the others alone |
| Remediation.MaskIdempotent | pipeline_sample_metrics_token_categories.py:556-571 | masking a masked dataset again changes nothing |
| Remediation.EntityType | pipeline_sample_metrics_token_categories.py:527-529 | `prev.split('-')[1]` fails with IndexError iff `prev` has no `-` |
| Remediation.ScanTokens | pipeline_sample_metrics_token_categories.py:506-535 | a successful sentence scan has one write flag per token |
| Remediation.ScanDataset | pipeline_sample_metrics_token_categories.py:494-542 | a successful dataset scan has one list of write flags per sentence, each as long as its sentence |
| Remediation.ApplyWrites | pipeline_sample_metrics_token_categories.py:516-533 | relabelling keeps the sentence length |
| Remediation.RelabelAll | pipeline_sample_metrics_token_categories.py:494-542 | the relabelled dataset has the shape of the original |
| Remediation.ScanCounts | pipeline_sample_metrics_token_categories.py:516-533 | in a sentence scan, the first counter counts the triggered tokens, and the two counters together count the written tokens |
| Remediation.StepCounts | pipeline_sample_metrics_token_categories.py:516-533 | one token's step counts a triggered token in the first counter and a propagated one in the second, and writes iff it counts |
| Remediation.ScanWrites | pipeline_sample_metrics_token_categories.py:506-535 | every triggered token is relabelled, and an in-category token that is not triggered is not |
| Remediation.PropagationFollowsTrigger | pipeline_sample_metrics_token_categories.py:521-533 | when a sentence's scan ends in the propagating state, the tag it propagates is the predicted tag of a triggered token of that sentence |
| Remediation.PropagationWrites | pipeline_sample_metrics_token_categories.py:502-533 | a token outside the category is relabelled iff some earlier token of its sentence was triggered, the last such token predicted a tag other than `O` that has an entity type, and every token since, this one included, is in the category or has observed and predicted tags ending with that entity type |
| Remediation.ScanStateClosedForm | pipeline_sample_metrics_token_categories.py:502-533 | the scan state before a token is the sentence start if no earlier token was triggered, and otherwise the last triggered token's predicted tag, still propagating iff every token since carried it |
| Remediation.ScanSucceeds | pipeline_sample_metrics_token_categories.py:527-529 | the scan raises no IndexError when every predicted tag is `O` or contains `-` |
| Remediation.ScanIgnoresNewTag | pipeline_sample_metrics_token_categories.py:506-535 | the scan's decisions do not depend on the new tags it writes |
| Remediation.RelabelIdempotent | pipeline_sample_metrics_token_categories.py:494-542 | relabelling again with the same parameters makes the same decisions and changes nothing further |
| Remediation.RelabelCounts | pipeline_sample_metrics_token_categories.py:494-542 | over the dataset, the first counter is the number of triggered tokens, and the two counters together are the number of relabelled tokens |
| Remediation.PyIndex | pipeline_sample_metrics_token_categories.py:315-323 | Python list indexing: a valid index lies in `[-n, n)`, and a negative one counts from the end |
| Remediation.ApplyLog | pipeline_sample_metrics_token_categories.py:302-330 | applying the log keeps the shape of the dataset |
| Remediation.LogKeepsOtherColumns | pipeline_sample_metrics_token_categories.py:302-330 | the log writes only the predicted tag, the observed tag and the metric; new tags and flags are untouched |
| Remediation.BlockUsesFirstSentence | pipeline_sample_metrics_token_categories.py:313-316 | within a block of rows, only the first row's sentence index is read, and later rows write to that sentence |
| Remediation.LastRowWins | pipeline_sample_metrics_token_categories.py:320-327 | the last row of a log sets the three fields of the token it names |
| Remediation.LabelMapLastWins | pipeline_sample_metrics_token_categories.py:612-615 | a span has a label iff some new label names it, and it keeps the value of the last such label |
| Remediation.CopyLabels | pipeline_sample_metrics_token_categories.py:612-615 | every span named by a new label takes that value; spans not named keep theirs |
| CorpusOps.Corpus.constructor | pipeline_sample_metrics_token_categories.py:494-496 | a corpus holds the given token columns and span labels |
| CorpusOps.Corpus.MaskCategory | pipeline_sample_metrics_token_categories.py:545-589 | the corpus becomes the masked dataset, and the counters are the number of triggered tokens and 0 |
| CorpusOps.Corpus.MaskSentenceTokens | pipeline_sample_metrics_token_categories.py:556-571 | one sentence becomes its masked version, and its triggered tokens are counted |
| CorpusOps.Corpus.RelabelCategory | pipeline_sample_metrics_token_categories.py:494-542 | the method fails with IndexError iff the scan does; otherwise the corpus becomes the relabelled dataset and the counters are those of the scan |
| CorpusOps.Corpus.RelabelSentence | pipeline_sample_metrics_token_categories.py:504-535 | one sentence, scanned from a fresh state, is relabelled as the scan decides, or fails iff the scan fails |
| CorpusOps.Corpus.AddBioesTags | pipeline_sample_metrics_token_categories.py:592-609 | every token's chosen column becomes the BIOES encoding of its sentence's spans and its `modified` flag is cleared; nothing else changes |
| CorpusOps.Corpus.UpdateWithEpochLog | pipeline_sample_metrics_token_categories.py:302-330 | the method fails with IndexError iff applying the log does; otherwise the corpus becomes the logged dataset |
| CorpusOps.Corpus.CopyNewTagToOriginal | pipeline_sample_metrics_token_categories.py:612-615 | every sentence's original span labels are updated with its new labels, one after the other |
| Evaluation.Tagged | pipeline_sample_metrics_token_categories.py:357-381 | each label of a sentence gets the key (sentence id, span identifier) and keeps its value, in order |
| Evaluation.ValuesOf | pipeline_sample_metrics_token_categories.py:357-381 | the values of a key are no more than the entries |
| Evaluation.GroupMeaning | pipeline_sample_metrics_token_categories.py:357-381 | the grouping holds a key iff some label carries it, and its list is exactly the values of that key, in visiting order |
| Evaluation.ValuesOfPresent | pipeline_sample_metrics_token_categories.py:357-381 | a key has values iff some entry carries it |
| Evaluation.AddLabels | pipeline_sample_metrics_token_categories.py:358-369 | the inner loop appends each label to its key's list and adds the key to the set of spans |
| Evaluation.CollectValues | pipeline_sample_metrics_token_categories.py:357-383 | after the first loop, the gold and predicted dictionaries group their columns' labels, and the set of spans is exactly the keys of either |
| Evaluation.Aligned | pipeline_sample_metrics_token_categories.py:386-396 | the two aligned lists have the same length, at most one entry per visited span |
| Evaluation.Align | pipeline_sample_metrics_token_categories.py:386-396 | the loop over the set of spans visits each span once, in some order, and builds the aligned lists of that order |
| Evaluation.AlignedMeaning | pipeline_sample_metrics_token_categories.py:386-396 | when no gold list is empty, entry i of both lists belongs to the i-th visited span, with `["O"]` for a side that lacks it |
| Evaluation.FirstLabels | pipeline_sample_metrics_token_categories.py:412-419 | `y_true` and `y_pred` have one label per aligned list |
| Evaluation.SpanAlignment | pipeline_sample_metrics_token_categories.py:357-419 | for any visiting order, `y_true` holds, per visited span, the first gold value given to it or `O`, and likewise `y_pred` |
| Evaluation.TargetNames | pipeline_sample_metrics_token_categories.py:425-434 | the target names are the counted labels except `O`, in order |
| Evaluation.TargetNamesMeaning | pipeline_sample_metrics_token_categories.py:425-434 | `O` is never a target name, every other counted label is one, and distinct counted labels give distinct names |
| Evaluation.MicroAverageCompleted | pipeline_sample_metrics_token_categories.py:459-470 | after completion a micro average exists; with one target it is the macro average; otherwise an existing one is kept and a missing one gets the accuracy in every field; it fails only without a macro average, or without accuracy when the macro average has a field |
| Schedule.KeptConfigs | pipeline_sample_metrics_token_categories.py:811-818 | the filter keeps as many ids as configurations |
| Schedule.KeptMeaning | pipeline_sample_metrics_token_categories.py:811-818 | the filter keeps exactly the enabled ids, in order, each paired with its own setting, and fails with KeyError iff some id has no setting |
| Schedule.KeptOnly | pipeline_sample_metrics_token_categories.py:811-818 | with a single enabled category, the filter keeps just that one |
| Schedule.EpochKeys | pipeline_sample_metrics_token_categories.py:821 | sorting fails with ValueError iff some `epoch_change` is not an integer; otherwise every config gets its parsed epoch as its key |
| Schedule.SortByKey | pipeline_sample_metrics_token_categories.py:821 | the stable sort has as many entries as its input |
| Schedule.SortByKeyMeaning | pipeline_sample_metrics_token_categories.py:821 | `sorted` by key orders by key, is a permutation of its input, and keeps entries with equal keys in input order |
| Schedule.InsertLast | pipeline_sample_metrics_token_categories.py:821 | insertion makes the sequence one entry longer |
| Schedule.BuildPlan | pipeline_sample_metrics_token_categories.py:801-829 | schedule assembly in `main`: the filter, the stable sort by epoch, the empty placeholder and the joined id |
| Schedule.PlanSingle | pipeline_sample_metrics_token_categories.py:801-829 | a schedule with a single enabled category runs just that config under that category's id |
| Schedule.SortedKeysParse | pipeline_sample_metrics_token_categories.py:821 | each sorted entry carries the parsed epoch of its own config |
| Schedule.PlanIds | pipeline_sample_metrics_token_categories.py:823-829 | the id is "0", with only the placeholder, iff no category is enabled; otherwise it is the enabled ids joined in increasing order |
| Schedule.PlanOrder | pipeline_sample_metrics_token_categories.py:821-862 | every enabled config runs once, in epoch order, with equal epochs in id order, so the last config has the largest epoch (the baseline's epoch count) |
| Schedule.KeptCategories | pipeline_sample_metrics_token_categories.py:811-818 | the enabled categories are among the four, each at most once, each with its own setting |
| Schedule.GetDataPaths | pipeline_sample_metrics_token_categories.py:43-61 | the training file is per corpus; a dev or test extension containing "clean" names a file shared by all corpora |
| Schedule.DataPathsShape | pipeline_sample_metrics_token_categories.py:43-61 | every path starts with the data path and ends with its extension; a "clean" path is the same for every corpus, and every other path differs between corpora |
| Summary.FormatValue | summarize_scores_sample_metrics.py:647-651 | a two-character number starting with 0 becomes a decimal fraction, and anything else is copied |
| Summary.FormatParts | summarize_scores_sample_metrics.py:643-654 | there is one formatted part per part |
| Summary.FScoreFormatter | summarize_scores_sample_metrics.py:639-655 | `f_score_formatter` strips the label, splits it on `_`, formats each part and joins them with the separator |
| Summary.FormatPartMeaning | summarize_scores_sample_metrics.py:645-654 | a part is changed iff it starts with `f`, and a changed part reads as F with the value after the `f` as subscript |
| Summary.FormatPartExamples | summarize_scores_sample_metrics.py:646-651 | `f05` becomes F with subscript 0.5, and `f1` F with subscript 1 |
| Summary.PlainLabel | summarize_scores_sample_metrics.py:639-655 | a label with no part starting with `f` only has its underscores replaced by the separator |
| Summary.ThresholdChar | summarize_scores_sample_metrics.py:658-661 | the character is `<` iff the stripped direction is "left" |
| Summary.FormatThreshold | summarize_scores_sample_metrics.py:657-664 | the formatted threshold is the direction character, a space, and the number |
| Summary.ThresholdCharMatchesRule | summarize_scores_sample_metrics.py:657-664 | `<` means a value passes iff it is below the threshold and `>` iff it is above, as masking and relabelling apply it |
| Summary.Mismatch | summarize_scores_sample_metrics.py:776-810 | succeeds iff the four label arrays have one length, keeping the positions labelled `B-MASK`; label arrays that do not broadcast, or a mask of another length than the original file, raise ValueError; IndexError comes only after a length-1 array was broadcast |
| Summary.MaskedRows | summarize_scores_sample_metrics.py:805-808 | every kept row is labelled `B-MASK` |
| Summary.MaskedRowsCount | summarize_scores_sample_metrics.py:805-808 | there is one row per `B-MASK` label |
| Summary.CountsPartition | summarize_scores_sample_metrics.py:812-828 | every mismatch row is a bad or a good masking, and every good masking a bad or a good relabelling |
| Summary.CountErrorsFails | summarize_scores_sample_metrics.py:812-828 | `count_errors` fails iff the arrays differ in length or no label is `B-MASK` |
| Summary.CountErrorsShares | summarize_scores_sample_metrics.py:812-828 | on success the masking shares add up to 100; the relabelling shares are NaN iff no masking was good, and add up to 100 otherwise |
| Summary.SharesMeaning | summarize_scores_sample_metrics.py:825-828 | the four shares are the counts' percentages of their totals |
| Summary.SummaryCategoriesAgree | summarize_scores_sample_metrics.py:14-48 | the summary's `CATEGORIES` table is the pipeline's category condition table |
| Summary.Subset | summarize_scores_sample_metrics.py:374-377 | a category's subset is no larger than the rows |
| Summary.NoisyCount | summarize_scores_sample_metrics.py:380 | the sum of the noisy flags is at most the number of rows |
| Summary.CleanCountMeaning | summarize_scores_sample_metrics.py:380 | `len(values) - sum(values)` counts exactly the rows whose noisy flag is clear |
| Summary.SummaryCategoryOfRow | summarize_scores_sample_metrics.py:368-377 | each row is in exactly one summary category, the one the pipeline gives it when its observed tag is not a mask tag |
| Summary.SubsetsPartition | summarize_scores_sample_metrics.py:370-377 | the sizes of the four category subsets add up to the number of rows of an epoch log |
| Summary.TallyOf | summarize_scores_sample_metrics.py:380-383 | a category's tally has one clean and one noisy count per epoch |
| Summary.CategoryCounts | summarize_scores_sample_metrics.py:356-383 | the counting loop gives each category the tally of all epoch logs, in epoch order |
| Summary.AddEpoch | summarize_scores_sample_metrics.py:370-383 | one epoch's loop over the categories appends its counts to every tally |
| Summary.TallyMeaning | summarize_scores_sample_metrics.py:356-383 | per epoch, a category's clean and noisy counts add up to its size, the clean count is its rows with the noisy flag clear, and the four sizes add up to the logged tokens |
| ExperimentConfigs.HasRelabelling | run.py:187 | `int(cat_id) == 2 or int(cat_id) == 4` fails with ValueError iff the id is not an integer |
| ExperimentConfigs.RelabelledCategories | run.py:187 | of the four categories, exactly 2 and 4 get a relabel configuration |
| ExperimentConfigs.SelectedRows | run.py:199-201 | the selected rows are exactly those whose stripped metric name is listed, in order |
| ExperimentConfigs.Best | run.py:166-171 | `idxmax` over the f05 rows returns the index of a row whose F-type contains "f05" |
| ExperimentConfigs.OutputConfigs | run.py:128-231 | `output_configs` returns the configurations the definition gives: the best row's with `only_best`, otherwise those of every selected row in order |
| ExperimentConfigs.ExpandFails | run.py:199-229 | the row loop fails iff some row is selected and the category id is not an integer |
| ExperimentConfigs.ExpandLayout | run.py:199-229 | with an integer category id, every selected row gives a mask configuration, followed for categories 2 and 4 by a relabel configuration for the same row, and nothing else |
| ExperimentConfigs.ExpandOnlyModifies | run.py:158-229 | each configuration sets only its category's slot, and the other slots stay False |
| ExperimentConfigs.ConfigOnlyModifies | run.py:158-216 | a single configuration sets only its category's slot |
| ExperimentConfigs.BestMeaning | run.py:166-171 | the chosen row has an f05 F-type and the largest score among such rows, every earlier such row has a smaller score, and none is chosen iff no F-type contains "f05" |
| ExperimentConfigs.OnlyBestMeaning | run.py:166-198 | with `only_best`, the best row gives a mask configuration and, for categories 2 and 4, a relabel one; without an f05 row or with a non-integer id it fails |
| ExperimentConfigs.ToRun | run.py:343-344 | the filter keeps at most the given configurations |
| ExperimentConfigs.ToRunMeaning | run.py:343-344 | a configuration runs iff it is one of the produced configurations and the modification in its category's slot is listed |
| ExperimentConfigs.ConfigSchedule | run.py:158-216 | a produced configuration of categories 1 to 4 with an integer epoch gives `main` a schedule of exactly that setting, and the category id is the experiment's id |
| ExperimentConfigs.CombinedSettings | run.py:13-126 | the combined schedule sets all four category slots |
| ExperimentConfigs.CombinedMeaning | run.py:13-126 | the combined schedule never modifies category 3, masks category 1, relabels categories 2 and 4, and uses the metric `tac` throughout in early-exit mode |

## Left out

- Model training (`forward`, loss, `predict`, `evaluate`) and the experiment drivers (`run_standard_baseline`, `run_EE_baseline`, `run_baseline`, `run_experiment`, `run`'s logging) are flair/torch orchestration and are not modelled.
- Softmax, log and sqrt are not modelled: the softmax vector is an input. The metrics that need them (entropy, cross entropy, pehist, layer entropy) are absent, and variability is kept as its square (`variance`).
- `argsort` is not modelled: its first two indices (`top1`, `top2`) are inputs, and it is only required that they head a descending ordering. Among tied probabilities the model does not fix which index comes first.
- `hist_prediction` is mutated in place in the source; the model treats it as a value inside the history.
- The epoch log file writing in `_log_metrics` and `_init_metrics_logging` (header, `round` to 4 digits) is not modelled; only the history write-back is.
- File I/O is not modelled. Reading the epoch log, the CSV tables and the config JSON, writing datasets, and `output_bio_dataset`'s file are out of scope. Their contents are parameters: parsed log lines, parameter rows and label arrays.
- `get_spans_from_bio` (re-deriving spans after masking and relabelling) is not modelled, so the span labels that `copy_new_tag_to_original` reads are an input.
- CorpusOps.Corpus.RelabelCategory: after an IndexError the labels written before the error are not described. The method builds the relabelled sentences in a local sequence and assigns the corpus once, rather than token by token; the sentences finished before an error are kept, as in the source.
- CorpusOps.Corpus.UpdateWithEpochLog: the rows applied before an IndexError are not described.
- flair's `add_label` (which appends) is treated as `set_label` on a column; tokens hold one value per column.
- The noisy flag of a log row is an input boolean, not computed from the two label columns.
- Set and `Counter` iteration orders are nondeterministic. The alignment visits the spans in any order (returned as a ghost), and `most_common` is given as a sequence.
- The scoring itself (`Dictionary` indices, `sklearn` classification report, confusion matrix, accuracy) is not modelled. The alignment stops at `y_true`/`y_pred` as labels, and the micro-average completion works on a given report.
- `int()` is modelled for ASCII digits with an optional sign and surrounding whitespace. Underscores and non-ASCII digits are not accepted.
- Bioes.GoldLabels: follows the corrected token mode, which reads the requested label type; the written behaviour is Bioes.SentenceGoldAsWritten (see "## Findings").
- Strings.Strip: removes only space, tab, `\n`, `\r`, `\x0b` and `\x0c`; Python's `str.strip()` also removes `\x1c`-`\x1f` and non-ASCII whitespace.
- Summary.Mismatch: follows NumPy releases in which comparing arrays whose lengths do not broadcast raises `ValueError`; older releases returned one boolean there instead, which is not modelled.
- Strings.ShowNat: only the round trip with `int()` is stated, not the digits' layout.
- Float formatting (`mixed_formatter`, `round`, f-string precision) is not modelled: `format_threshold` takes the formatted number as an input.
- In `output_configs`, the config fields other than the category slots and the mode (paths, seeds, corpora) are not modelled. `data.loc` with a duplicate index is not modelled either.
- The placeholder config of `main` has the empty string as its id.
- The plotting and LaTeX table functions of summarize_scores_sample_metrics.py are not modelled, apart from the two formatters and the counting they use.
- The evaluation key `"<sentence id>: <span identifier>"` is modelled as a pair, which is distinct for distinct pairs, as the string is.

## Findings

| source | as written | input that shows it | evidently intended | confidence | as-written member | corrected member |
|---|---|---|---|---|---|---|
| pipeline_sample_metrics_token_categories.py:340-344 | `val.replace('E-', 'I-')` replaces every occurrence of `E-`, including inside the entity type | the tag `E-LIVE-EVENT` is written as `I-LIVI-EVENT` | only the two-character prefix changes, giving `I-LIVE-EVENT` (and likewise for `S-`) | not executed | Bioes.OutputTagAsWrittenAltersType | Bioes.OutputTagBioesToBio |
| sequence_tagger_model.py:435 | in the token mode `_get_gold_labels` reads `token.get_label(self.label_type, "O")`, ignoring its `label_type` argument, so the `_clean` requests at lines 384, 527, 774 and 973 get the observed labels | token mode, one token labelled `B-PER` under `ner` and `O` under `ner_clean`, with `ner_clean` requested: the result is `["B-PER"]` | `["O"]`, the labels of the requested type, as the span mode at lines 408-416 does | not executed; the span mode, which NER taggers with span labels use, is not affected | Bioes.GoldAsWrittenIgnoresClean | Bioes.SentenceGoldReadsOneType |
