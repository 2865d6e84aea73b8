/** The small helpers of summarize_scores_sample_metrics.py that decide what the summary
    tables and plots show: the F-type label formatter, the threshold direction character,
    the mask/relabel error shares, and the per-category sample counts. */
module Summary {
  import opened Wrappers
  import opened Strings
  import opened Categories
  import opened Sequences

  /** The separator `f_score_formatter` puts between formatted parts. */
  const Separator: string := "\\normalsize{/}"

  /** The number of an F-type part: a two-character number with a leading zero is a
      decimal fraction, anything else is copied. */
  function FormatValue(num: string): (v: string)
    ensures |num| == 2 && num[0] == '0' ==> v == "0." + [num[1]]
    ensures !(|num| == 2 && num[0] == '0') ==> v == num
  {
    if |num| == 2 && num[0] == '0' then "0." + [num[1]] else num
  }

  /** One formatted part: a part starting with 'f' becomes an F with its value as
      subscript, any other part is kept. */
  function FormatPart(part: string): string {
    if StartsWith(part, "f") then "\\normalsize{F}\\scriptsize{" + FormatValue(part[1..]) + "}"
    else part
  }

  /** The formatted parts, one per part. */
  function FormatParts(parts: seq<string>): (r: seq<string>)
    ensures |r| == |parts| && forall i :: 0 <= i < |parts| ==> r[i] == FormatPart(parts[i])
  {
    seq(|parts|, i requires 0 <= i < |parts| => FormatPart(parts[i]))
  }

  /** `f_score_formatter`: strip the label, split it on '_', format each part in a loop
      and join the results with the separator. */
  method FScoreFormatter(tableLabel: string) returns (r: string)
    ensures r == Join(FormatParts(Split(Strip(tableLabel), '_')), Separator)
  {
    var stripped := Strip(tableLabel);
    var parts := Split(stripped, '_');
    var formattedParts: seq<string> := [];
    for i := 0 to |parts|
      invariant formattedParts == FormatParts(parts[..i])
    {
      var formatted := FormatOne(parts[i]);
      assert parts[..i + 1] == parts[..i] + [parts[i]];
      formattedParts := formattedParts + [formatted];
    }
    assert parts[..|parts|] == parts;
    r := Join(formattedParts, Separator);
  }

  /** The body of the formatting loop for one part. */
  method FormatOne(part: string) returns (formatted: string)
    ensures formatted == FormatPart(part)
  {
    if |part| >= 1 && part[0] == 'f' {
      var numStr := part[1..];
      var value;
      if |numStr| == 2 && numStr[0] == '0' {
        value := "0." + [numStr[1]];
      } else {
        value := numStr;
      }
      formatted := "\\normalsize{F}\\scriptsize{" + value + "}";
    } else {
      formatted := part;
    }
  }

  /** A part is changed iff it starts with 'f'; a changed part always reads as an F with
      a subscript, which names the value after the 'f'. */
  lemma FormatPartMeaning(part: string)
    ensures FormatPart(part) == part <==> !StartsWith(part, "f")
    ensures StartsWith(part, "f") ==>
              && StartsWith(FormatPart(part), "\\normalsize{F}\\scriptsize{")
              && EndsWith(FormatPart(part), "}")
  {
    if StartsWith(part, "f") {
      assert FormatPart(part)[0] == '\\' && part[0] == 'f';
    }
  }

  /** The F-types used in the result tables: `f05` is F with subscript 0.5, `f1` is F with
      subscript 1. */
  lemma FormatPartExamples(a: string, b: string)
    requires a == "f05" && b == "f1"
    ensures FormatPart(a) == "\\normalsize{F}\\scriptsize{0.5}"
    ensures FormatPart(b) == "\\normalsize{F}\\scriptsize{1}"
  {
    assert a[1..] == "05";
    assert b[1..] == "1";
  }

  /** A label none of whose parts starts with 'f' only has its underscores replaced by the
      separator. */
  lemma PlainLabel(tableLabel: string)
    requires forall i :: 0 <= i < |Split(Strip(tableLabel), '_')| ==> !StartsWith(Split(Strip(tableLabel), '_')[i], "f")
    ensures Join(FormatParts(Split(Strip(tableLabel), '_')), Separator) == Join(Split(Strip(tableLabel), '_'), Separator)
  {
    var parts := Split(Strip(tableLabel), '_');
    forall i | 0 <= i < |parts| ensures FormatParts(parts)[i] == parts[i] {
      FormatPartMeaning(parts[i]);
    }
    assert FormatParts(parts) == parts;
  }

  /** The direction character of `format_threshold`: '<' iff the stripped direction is
      "left". */
  function ThresholdChar(direction: string): (ch: char)
    ensures ch == '<' <==> Strip(direction) == "left"
    ensures ch == '<' || ch == '>'
  {
    if Strip(direction) == "left" then '<' else '>'
  }

  /** `format_threshold`, given the already formatted threshold number. */
  function FormatThreshold(direction: string, formattedThreshold: string): (s: string)
    ensures |s| == |formattedThreshold| + 2 && s[1] == ' ' && s[2..] == formattedThreshold
    ensures s[0] == ThresholdChar(direction)
  {
    [ThresholdChar(direction)] + " " + formattedThreshold
  }

  /** The character shows the comparison masking and relabelling apply for the (stripped)
      direction: '<' means a value exceeds the threshold iff it is below it, '>' iff it is
      above it. */
  lemma ThresholdCharMatchesRule(direction: string, value: real, threshold: real)
    ensures ThresholdChar(direction) == '<' ==> (Exceeds(value, threshold, Strip(direction)) <==> value < threshold)
    ensures ThresholdChar(direction) == '>' ==> (Exceeds(value, threshold, Strip(direction)) <==> value > threshold)
  {
  }

  /** The labels of one token in the four files compared by `count_errors`. */
  datatype Row = Row(original: string, relabel: string, masked: string, clean: string)

  /** `get_mismatch`: the positions whose masked label is "B-MASK", with the four labels
      there. Length mismatches fail where the source first meets them: comparing label
      arrays elementwise when they do not broadcast (neither length equals the other nor
      is 1), and filtering a DataFrame by a mask of another length (a broadcast one too),
      raise `ValueError`. Only when both pass, because an array of length 1 was broadcast,
      does the final boolean indexing of an array of another length raise `IndexError`. */
  function Mismatch(original: seq<string>, relabel: seq<string>, masked: seq<string>, clean: seq<string>)
    : (r: Result<seq<Row>>)
    ensures r.Success? <==> |original| == |relabel| == |clean| == |masked|
    ensures r.Failure? ==> r.error == ValueError || r.error == IndexError
    ensures |masked| != |original| ==> r == Failure(ValueError)
    ensures (|relabel| != |original| && |relabel| != 1) || !Broadcasts(|clean|, |original|) ==>
              r == Failure(ValueError)
    ensures && r.Failure? && |masked| == |original| && Broadcasts(|clean|, |original|)
            && (|relabel| == |original| || |relabel| == 1)
            ==> r == Failure(IndexError)
    ensures r == Failure(IndexError) ==>
              |masked| == |original| && (|relabel| == 1 || |original| == 1 || |clean| == 1)
  {
    if !Broadcasts(|clean|, |original|) then Failure(ValueError)
    else if !(|relabel| == |original| || |relabel| == 1) then Failure(ValueError)
    else if |masked| != |original| then Failure(ValueError)
    else if |relabel| != |original| || |clean| != |original| then Failure(IndexError)
    else Success(MaskedRows(original, relabel, masked, clean))
  }

  /** Two one-dimensional arrays of these lengths can be compared elementwise. */
  predicate Broadcasts(m: nat, n: nat) {
    m == n || m == 1 || n == 1
  }

  /** The files of the example: the relabelled file is one line short, so comparing its
      labels with the original ones raises `ValueError` before any indexing happens. */
  lemma MismatchShortRelabel()
    ensures Mismatch(["O", "O", "O"], ["O", "O"], ["O", "O", "O"], ["O", "O", "O"]) == Failure(ValueError)
  {
  }

  /** A one-line relabelled file broadcasts in the comparisons and fails only at the final
      boolean indexing. */
  lemma MismatchOneLineRelabel()
    ensures Mismatch(["O", "O"], ["O"], ["O", "B-MASK"], ["O", "O"]) == Failure(IndexError)
  {
  }

  function MaskedRows(original: seq<string>, relabel: seq<string>, masked: seq<string>, clean: seq<string>)
    : (rows: seq<Row>)
    requires |original| == |relabel| == |clean| == |masked|
    ensures forall i :: 0 <= i < |rows| ==> rows[i].masked == "B-MASK"
  {
    if masked == [] then []
    else
      var n := |masked| - 1;
      MaskedRows(original[..n], relabel[..n], masked[..n], clean[..n])
        + (if masked[n] == "B-MASK" then [Row(original[n], relabel[n], masked[n], clean[n])] else [])
  }

  /** One row per "B-MASK" label. */
  lemma {:induction false} MaskedRowsCount(original: seq<string>, relabel: seq<string>, masked: seq<string>, clean: seq<string>)
    requires |original| == |relabel| == |clean| == |masked|
    ensures |MaskedRows(original, relabel, masked, clean)| == Count(masked, "B-MASK")
    decreases |masked|
  {
    if masked != [] {
      var n := |masked| - 1;
      MaskedRowsCount(original[..n], relabel[..n], masked[..n], clean[..n]);
      assert masked == masked[..n] + [masked[n]];
      CountAppend(masked[..n], masked[n], "B-MASK");
    }
  }

  /** The four sums of `count_errors`. */
  datatype ErrorCounts = ErrorCounts(badMasked: nat, goodMasked: nat, badRelabel: nat, goodRelabel: nat)

  /** Masking is bad where the original label was already the clean one; relabelling is
      judged only where masking was good, and is good where it restores the clean label. */
  function Counts(rows: seq<Row>): ErrorCounts {
    if rows == [] then ErrorCounts(0, 0, 0, 0)
    else
      var c := Counts(rows[..|rows| - 1]);
      var r := rows[|rows| - 1];
      ErrorCounts(
        c.badMasked + (if r.original == r.clean then 1 else 0),
        c.goodMasked + (if r.original != r.clean then 1 else 0),
        c.badRelabel + (if r.clean != r.relabel && r.original != r.clean then 1 else 0),
        c.goodRelabel + (if r.clean == r.relabel && r.original != r.clean then 1 else 0))
  }

  /** Every mismatch row is a bad or a good masking, and every good masking a bad or a good
      relabelling. */
  lemma {:induction false} CountsPartition(rows: seq<Row>)
    ensures Counts(rows).badMasked + Counts(rows).goodMasked == |rows|
    ensures Counts(rows).badRelabel + Counts(rows).goodRelabel == Counts(rows).goodMasked
    decreases |rows|
  {
    if rows != [] {
      CountsPartition(rows[..|rows| - 1]);
    }
  }

  /** The four percentages of `count_errors`; a relabelling share is `None` where numpy
      divides a zero count by zero (NaN). */
  datatype ErrorShares = ErrorShares(badMasked: real, goodMasked: real, badRelabel: Option<real>, goodRelabel: Option<real>)

  /** `count_errors`: with no mismatch row both sums are the Python integer 0 and the
      division raises `ZeroDivisionError`. */
  function CountErrors(original: seq<string>, relabel: seq<string>, masked: seq<string>, clean: seq<string>)
    : (r: Result<ErrorShares>)
  {
    var mismatch := Mismatch(original, relabel, masked, clean);
    if mismatch.Failure? then Failure(mismatch.error)
    else
      var c := Counts(mismatch.value);
      var total := |mismatch.value|;
      if total == 0 then Failure(ZeroDivisionError)
      else
        var relabelled := c.badRelabel + c.goodRelabel;
        ErrorSharesOf(c, total, relabelled)
  }

  function ErrorSharesOf(c: ErrorCounts, total: nat, relabelled: nat): Result<ErrorShares>
    requires total > 0
  {
    Success(ErrorShares(
      c.badMasked as real / total as real * 100.0,
      c.goodMasked as real / total as real * 100.0,
      if relabelled == 0 then None else Some(c.badRelabel as real / relabelled as real * 100.0),
      if relabelled == 0 then None else Some(c.goodRelabel as real / relabelled as real * 100.0)))
  }

  /** `count_errors` fails iff the label lists differ in length or no label is "B-MASK". */
  lemma CountErrorsFails(original: seq<string>, relabel: seq<string>, masked: seq<string>, clean: seq<string>)
    ensures CountErrors(original, relabel, masked, clean).Failure? <==>
              !(|original| == |relabel| == |clean| == |masked|) || Count(masked, "B-MASK") == 0
  {
    if |original| == |relabel| == |clean| == |masked| {
      MaskedRowsCount(original, relabel, masked, clean);
    }
  }

  /** When `count_errors` succeeds, the masking shares add up to 100; the relabelling shares
      are NaN iff no masking was good, and add up to 100 otherwise. */
  lemma CountErrorsShares(original: seq<string>, relabel: seq<string>, masked: seq<string>, clean: seq<string>)
    requires CountErrors(original, relabel, masked, clean).Success?
    ensures var r := CountErrors(original, relabel, masked, clean).value;
            && r.badMasked + r.goodMasked == 100.0
            && (r.badRelabel.None? <==> Counts(MaskedRows(original, relabel, masked, clean)).goodMasked == 0)
            && r.badRelabel.None? == r.goodRelabel.None?
            && (r.badRelabel.Some? ==> r.badRelabel.value + r.goodRelabel.value == 100.0)
  {
    var rows := MaskedRows(original, relabel, masked, clean);
    CountsPartition(rows);
    var c := Counts(rows);
    SharesMeaning(c, |rows|, c.badRelabel + c.goodRelabel);
  }

  lemma SharesMeaning(c: ErrorCounts, total: nat, relabelled: nat)
    requires total > 0 && c.badMasked + c.goodMasked == total
    requires relabelled == c.badRelabel + c.goodRelabel
    ensures var r := ErrorSharesOf(c, total, relabelled).value;
            && r.badMasked + r.goodMasked == 100.0
            && (r.badRelabel.None? <==> relabelled == 0)
            && r.badRelabel.None? == r.goodRelabel.None?
            && (r.badRelabel.Some? ==> r.badRelabel.value + r.goodRelabel.value == 100.0)
  {
    SharesAddUp(c.badMasked, c.goodMasked);
    if relabelled > 0 {
      SharesAddUp(c.badRelabel, c.goodRelabel);
    }
  }

  lemma SharesAddUp(a: nat, b: nat)
    requires a + b > 0
    ensures a as real / (a + b) as real * 100.0 + b as real / (a + b) as real * 100.0 == 100.0
  {
    var t := (a + b) as real;
    assert a as real / t + b as real / t == (a as real + b as real) / t;
  }

  /** The rows of an epoch log that `main` counts: predicted and observed ("noisy") tag
      and the noisy flag. */
  datatype LogRow = LogRow(predicted: string, noisy: string, noisyFlag: bool)

  /** An entry of `CATEGORIES`: the id, the correct-prediction flag and whether the
      observed tableLabel is 'O'. */
  datatype CategorySpec = CategorySpec(id: Category, correctPrediction: bool, observedO: bool)

  const SummaryCategories: seq<CategorySpec> := [
    CategorySpec(C1, true, true),
    CategorySpec(C2, false, true),
    CategorySpec(C3, true, false),
    CategorySpec(C4, false, false)]

  /** The table of `CATEGORIES` is the category condition table of the pipeline. */
  lemma SummaryCategoriesAgree()
    ensures |SummaryCategories| == 4
    ensures forall i :: 0 <= i < 4 ==>
              (SummaryCategories[i].correctPrediction, SummaryCategories[i].observedO)
                == Conditions(SummaryCategories[i].id)
    ensures {SummaryCategories[0].id, SummaryCategories[1].id, SummaryCategories[2].id, SummaryCategories[3].id}
            == {C1, C2, C3, C4}
  {
  }

  /** The row filter of a category, with the correct flag `predicted == noisy`. */
  predicate InSummaryCategory(row: LogRow, spec: CategorySpec) {
    && (row.predicted == row.noisy) == spec.correctPrediction
    && (if spec.observedO then row.noisy == "O" else row.noisy != "O")
  }

  function Subset(rows: seq<LogRow>, spec: CategorySpec): (sub: seq<LogRow>)
    ensures |sub| <= |rows|
  {
    if rows == [] then []
    else Subset(rows[..|rows| - 1], spec) + (if InSummaryCategory(rows[|rows| - 1], spec) then [rows[|rows| - 1]] else [])
  }

  /** `sum` of the noisy flags. */
  function NoisyCount(rows: seq<LogRow>): (n: nat)
    ensures n <= |rows|
  {
    if rows == [] then 0 else NoisyCount(rows[..|rows| - 1]) + (if rows[|rows| - 1].noisyFlag then 1 else 0)
  }

  /** The number of rows whose noisy flag is clear. */
  function CleanRows(rows: seq<LogRow>): nat {
    if rows == [] then 0 else CleanRows(rows[..|rows| - 1]) + (if rows[|rows| - 1].noisyFlag then 0 else 1)
  }

  /** `len(values) - sum(values)` counts exactly the clean rows. */
  lemma {:induction false} CleanCountMeaning(rows: seq<LogRow>)
    ensures |rows| - NoisyCount(rows) == CleanRows(rows)
    decreases |rows|
  {
    if rows != [] {
      CleanCountMeaning(rows[..|rows| - 1]);
    }
  }

  /** Each row is in exactly one summary category, the one the pipeline's category rule
      gives it whenever its observed tag is not a mask tag. */
  lemma SummaryCategoryOfRow(row: LogRow)
    ensures exists i :: 0 <= i < 4 && InSummaryCategory(row, SummaryCategories[i])
    ensures forall i, j :: 0 <= i < j < 4 ==>
              !(InSummaryCategory(row, SummaryCategories[i]) && InSummaryCategory(row, SummaryCategories[j]))
    ensures !EndsWith(row.noisy, "MASK") ==>
              forall i :: 0 <= i < 4 ==>
                (InSummaryCategory(row, SummaryCategories[i]) <==>
                 CategoryOf(row.noisy, row.predicted) == Some(SummaryCategories[i].id))
  {
    var k := if row.predicted == row.noisy then (if row.noisy == "O" then 0 else 2)
             else (if row.noisy == "O" then 1 else 3);
    assert InSummaryCategory(row, SummaryCategories[k]);
  }

  /** The four category subsets partition the rows of an epoch log. */
  lemma {:induction false} SubsetsPartition(rows: seq<LogRow>)
    ensures |Subset(rows, SummaryCategories[0])| + |Subset(rows, SummaryCategories[1])|
            + |Subset(rows, SummaryCategories[2])| + |Subset(rows, SummaryCategories[3])| == |rows|
    decreases |rows|
  {
    if rows != [] {
      SubsetsPartition(rows[..|rows| - 1]);
      SummaryCategoryOfRow(rows[|rows| - 1]);
    }
  }

  /** The clean and noisy sample counts of one category over the epochs. */
  datatype Tally = Tally(clean: seq<nat>, noisy: seq<nat>)

  /** The counts of category `spec` in epoch log `rows`. */
  function CleanOf(rows: seq<LogRow>, spec: CategorySpec): nat {
    |Subset(rows, spec)| - NoisyCount(Subset(rows, spec))
  }

  function NoisyOf(rows: seq<LogRow>, spec: CategorySpec): nat {
    NoisyCount(Subset(rows, spec))
  }

  /** The tally of a category after the given epochs: one clean and one noisy count per
      epoch, in epoch order. */
  function TallyOf(epochs: seq<seq<LogRow>>, spec: CategorySpec): (t: Tally)
    ensures |t.clean| == |t.noisy| == |epochs|
  {
    Tally(seq(|epochs|, e requires 0 <= e < |epochs| => CleanOf(epochs[e], spec)),
          seq(|epochs|, e requires 0 <= e < |epochs| => NoisyOf(epochs[e], spec)))
  }

  lemma TallyStep(epochs: seq<seq<LogRow>>, i: nat, spec: CategorySpec)
    requires i < |epochs|
    ensures TallyOf(epochs[..i + 1], spec)
            == Tally(TallyOf(epochs[..i], spec).clean + [CleanOf(epochs[i], spec)],
                     TallyOf(epochs[..i], spec).noisy + [NoisyOf(epochs[i], spec)])
  {
  }

  /** The counting of `main` for one mode: for every epoch log and every category, the
      clean and the noisy count of the category's rows are appended to its tally. */
  method CategoryCounts(epochs: seq<seq<LogRow>>) returns (counts: map<Category, Tally>)
    ensures forall j :: 0 <= j < 4 ==>
              SummaryCategories[j].id in counts && counts[SummaryCategories[j].id] == TallyOf(epochs, SummaryCategories[j])
  {
    counts := map c: Category | c in [C1, C2, C3, C4] :: Tally([], []);
    for i := 0 to |epochs|
      invariant forall j :: 0 <= j < 4 ==>
                  SummaryCategories[j].id in counts && counts[SummaryCategories[j].id] == TallyOf(epochs[..i], SummaryCategories[j])
    {
      counts := AddEpoch(counts, epochs, i);
    }
    assert epochs[..|epochs|] == epochs;
  }

  /** The loop over `CATEGORIES` for one epoch log. */
  method AddEpoch(counts: map<Category, Tally>, epochs: seq<seq<LogRow>>, i: nat)
    returns (counts': map<Category, Tally>)
    requires i < |epochs|
    requires forall j :: 0 <= j < 4 ==>
               SummaryCategories[j].id in counts && counts[SummaryCategories[j].id] == TallyOf(epochs[..i], SummaryCategories[j])
    ensures forall j :: 0 <= j < 4 ==>
              SummaryCategories[j].id in counts' && counts'[SummaryCategories[j].id] == TallyOf(epochs[..i + 1], SummaryCategories[j])
  {
    counts' := counts;
    var rows := epochs[i];
    for j := 0 to 4
      invariant forall k :: 0 <= k < 4 ==> SummaryCategories[k].id in counts'
      invariant forall k :: 0 <= k < j ==>
                  counts'[SummaryCategories[k].id] == TallyOf(epochs[..i + 1], SummaryCategories[k])
      invariant forall k :: j <= k < 4 ==>
                  counts'[SummaryCategories[k].id] == TallyOf(epochs[..i], SummaryCategories[k])
    {
      var category := SummaryCategories[j];
      var subset := Subset(rows, category);
      var countNoisy := NoisyCount(subset);
      var countClean := |subset| - countNoisy;
      var t := counts'[category.id];
      TallyStep(epochs, i, category);
      counts' := counts'[category.id := Tally(t.clean + [countClean], t.noisy + [countNoisy])];
    }
  }

  /** In every epoch, the clean and noisy counts of a category add up to its size; the
      clean count is the number of its rows with the noisy flag clear; and the sizes of
      the four categories add up to the number of logged tokens. */
  lemma TallyMeaning(epochs: seq<seq<LogRow>>, e: nat)
    requires e < |epochs|
    ensures forall j :: 0 <= j < 4 ==>
              && TallyOf(epochs, SummaryCategories[j]).clean[e] + TallyOf(epochs, SummaryCategories[j]).noisy[e]
                   == |Subset(epochs[e], SummaryCategories[j])|
              && TallyOf(epochs, SummaryCategories[j]).clean[e] == CleanRows(Subset(epochs[e], SummaryCategories[j]))
    ensures |Subset(epochs[e], SummaryCategories[0])| + |Subset(epochs[e], SummaryCategories[1])|
            + |Subset(epochs[e], SummaryCategories[2])| + |Subset(epochs[e], SummaryCategories[3])| == |epochs[e]|
  {
    forall j | 0 <= j < 4
      ensures TallyOf(epochs, SummaryCategories[j]).clean[e] == CleanRows(Subset(epochs[e], SummaryCategories[j]))
    {
      CleanCountMeaning(Subset(epochs[e], SummaryCategories[j]));
    }
    SubsetsPartition(epochs[e]);
  }
}
