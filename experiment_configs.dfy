/** The expansion of tuned parameter rows into experiment configurations in run.py
    (`output_configs`, `get_combined_config` and the modification filter of `run`). Only
    the part of a configuration that `main` reads to build its schedule is modelled: the
    tagger mode and the four `modify_category<id>` slots. */
module ExperimentConfigs {
  import opened Wrappers
  import opened Strings
  import opened Schedule

  /** One row of an optimal-parameter table: the two index levels (metric name, F-type),
      the `epoch`, `threshold` and `direction` columns as text, and the `score`. */
  datatype ParamRow = ParamRow(
    metricName: string,
    fType: string,
    epoch: string,
    threshold: string,
    direction: string,
    score: real)

  /** The modelled part of an experiment configuration. A slot maps a category id to its
      setting, `None` standing for `False`; a setting has no `id` yet (`main` adds it). */
  datatype ExperimentConfig = ExperimentConfig(seqTaggerMode: string, slots: map<string, Option<StepConfig>>)

  /** The slots of `base_config`: all four categories unmodified. */
  const NoModification: map<string, Option<StepConfig>> :=
    map["1" := None, "2" := None, "3" := None, "4" := None]

  /** The setting written for a row. The mask setting keeps the direction as read, the
      relabel setting strips it. */
  function Setting(row: ParamRow, modification: string): StepConfig {
    StepConfig(
      Strip(row.metricName),
      Strip(row.fType),
      modification,
      Strip(row.threshold),
      if modification == "relabel" then Strip(row.direction) else row.direction,
      Strip(row.epoch),
      "")
  }

  /** A copy of the base configuration with only `modify_category<catId>` set. */
  function ConfigFor(catId: string, mode: string, row: ParamRow, modification: string): ExperimentConfig {
    ExperimentConfig(mode, NoModification[catId := Some(Setting(row, modification))])
  }

  /** `int(cat_id) == 2 or int(cat_id) == 4`, raising `ValueError` if `cat_id` is not an
      integer. */
  function HasRelabelling(catId: string): (r: Result<bool>)
    ensures r.Failure? <==> ParseInt(catId).None?
    ensures r.Success? ==> (r.value <==> ParseInt(catId) == Some(2) || ParseInt(catId) == Some(4))
  {
    var v := ParseInt(catId);
    if v.None? then Failure(ValueError) else Success(v.value == 2 || v.value == 4)
  }

  /** Of the four categories, exactly 2 and 4 get a relabel configuration. */
  lemma RelabelledCategories(catId: string)
    requires catId in CategoryIds
    ensures HasRelabelling(catId) == Success(catId == "2" || catId == "4")
  {
    var d := catId[0];
    assert catId == [d];
    assert DigitsValue(catId) == Some(d as int - '0' as int) by {
      assert catId[..0] == [];
    }
  }

  /** The configurations of one row: a mask configuration, then for categories 2 and 4 a
      relabel configuration. */
  function RowConfigs(catId: string, mode: string, row: ParamRow): Result<seq<ExperimentConfig>> {
    var relabel := HasRelabelling(catId);
    if relabel.Failure? then Failure(relabel.error)
    else Success([ConfigFor(catId, mode, row, "mask")]
                 + (if relabel.value then [ConfigFor(catId, mode, row, "relabel")] else []))
  }

  /** The row loop of `output_configs`: rows whose stripped metric name is listed produce
      their configurations, in row order. */
  function Expand(catId: string, mode: string, metricsList: seq<string>, rows: seq<ParamRow>)
    : Result<seq<ExperimentConfig>>
  {
    if rows == [] then Success([])
    else
      var before := Expand(catId, mode, metricsList, rows[..|rows| - 1]);
      var row := rows[|rows| - 1];
      if before.Failure? then before
      else if Strip(row.metricName) !in metricsList then before
      else
        var more := RowConfigs(catId, mode, row);
        if more.Failure? then more else Success(before.value + more.value)
  }

  /** The rows whose stripped metric name is listed. */
  function SelectedRows(metricsList: seq<string>, rows: seq<ParamRow>): (sel: seq<ParamRow>)
    ensures |sel| <= |rows|
  {
    if rows == [] then []
    else SelectedRows(metricsList, rows[..|rows| - 1])
         + (if Strip(rows[|rows| - 1].metricName) in metricsList then [rows[|rows| - 1]] else [])
  }

  /** `idxmax` of the score over the rows whose F-type contains "f05": the first row with
      the largest score, `None` if there is no such row. */
  function Best(rows: seq<ParamRow>): (k: Option<nat>)
    ensures k.Some? ==> k.value < |rows| && Contains(rows[k.value].fType, "f05")
  {
    if rows == [] then None
    else
      var before := Best(rows[..|rows| - 1]);
      var row := rows[|rows| - 1];
      if !Contains(row.fType, "f05") then before
      else if before.None? || rows[before.value].score < row.score then Some(|rows| - 1)
      else before
  }

  /** `output_configs` over the rows of the table. */
  function OutputConfigsOf(catId: string, mode: string, metricsList: seq<string>, rows: seq<ParamRow>, onlyBest: bool)
    : Result<seq<ExperimentConfig>>
  {
    if onlyBest then
      var best := Best(rows);
      if best.None? then Failure(ValueError) else RowConfigs(catId, mode, rows[best.value])
    else Expand(catId, mode, metricsList, rows)
  }

  /** `output_configs`: with `only_best` the best f05 row gives its configurations;
      otherwise the loop over the rows appends them, row by row. */
  method OutputConfigs(catId: string, mode: string, metricsList: seq<string>, rows: seq<ParamRow>, onlyBest: bool)
    returns (r: Result<seq<ExperimentConfig>>)
    ensures r == OutputConfigsOf(catId, mode, metricsList, rows, onlyBest)
  {
    if onlyBest {
      var best := Best(rows);
      if best.None? {
        return Failure(ValueError);
      }
      r := RowConfigs(catId, mode, rows[best.value]);
      return;
    }
    var experimentConfigs: seq<ExperimentConfig> := [];
    for i := 0 to |rows|
      invariant Expand(catId, mode, metricsList, rows[..i]) == Success(experimentConfigs)
    {
      ExpandStep(catId, mode, metricsList, rows, i);
      var row := rows[i];
      if Strip(row.metricName) in metricsList {
        ghost var before := experimentConfigs;
        experimentConfigs := experimentConfigs + [ConfigFor(catId, mode, row, "mask")];
        var relabel := HasRelabelling(catId);
        if relabel.Failure? {
          ExpandPrefixFails(catId, mode, metricsList, rows, i + 1);
          return Failure(relabel.error);
        }
        if relabel.value {
          experimentConfigs := experimentConfigs + [ConfigFor(catId, mode, row, "relabel")];
        }
        assert experimentConfigs == before + RowConfigs(catId, mode, row).value;
      }
    }
    assert rows[..|rows|] == rows;
    r := Success(experimentConfigs);
  }

  /** One more row of the loop. */
  lemma ExpandStep(catId: string, mode: string, metricsList: seq<string>, rows: seq<ParamRow>, i: nat)
    requires i < |rows| && Expand(catId, mode, metricsList, rows[..i]).Success?
    ensures var before := Expand(catId, mode, metricsList, rows[..i]);
            var more := RowConfigs(catId, mode, rows[i]);
            Expand(catId, mode, metricsList, rows[..i + 1])
              == if Strip(rows[i].metricName) !in metricsList then before
                 else if more.Failure? then more
                 else Success(before.value + more.value)
  {
    assert rows[..i + 1][..i] == rows[..i];
  }

  lemma {:induction false} ExpandPrefixFails(catId: string, mode: string, metricsList: seq<string>, rows: seq<ParamRow>, n: nat)
    requires n <= |rows| && Expand(catId, mode, metricsList, rows[..n]).Failure?
    ensures Expand(catId, mode, metricsList, rows) == Expand(catId, mode, metricsList, rows[..n])
    decreases |rows| - n
  {
    if n < |rows| {
      assert rows[..n + 1][..n] == rows[..n];
      ExpandPrefixFails(catId, mode, metricsList, rows, n + 1);
    } else {
      assert rows[..n] == rows;
    }
  }

  /** Only the slot of the modified category is set in a configuration of `catId`. */
  ghost predicate OnlyModifies(c: ExperimentConfig, catId: string) {
    && catId in c.slots && c.slots[catId].Some?
    && (forall k :: k in c.slots && k != catId ==> c.slots[k].None?)
    && (forall k :: k in ["1", "2", "3", "4"] ==> k in c.slots)
  }

  /** The row loop fails iff some row is selected and the category id is not an
      integer. */
  lemma {:induction false} ExpandFails(catId: string, mode: string, metricsList: seq<string>, rows: seq<ParamRow>)
    ensures Expand(catId, mode, metricsList, rows).Failure?
            <==> SelectedRows(metricsList, rows) != [] && ParseInt(catId).None?
    decreases |rows|
  {
    if rows != [] {
      ExpandFails(catId, mode, metricsList, rows[..|rows| - 1]);
    }
  }

  /** With an integer category id, every selected row gives a mask configuration,
      followed for categories 2 and 4 by a relabel configuration for the same row, and
      nothing else. */
  lemma ExpandLayout(catId: string, mode: string, metricsList: seq<string>, rows: seq<ParamRow>)
    requires ParseInt(catId).Some?
    ensures var r := Expand(catId, mode, metricsList, rows);
            var sel := SelectedRows(metricsList, rows);
            && r.Success?
            && (!HasRelabelling(catId).value ==>
                  && |r.value| == |sel|
                  && forall j :: 0 <= j < |sel| ==> r.value[j] == ConfigFor(catId, mode, sel[j], "mask"))
            && (HasRelabelling(catId).value ==>
                  && |r.value| == 2 * |sel|
                  && (forall j :: 0 <= j < |sel| ==> r.value[2 * j] == ConfigFor(catId, mode, sel[j], "mask"))
                  && (forall j :: 0 <= j < |sel| ==> r.value[2 * j + 1] == ConfigFor(catId, mode, sel[j], "relabel")))
  {
    if HasRelabelling(catId).value {
      ExpandPairs(catId, mode, metricsList, rows);
    } else {
      ExpandMaskOnly(catId, mode, metricsList, rows);
    }
  }

  lemma {:induction false} ExpandMaskOnly(catId: string, mode: string, metricsList: seq<string>, rows: seq<ParamRow>)
    requires HasRelabelling(catId) == Success(false)
    ensures var r := Expand(catId, mode, metricsList, rows);
            var sel := SelectedRows(metricsList, rows);
            && r.Success? && |r.value| == |sel|
            && forall j :: 0 <= j < |sel| ==> r.value[j] == ConfigFor(catId, mode, sel[j], "mask")
    decreases |rows|
  {
    if rows != [] {
      var init := rows[..|rows| - 1];
      ExpandMaskOnly(catId, mode, metricsList, init);
      var row := rows[|rows| - 1];
      if Strip(row.metricName) in metricsList {
        var before := Expand(catId, mode, metricsList, init).value;
        var sel := SelectedRows(metricsList, rows);
        assert sel == SelectedRows(metricsList, init) + [row];
        assert Expand(catId, mode, metricsList, rows).value == before + [ConfigFor(catId, mode, row, "mask")];
      }
    }
  }

  lemma {:induction false} ExpandPairs(catId: string, mode: string, metricsList: seq<string>, rows: seq<ParamRow>)
    requires HasRelabelling(catId) == Success(true)
    ensures var r := Expand(catId, mode, metricsList, rows);
            var sel := SelectedRows(metricsList, rows);
            && r.Success? && |r.value| == 2 * |sel|
            && (forall j :: 0 <= j < |sel| ==> r.value[2 * j] == ConfigFor(catId, mode, sel[j], "mask"))
            && (forall j :: 0 <= j < |sel| ==> r.value[2 * j + 1] == ConfigFor(catId, mode, sel[j], "relabel"))
    decreases |rows|
  {
    if rows != [] {
      var init := rows[..|rows| - 1];
      ExpandPairs(catId, mode, metricsList, init);
      var row := rows[|rows| - 1];
      if Strip(row.metricName) in metricsList {
        var before := Expand(catId, mode, metricsList, init).value;
        var r := Expand(catId, mode, metricsList, rows).value;
        var selInit := SelectedRows(metricsList, init);
        var sel := SelectedRows(metricsList, rows);
        assert sel == selInit + [row];
        assert r == before + [ConfigFor(catId, mode, row, "mask"), ConfigFor(catId, mode, row, "relabel")];
        forall j | 0 <= j < |sel|
          ensures r[2 * j] == ConfigFor(catId, mode, sel[j], "mask")
          ensures r[2 * j + 1] == ConfigFor(catId, mode, sel[j], "relabel")
        {
          if j < |selInit| {
            assert r[2 * j] == before[2 * j] && r[2 * j + 1] == before[2 * j + 1];
          }
        }
      }
    }
  }

  /** Each configuration of the row loop sets only its category's slot. */
  lemma {:induction false} ExpandOnlyModifies(catId: string, mode: string, metricsList: seq<string>, rows: seq<ParamRow>)
    ensures var r := Expand(catId, mode, metricsList, rows);
            r.Success? ==> forall i :: 0 <= i < |r.value| ==> OnlyModifies(r.value[i], catId)
    decreases |rows|
  {
    if rows != [] {
      ExpandOnlyModifies(catId, mode, metricsList, rows[..|rows| - 1]);
      var row := rows[|rows| - 1];
      ConfigOnlyModifies(catId, mode, row, "mask");
      ConfigOnlyModifies(catId, mode, row, "relabel");
    }
  }

  lemma ConfigOnlyModifies(catId: string, mode: string, row: ParamRow, modification: string)
    ensures OnlyModifies(ConfigFor(catId, mode, row, modification), catId)
  {
  }

  /** The row chosen by `only_best` has an F-type containing "f05" and the largest score
      among such rows, and every such row before it has a smaller score; there is none
      iff no F-type contains "f05". */
  lemma {:induction false} BestMeaning(rows: seq<ParamRow>)
    ensures Best(rows).None? <==> forall i :: 0 <= i < |rows| ==> !Contains(rows[i].fType, "f05")
    ensures Best(rows).Some? ==>
              && (forall i :: 0 <= i < |rows| && Contains(rows[i].fType, "f05") ==>
                    rows[i].score <= rows[Best(rows).value].score)
              && (forall i :: 0 <= i < Best(rows).value && Contains(rows[i].fType, "f05") ==>
                    rows[i].score < rows[Best(rows).value].score)
    decreases |rows|
  {
    if rows != [] {
      var init := rows[..|rows| - 1];
      BestMeaning(init);
      assert forall i :: 0 <= i < |init| ==> init[i] == rows[i];
    }
  }

  /** With `only_best`, one or two configurations come from the best row: a mask
      configuration, then a relabel one for categories 2 and 4. Without an f05 row or with
      a category id that is not an integer the expansion fails. */
  lemma OnlyBestMeaning(catId: string, mode: string, metricsList: seq<string>, rows: seq<ParamRow>)
    ensures var r := OutputConfigsOf(catId, mode, metricsList, rows, true);
            && (r.Failure? <==> Best(rows).None? || ParseInt(catId).None?)
            && (r.Success? ==>
                  && 1 <= |r.value| <= 2
                  && r.value[0] == ConfigFor(catId, mode, rows[Best(rows).value], "mask")
                  && (|r.value| == 2 <==> ParseInt(catId) == Some(2) || ParseInt(catId) == Some(4))
                  && (|r.value| == 2 ==> r.value[1] == ConfigFor(catId, mode, rows[Best(rows).value], "relabel")))
  {
  }

  /** The filter of `run`: a configuration is run iff the modification in its category's
      slot is listed in `modifications`. */
  function ToRun(configs: seq<ExperimentConfig>, catId: string, modifications: seq<string>): (r: seq<ExperimentConfig>)
    requires forall i :: 0 <= i < |configs| ==> catId in configs[i].slots && configs[i].slots[catId].Some?
    ensures |r| <= |configs|
  {
    if configs == [] then []
    else
      var c := configs[|configs| - 1];
      ToRun(configs[..|configs| - 1], catId, modifications)
        + (if c.slots[catId].value.modification in modifications then [c] else [])
  }

  /** A configuration runs iff it is one of the produced configurations and the
      modification in its category's slot is listed. */
  lemma {:induction false} ToRunMeaning(configs: seq<ExperimentConfig>, catId: string, modifications: seq<string>)
    requires forall i :: 0 <= i < |configs| ==> catId in configs[i].slots && configs[i].slots[catId].Some?
    ensures forall c :: c in ToRun(configs, catId, modifications) <==>
              c in configs && c.slots[catId].value.modification in modifications
    decreases |configs|
  {
    if configs != [] {
      var init := configs[..|configs| - 1];
      ToRunMeaning(init, catId, modifications);
      assert configs == init + [configs[|configs| - 1]];
    }
  }

  /** A produced configuration of a category 1-4 with an integer epoch gives `main` a
      schedule of exactly that one setting, tagged with the category id, and the category
      id is the experiment's id. */
  lemma ConfigSchedule(catId: string, mode: string, row: ParamRow, modification: string)
    requires catId in CategoryIds && ParseInt(Strip(row.epoch)).Some?
    ensures PlanOf(ConfigFor(catId, mode, row, modification).slots)
            == Success(Plan([Setting(row, modification).(id := catId)], catId))
  {
    var settings := ConfigFor(catId, mode, row, modification).slots;
    var s := Setting(row, modification);
    KeptOnly(settings, CategoryIds, catId, s);
    PlanSingle(settings, catId, s.(id := catId));
  }

  /** The fixed schedules of `get_combined_config`, per mode. Epochs and thresholds are
      the decimal text of the numbers written there. */
  function CombinedSettings(mode: string): (m: map<string, Option<StepConfig>>)
    ensures m.Keys == {"1", "2", "3", "4"}
  {
    if mode == "EE" then
      map[
        "1" := Some(StepConfig("tac", "f05", "mask", "20", "left", "1", "")),
        "2" := Some(StepConfig("tac", "f05", "relabel", "24", "left", "5", "")),
        "3" := None,
        "4" := Some(StepConfig("tac", "f05", "relabel", "6", "left", "4", ""))]
    else
      map[
        "1" := Some(StepConfig("variability", "f05", "mask", "0.15", "right", "9", "")),
        "2" := Some(StepConfig("confidence", "f05", "relabel", "0.4", "left", "2", "")),
        "3" := None,
        "4" := Some(StepConfig("confidence", "f05", "relabel", "0.3", "left", "4", ""))]
  }

  /** The combined schedule never modifies category 3, masks category 1, relabels
      categories 2 and 4, and in early-exit mode uses the metric 'tac' throughout. */
  lemma CombinedMeaning(mode: string)
    ensures var m := CombinedSettings(mode);
            && m["3"].None?
            && m["1"].Some? && m["1"].value.modification == "mask"
            && m["2"].Some? && m["2"].value.modification == "relabel"
            && m["4"].Some? && m["4"].value.modification == "relabel"
            && (mode == "EE" ==> forall k :: k in m && m[k].Some? ==> m[k].value.metric == "tac")
  {
  }
}
