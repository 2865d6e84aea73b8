/** The experiment schedule assembled in `main` and the data paths of `get_data_paths`
    (pipeline_sample_metrics_token_categories.py). */
module Schedule {
  import opened Wrappers
  import opened Strings

  /** One `modify_category<id>` setting, with the `id` entry `main` adds to it. The
      placeholder of an empty schedule has no id; it is the empty string here. */
  datatype StepConfig = StepConfig(
    metric: string,
    fType: string,
    modification: string,
    threshold: string,
    direction: string,
    epochChange: string,
    id: string)

  /** The category ids in the order `main` visits them. */
  const CategoryIds: seq<string> := ["1", "2", "3", "4"]

  /** The placeholder `category_config_empty`. */
  const Placeholder: StepConfig := StepConfig("", "", "", "", "", "", "")

  /** The enabled settings among `ids`, in order, each tagged with its id. The settings map
      a category id to its `modify_category<id>` value, `None` standing for `False`; a
      missing id raises `KeyError`. */
  function KeptConfigs(settings: map<string, Option<StepConfig>>, ids: seq<string>)
    : (r: Result<(seq<string>, seq<StepConfig>)>)
    ensures r.Success? ==> |r.value.0| == |r.value.1| <= |ids|
  {
    if ids == [] then Success(([], []))
    else
      var before := KeptConfigs(settings, ids[..|ids| - 1]);
      var id := ids[|ids| - 1];
      if before.Failure? then before
      else if id !in settings then Failure(KeyError("modify_category" + id))
      else if settings[id].None? then before
      else Success((before.value.0 + [id], before.value.1 + [settings[id].value.(id := id)]))
  }

  ghost predicate Distinct(s: seq<string>) {
    forall i, j :: 0 <= i < j < |s| ==> s[i] != s[j]
  }

  /** The filter keeps exactly the enabled ids, in visiting order, and pairs each with its
      own setting; it fails iff some id has no setting. */
  lemma KeptMeaning(settings: map<string, Option<StepConfig>>, ids: seq<string>)
    ensures var r := KeptConfigs(settings, ids);
            && (r.Success? <==> forall i :: 0 <= i < |ids| ==> ids[i] in settings)
            && (r.Success? ==>
                  && (forall i :: 0 <= i < |r.value.0| ==>
                        && r.value.0[i] in ids && settings[r.value.0[i]].Some?
                        && r.value.1[i] == settings[r.value.0[i]].value.(id := r.value.0[i]))
                  && (forall id :: id in ids && settings[id].Some? ==> id in r.value.0)
                  && (Distinct(ids) ==> Distinct(r.value.0)))
  {
    KeptSucceeds(settings, ids);
    KeptPairs(settings, ids);
    KeptComplete(settings, ids);
    KeptDistinct(settings, ids);
  }

  lemma {:induction false} KeptSucceeds(settings: map<string, Option<StepConfig>>, ids: seq<string>)
    ensures KeptConfigs(settings, ids).Success? <==> forall i :: 0 <= i < |ids| ==> ids[i] in settings
    decreases |ids|
  {
    if ids != [] {
      var init := ids[..|ids| - 1];
      KeptSucceeds(settings, init);
      if KeptConfigs(settings, init).Success? && ids[|ids| - 1] in settings {
        forall i | 0 <= i < |ids| ensures ids[i] in settings {
          if i < |init| {
            assert ids[i] == init[i];
          }
        }
      } else if KeptConfigs(settings, init).Failure? {
        var k :| 0 <= k < |init| && init[k] !in settings;
        assert ids[k] !in settings;
      }
    }
  }

  lemma {:induction false} KeptPairs(settings: map<string, Option<StepConfig>>, ids: seq<string>)
    ensures var r := KeptConfigs(settings, ids);
            r.Success? ==>
              forall i :: 0 <= i < |r.value.0| ==>
                && r.value.0[i] in ids && r.value.0[i] in settings && settings[r.value.0[i]].Some?
                && r.value.1[i] == settings[r.value.0[i]].value.(id := r.value.0[i])
    decreases |ids|
  {
    if ids != [] {
      var init := ids[..|ids| - 1];
      KeptPairs(settings, init);
      var r := KeptConfigs(settings, ids);
      if r.Success? {
        forall i | 0 <= i < |r.value.0| ensures r.value.0[i] in ids {
          if i < |KeptConfigs(settings, init).value.0| {
            var k :| 0 <= k < |init| && init[k] == r.value.0[i];
            assert ids[k] == init[k];
          }
        }
      }
    }
  }

  lemma {:induction false} KeptComplete(settings: map<string, Option<StepConfig>>, ids: seq<string>)
    ensures var r := KeptConfigs(settings, ids);
            r.Success? ==> forall id :: id in ids && id in settings && settings[id].Some? ==> id in r.value.0
    decreases |ids|
  {
    if ids != [] {
      var init := ids[..|ids| - 1];
      KeptComplete(settings, init);
      var r := KeptConfigs(settings, ids);
      if r.Success? {
        forall id | id in ids && id in settings && settings[id].Some? ensures id in r.value.0 {
          if id != ids[|ids| - 1] {
            var k :| 0 <= k < |ids| && ids[k] == id;
            assert init[k] == id;
          }
        }
      }
    }
  }

  lemma {:induction false} KeptDistinct(settings: map<string, Option<StepConfig>>, ids: seq<string>)
    ensures var r := KeptConfigs(settings, ids);
            r.Success? && Distinct(ids) ==> Distinct(r.value.0)
    decreases |ids|
  {
    if ids != [] {
      var init := ids[..|ids| - 1];
      var r := KeptConfigs(settings, ids);
      if r.Success? && Distinct(ids) {
        assert Distinct(init);
        KeptDistinct(settings, init);
        KeptPairs(settings, init);
        assert ids[|ids| - 1] !in init;
      }
    }
  }

  /** Once the filter fails on a prefix of the ids, it fails with the same error. */
  lemma {:induction false} KeptPrefixFails(settings: map<string, Option<StepConfig>>, ids: seq<string>, n: nat)
    requires n <= |ids| && KeptConfigs(settings, ids[..n]).Failure?
    ensures KeptConfigs(settings, ids) == KeptConfigs(settings, ids[..n])
    decreases |ids| - n
  {
    if n < |ids| {
      assert ids[..n + 1][..n] == ids[..n];
      KeptPrefixFails(settings, ids, n + 1);
    } else {
      assert ids[..n] == ids;
    }
  }

  /** When a single category is enabled, the filter keeps just that one. */
  lemma {:induction false} KeptOnly(settings: map<string, Option<StepConfig>>, ids: seq<string>, id: string, x: StepConfig)
    requires forall i :: 0 <= i < |ids| ==> ids[i] in settings
    requires forall k :: k in settings && k != id ==> settings[k].None?
    requires id in settings && settings[id] == Some(x)
    requires Distinct(ids)
    ensures KeptConfigs(settings, ids) == Success(if id in ids then ([id], [x.(id := id)]) else ([], []))
    decreases |ids|
  {
    if ids != [] {
      var init := ids[..|ids| - 1];
      var last := ids[|ids| - 1];
      assert Distinct(init);
      KeptOnly(settings, init, id, x);
      assert ids == init + [last];
      assert id in ids <==> id in init || id == last;
      if id == last {
        assert id !in init;
        assert KeptConfigs(settings, init) == Success(([], []));
        var before := KeptConfigs(settings, init).value;
        assert before.0 + [id] == [id];
        assert before.1 + [x.(id := id)] == [x.(id := id)];
        assert KeptConfigs(settings, ids) == Success((before.0 + [id], before.1 + [x.(id := id)]));
      } else {
        assert settings[last].None?;
      }
    }
  }

  /** A schedule entry with its sort key `int(epoch_change)`. */
  type Keyed = (int, StepConfig)

  /** `int(x['epoch_change'])` for every entry; `sorted` computes every key, so one that
      is not an integer raises `ValueError`. */
  function EpochKeys(configs: seq<StepConfig>): (r: Result<seq<Keyed>>)
    ensures r.Success? <==> forall i :: 0 <= i < |configs| ==> ParseInt(configs[i].epochChange).Some?
    ensures r.Success? ==>
              && |r.value| == |configs|
              && forall i :: 0 <= i < |configs| ==>
                   r.value[i] == (ParseInt(configs[i].epochChange).value, configs[i])
  {
    if configs == [] then Success([])
    else
      var key := ParseInt(configs[0].epochChange);
      var rest := EpochKeys(configs[1..]);
      if key.None? then Failure(ValueError)
      else if rest.Failure? then rest
      else Success([(key.value, configs[0])] + rest.value)
  }

  /** Inserts `x` after every entry whose key is at most its own, scanning from the end. */
  function InsertLast(sorted: seq<Keyed>, x: Keyed): (r: seq<Keyed>)
    ensures |r| == |sorted| + 1
  {
    if sorted == [] || sorted[|sorted| - 1].0 <= x.0 then sorted + [x]
    else InsertLast(sorted[..|sorted| - 1], x) + [sorted[|sorted| - 1]]
  }

  /** A stable sort by key, as `sorted(..., key=...)` performs it: insertion of each entry
      in input order. */
  function SortByKey(s: seq<Keyed>): (r: seq<Keyed>)
    ensures |r| == |s|
  {
    if s == [] then [] else InsertLast(SortByKey(s[..|s| - 1]), s[|s| - 1])
  }

  ghost predicate SortedByKey(s: seq<Keyed>) {
    forall i, j :: 0 <= i < j < |s| ==> s[i].0 <= s[j].0
  }

  /** The entries with key `k`, in order. */
  function WithKey(s: seq<Keyed>, k: int): seq<Keyed> {
    if s == [] then []
    else WithKey(s[..|s| - 1], k) + (if s[|s| - 1].0 == k then [s[|s| - 1]] else [])
  }

  lemma {:induction false} WithKeyAppend(a: seq<Keyed>, b: seq<Keyed>, k: int)
    ensures WithKey(a + b, k) == WithKey(a, k) + WithKey(b, k)
    decreases |b|
  {
    if b == [] {
      assert a + b == a;
    } else {
      assert (a + b)[..|a + b| - 1] == a + b[..|b| - 1];
      WithKeyAppend(a, b[..|b| - 1], k);
    }
  }

  lemma {:induction false} InsertLastMultiset(sorted: seq<Keyed>, x: Keyed)
    ensures multiset(InsertLast(sorted, x)) == multiset(sorted) + multiset{x}
    decreases |sorted|
  {
    if !(sorted == [] || sorted[|sorted| - 1].0 <= x.0) {
      var init := sorted[..|sorted| - 1];
      InsertLastMultiset(init, x);
      assert sorted == init + [sorted[|sorted| - 1]];
    }
  }

  lemma {:induction false} InsertLastSorted(sorted: seq<Keyed>, x: Keyed)
    requires SortedByKey(sorted)
    ensures SortedByKey(InsertLast(sorted, x))
    decreases |sorted|
  {
    if !(sorted == [] || sorted[|sorted| - 1].0 <= x.0) {
      var init := sorted[..|sorted| - 1];
      var last := sorted[|sorted| - 1];
      InsertLastSorted(init, x);
      InsertLastMultiset(init, x);
      var r := InsertLast(init, x);
      forall i | 0 <= i < |r| ensures r[i].0 <= last.0 {
        assert r[i] in multiset(r);
        if r[i] != x {
          assert r[i] in multiset(init);
          var k :| 0 <= k < |init| && init[k] == r[i];
          assert sorted[k] == r[i];
        }
      }
    }
  }

  lemma {:induction false} InsertLastStable(sorted: seq<Keyed>, x: Keyed, k: int)
    ensures WithKey(InsertLast(sorted, x), k) == WithKey(sorted, k) + (if x.0 == k then [x] else [])
    decreases |sorted|
  {
    if sorted == [] || sorted[|sorted| - 1].0 <= x.0 {
      WithKeyAppend(sorted, [x], k);
      assert [x][..0] == [];
    } else {
      var init := sorted[..|sorted| - 1];
      var last := sorted[|sorted| - 1];
      InsertLastStable(init, x, k);
      WithKeyAppend(InsertLast(init, x), [last], k);
      assert [last][..0] == [];
      assert [x][..0] == [];
    }
  }

  /** `sorted` by key gives an ordering by key that is a permutation of its input and keeps
      entries with equal keys in their input order. */
  lemma {:induction false} SortByKeyMeaning(s: seq<Keyed>)
    ensures SortedByKey(SortByKey(s))
    ensures multiset(SortByKey(s)) == multiset(s)
    ensures forall k :: WithKey(SortByKey(s), k) == WithKey(s, k)
    decreases |s|
  {
    if s != [] {
      var init := s[..|s| - 1];
      SortByKeyMeaning(init);
      InsertLastSorted(SortByKey(init), s[|s| - 1]);
      InsertLastMultiset(SortByKey(init), s[|s| - 1]);
      assert s == init + [s[|s| - 1]];
      forall k ensures WithKey(SortByKey(s), k) == WithKey(s, k) {
        InsertLastStable(SortByKey(init), s[|s| - 1], k);
      }
    }
  }

  /** The schedule `main` runs: the category configs in epoch order, and the category id
      of the experiment path. */
  datatype Plan = Plan(configs: seq<StepConfig>, categoryId: string)

  function Seconds(s: seq<Keyed>): (r: seq<StepConfig>)
    ensures |r| == |s| && forall i :: 0 <= i < |s| ==> r[i] == s[i].1
  {
    seq(|s|, i requires 0 <= i < |s| => s[i].1)
  }

  /** The schedule of a settings map: the filter, the stable sort, the placeholder and the
      joined id. */
  function PlanOf(settings: map<string, Option<StepConfig>>): Result<Plan> {
    var kept := KeptConfigs(settings, CategoryIds);
    if kept.Failure? then Failure(kept.error)
    else
      var keyed := EpochKeys(kept.value.1);
      if keyed.Failure? then Failure(keyed.error)
      else
        var configs := Seconds(SortByKey(keyed.value));
        Success(Plan(if configs == [] then [Placeholder] else configs,
                     if kept.value.0 == [] then "0" else Concat(kept.value.0)))
  }

  /** Schedule assembly in `main`: the loop over the four category ids keeps the enabled
      settings, tagged with their ids, and then sorts them by epoch. */
  method BuildPlan(settings: map<string, Option<StepConfig>>) returns (r: Result<Plan>)
    ensures r == PlanOf(settings)
  {
    var categoryConfigs: seq<StepConfig> := [];
    var categoryIds: seq<string> := [];
    for n := 0 to |CategoryIds|
      invariant KeptConfigs(settings, CategoryIds[..n]) == Success((categoryIds, categoryConfigs))
    {
      var catId := CategoryIds[n];
      assert CategoryIds[..n + 1][..n] == CategoryIds[..n];
      if catId !in settings {
        KeptPrefixFails(settings, CategoryIds, n + 1);
        return Failure(KeyError("modify_category" + catId));
      }
      var categoryConfig := settings[catId];
      if categoryConfig.Some? {
        categoryIds := categoryIds + [catId];
        categoryConfigs := categoryConfigs + [categoryConfig.value.(id := catId)];
      }
    }
    assert CategoryIds[..|CategoryIds|] == CategoryIds;
    var keyed := EpochKeys(categoryConfigs);
    if keyed.Failure? {
      return Failure(keyed.error);
    }
    var sorted := Seconds(SortByKey(keyed.value));
    if |sorted| == 0 {
      sorted := sorted + [Placeholder];
    }
    var categoryId := if |categoryIds| > 0 then Concat(categoryIds) else "0";
    r := Success(Plan(sorted, categoryId));
    assert KeptConfigs(settings, CategoryIds) == Success((categoryIds, categoryConfigs));
    assert sorted == (if Seconds(SortByKey(keyed.value)) == [] then [Placeholder] else Seconds(SortByKey(keyed.value)));
  }

  /** A schedule with a single enabled category runs just that category's config. */
  lemma PlanSingle(settings: map<string, Option<StepConfig>>, id: string, c: StepConfig)
    requires KeptConfigs(settings, CategoryIds) == Success(([id], [c]))
    requires ParseInt(c.epochChange).Some?
    ensures PlanOf(settings) == Success(Plan([c], id))
  {
    var k := ParseInt(c.epochChange).value;
    assert [c][1..] == [];
    var keyed := EpochKeys([c]);
    assert keyed.value[0] == (k, c);
    assert keyed.value == [(k, c)];
    assert SortByKey([(k, c)]) == [(k, c)];
    assert Seconds([(k, c)]) == [c];
    assert [id][1..] == [];
    assert Concat([id]) == id + "" == id;
  }

  /** Each sorted entry carries the parsed epoch of its config as its key. */
  lemma SortedKeysParse(configs: seq<StepConfig>)
    requires EpochKeys(configs).Success?
    ensures var sorted := SortByKey(EpochKeys(configs).value);
            forall i :: 0 <= i < |sorted| ==> ParseInt(sorted[i].1.epochChange) == Some(sorted[i].0)
  {
    var keyed := EpochKeys(configs).value;
    var sorted := SortByKey(keyed);
    SortByKeyMeaning(keyed);
    forall i | 0 <= i < |sorted| ensures ParseInt(sorted[i].1.epochChange) == Some(sorted[i].0) {
      assert sorted[i] in multiset(keyed);
      var k :| 0 <= k < |keyed| && keyed[k] == sorted[i];
    }
  }

  /** The schedule is only the placeholder, with id "0", when no category is enabled;
      otherwise its id is the enabled ids joined in increasing order. */
  lemma PlanIds(settings: map<string, Option<StepConfig>>)
    requires PlanOf(settings).Success?
    ensures var kept := KeptConfigs(settings, CategoryIds).value;
            var plan := PlanOf(settings).value;
            && (kept.0 == [] <==> plan.categoryId == "0")
            && (kept.0 == [] ==> plan.configs == [Placeholder])
            && (kept.0 != [] ==> plan.categoryId == Concat(kept.0))
  {
    var kept := KeptConfigs(settings, CategoryIds).value;
    if kept.0 != [] {
      KeptMeaning(settings, CategoryIds);
      var first := kept.0[0];
      assert first in CategoryIds;
      assert first != [] && first[0] != '0';
      var rest := Concat(kept.0[1..]);
      assert Concat(kept.0) == first + rest;
      assert (first + rest)[0] == first[0];
    }
  }

  /** With some category enabled, the schedule runs every enabled config once, in order of
      epoch, enabled configs with equal epochs in id order. Each config's parsed epoch is
      its sort key, so the last config has the largest epoch, which `main` uses as the
      baseline's epoch count. */
  lemma PlanOrder(settings: map<string, Option<StepConfig>>)
    requires PlanOf(settings).Success? && KeptConfigs(settings, CategoryIds).value.0 != []
    ensures var kept := KeptConfigs(settings, CategoryIds).value;
            var keyed := EpochKeys(kept.1).value;
            var plan := PlanOf(settings).value;
            && plan.configs == Seconds(SortByKey(keyed))
            && SortedByKey(SortByKey(keyed))
            && multiset(SortByKey(keyed)) == multiset(keyed)
            && (forall k :: WithKey(SortByKey(keyed), k) == WithKey(keyed, k))
            && (forall i :: 0 <= i < |plan.configs| ==>
                  ParseInt(plan.configs[i].epochChange) == Some(SortByKey(keyed)[i].0))
            && forall i :: 0 <= i < |plan.configs| ==>
                 SortByKey(keyed)[i].0 <= SortByKey(keyed)[|plan.configs| - 1].0
  {
    var kept := KeptConfigs(settings, CategoryIds).value;
    SortByKeyMeaning(EpochKeys(kept.1).value);
    SortedKeysParse(kept.1);
  }

  /** The enabled categories are among the four, each at most once, with its own setting. */
  lemma KeptCategories(settings: map<string, Option<StepConfig>>)
    requires KeptConfigs(settings, CategoryIds).Success?
    ensures var kept := KeptConfigs(settings, CategoryIds).value;
            && Distinct(kept.0)
            && (forall i :: 0 <= i < |kept.0| ==>
                  kept.0[i] in CategoryIds && kept.1[i].id == kept.0[i])
            && forall id :: id in CategoryIds ==> id in settings && (settings[id].Some? ==> id in kept.0)
  {
    KeptMeaning(settings, CategoryIds);
  }

  /** The three data file names of `get_data_paths`. */
  datatype DataPaths = DataPaths(train: string, dev: string, test: string)

  /** `get_data_paths`: the training file is always per corpus; a dev or test extension
      containing "clean" names a file shared by all corpora (see `DataPathsShape`). */
  function GetDataPaths(dataPath: string, corpusName: string,
                        trainExtension: string, devExtension: string, testExtension: string)
    : (paths: DataPaths)
  {
    DataPaths(
      dataPath + corpusName + trainExtension,
      if Contains(devExtension, "clean") then dataPath + devExtension
      else dataPath + corpusName + devExtension,
      if Contains(testExtension, "clean") then dataPath + testExtension
      else dataPath + corpusName + testExtension)
  }

  /** Every path starts with the data path and ends with its extension; a path with an
      extension containing "clean" is the same for every corpus, and every other path
      differs between corpora. */
  lemma DataPathsShape(dataPath: string, c1: string, c2: string, tr: string, dv: string, ts: string)
    ensures var p := GetDataPaths(dataPath, c1, tr, dv, ts);
            && StartsWith(p.train, dataPath) && EndsWith(p.train, tr)
            && StartsWith(p.dev, dataPath) && EndsWith(p.dev, dv)
            && StartsWith(p.test, dataPath) && EndsWith(p.test, ts)
    ensures var p, q := GetDataPaths(dataPath, c1, tr, dv, ts), GetDataPaths(dataPath, c2, tr, dv, ts);
            && (p.train == q.train <==> c1 == c2)
            && (Contains(dv, "clean") ==> p.dev == q.dev)
            && (!Contains(dv, "clean") ==> (p.dev == q.dev <==> c1 == c2))
            && (Contains(ts, "clean") ==> p.test == q.test)
            && (!Contains(ts, "clean") ==> (p.test == q.test <==> c1 == c2))
  {
    var p, q := GetDataPaths(dataPath, c1, tr, dv, ts), GetDataPaths(dataPath, c2, tr, dv, ts);
    assert (dataPath + c1 + tr)[..|dataPath|] == dataPath;
    assert (dataPath + c1 + dv)[..|dataPath|] == dataPath;
    assert (dataPath + c1 + ts)[..|dataPath|] == dataPath;
    assert (dataPath + dv)[..|dataPath|] == dataPath;
    assert (dataPath + ts)[..|dataPath|] == dataPath;
    MiddleDetermines(dataPath, c1, c2, tr);
    MiddleDetermines(dataPath, c1, c2, dv);
    MiddleDetermines(dataPath, c1, c2, ts);
  }

  /** `a + x + b == a + y + b` iff `x == y`. */
  lemma MiddleDetermines(a: string, x: string, y: string, b: string)
    ensures a + x + b == a + y + b <==> x == y
  {
    if a + x + b == a + y + b {
      assert |x| == |y|;
      assert x == (a + x + b)[|a|..|a| + |x|];
      assert y == (a + y + b)[|a|..|a| + |y|];
    }
  }
}
