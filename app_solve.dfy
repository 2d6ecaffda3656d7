/**
 * The optimiser page's solver front end (`solve`): the active assets, the
 * means and covariance sub-matrix handed to the wasm `solve_qp`, and the
 * weight map built from its answer; with the largest reachable return,
 * the target-return clamps and the enabled-set reconciliation.
 */
module AppSolve {
  import opened LinAlg
  import opened Market
  import opened Wrappers
  import opened QpAssembly

  // ---------------------------------------------------------------- active assets

  /**
   * Positions among the first k assets whose name is enabled, in period
   * order: `assets.filter(a => enabled.has(a.name))` together with the
   * `indexOf` of each kept asset.
   */
  function ActiveIndices(assets: seq<Asset>, enabled: set<string>, k: nat): (idx: seq<nat>)
    requires k <= |assets|
    ensures StrictlyIncreasing(idx)
    ensures forall t :: 0 <= t < |idx| ==> idx[t] < k && assets[idx[t]].name in enabled
    ensures forall i :: 0 <= i < k && assets[i].name in enabled ==> i in idx
  {
    if k == 0 then []
    else ActiveIndices(assets, enabled, k - 1) + (if assets[k - 1].name in enabled then [k - 1] else [])
  }

  function Active(p: Period, enabled: set<string>): (idx: seq<nat>)
    ensures forall t :: 0 <= t < |idx| ==> idx[t] < |p.assets|
  {
    ActiveIndices(p.assets, enabled, |p.assets|)
  }

  /** `active.map(a => a.return)` */
  function Means(assets: seq<Asset>, idx: seq<nat>): (means: seq<real>)
    requires forall t :: 0 <= t < |idx| ==> idx[t] < |assets|
    ensures |means| == |idx|
    ensures forall t :: 0 <= t < |idx| ==> means[t] == assets[idx[t]].ret
  {
    seq(|idx|, t requires 0 <= t < |idx| => assets[idx[t]].ret)
  }

  /** `active.map(a => a.name)` */
  function ActiveNames(assets: seq<Asset>, idx: seq<nat>): (names: seq<string>)
    requires forall t :: 0 <= t < |idx| ==> idx[t] < |assets|
    ensures |names| == |idx|
    ensures forall t :: 0 <= t < |idx| ==> names[t] == assets[idx[t]].name
  {
    seq(|idx|, t requires 0 <= t < |idx| => assets[idx[t]].name)
  }

  /** subCov[i][j] = cov[orig[i]][orig[j]], by position in the whole period. */
  function SubCov(cov: seq<seq<real>>, idx: seq<nat>): (sub: seq<seq<real>>)
    requires forall t :: 0 <= t < |idx| ==> idx[t] < |cov| && |cov[idx[t]]| == |cov|
    ensures IsSquare(sub, |idx|)
    ensures forall i, j :: 0 <= i < |idx| && 0 <= j < |idx| ==> sub[i][j] == cov[idx[i]][idx[j]]
  {
    seq(|idx|, i requires 0 <= i < |idx| => seq(|idx|, j requires 0 <= j < |idx| => cov[idx[i]][idx[j]]))
  }

  // ---------------------------------------------------------------- the weight map

  /** Math.max(0, x) */
  function Max0(x: real): real
  {
    if x < 0.0 then 0.0 else x
  }

  /** wObj after the first k assignments wObj[names[t]] = Math.max(0, res[t] * 100). */
  function WeightMapTo(names: seq<string>, res: seq<real>, k: nat): (m: Weights)
    requires |names| == |res| && k <= |names|
    ensures m.Keys == set t | 0 <= t < k :: names[t]
    ensures forall key :: key in m ==> m[key] >= 0.0
  {
    if k == 0 then map[]
    else WeightMapTo(names, res, k - 1)[names[k - 1] := Max0(res[k - 1] * 100.0)]
  }

  function WeightMap(names: seq<string>, res: seq<real>): Weights
    requires |names| == |res|
  {
    WeightMapTo(names, res, |names|)
  }

  /** `active.forEach((a, i) => { wObj[a.name] = Math.max(0, res[i] * 100); })` */
  method ToWeightMap(names: seq<string>, res: seq<real>) returns (wObj: Weights)
    requires |names| == |res|
    ensures wObj == WeightMap(names, res)
  {
    wObj := map[];
    for i := 0 to |names|
      invariant wObj == WeightMapTo(names, res, i)
    {
      wObj := wObj[names[i] := Max0(res[i] * 100.0)];
    }
  }

  predicate Distinct(names: seq<string>)
  {
    forall s, t :: 0 <= s < t < |names| ==> names[s] != names[t]
  }

  /** With distinct names, the weight of names[t] is Math.max(0, res[t] * 100). */
  lemma {:induction false} WeightMapToValues(names: seq<string>, res: seq<real>, k: nat)
    requires |names| == |res| && k <= |names| && Distinct(names)
    ensures forall t :: 0 <= t < k ==> WeightMapTo(names, res, k)[names[t]] == Max0(res[t] * 100.0)
  {
    if k > 0 {
      WeightMapToValues(names, res, k - 1);
    }
  }

  /** With distinct names and non-negative entries, the weights total 100 times the entries' sum. */
  lemma {:induction false} WeightMapToSum(names: seq<string>, res: seq<real>, k: nat)
    requires |names| == |res| && k <= |names| && Distinct(names)
    requires forall t :: 0 <= t < |res| ==> res[t] >= 0.0
    ensures MapSum(WeightMapTo(names, res, k)) == SumTo(res, k) * 100.0
  {
    if k > 0 {
      WeightMapToSum(names, res, k - 1);
      var prev := WeightMapTo(names, res, k - 1);
      assert names[k - 1] !in prev;
      MapSumInsert(prev, names[k - 1], res[k - 1] * 100.0);
    }
  }

  // ---------------------------------------------------------------- solve

  /**
   * The wasm `solve`: flatten the covariance row by row (`covMatrix.flat()`)
   * and call solve_qp; a panic inside is caught and gives None.
   */
  function WasmSolve(means: seq<real>, cov: seq<seq<real>>, target: real, clarabel: ClarabelFn): Option<seq<real>>
  {
    SolveQpResult(means, Flatten(cov), target, clarabel)
  }

  /**
   * solve(targetRetPct) as a value: None without a period, before the
   * solver is ready, with no active asset, or when the solver gives
   * nothing; {name: 100} for a single active asset; otherwise the weight
   * map of the solver's answer.
   */
  function SolveResult(data: Option<Period>, ready: bool, enabled: set<string>, clarabel: ClarabelFn, targetPct: real): Option<Weights>
    requires data.Some? ==> ValidPeriod(data.value)
    requires SolutionSized(clarabel)
  {
    if data.None? || !ready then None
    else
      var p := data.value;
      var idx := Active(p, enabled);
      if |idx| == 1 then Some(map[p.assets[idx[0]].name := 100.0])
      else if |idx| == 0 then None
      else
        var means := Means(p.assets, idx);
        match WasmSolve(means, SubCov(p.cov, idx), targetPct / 100.0, clarabel)
        case None => None
        case Some(res) =>
          SolveQpLength(means, Flatten(SubCov(p.cov, idx)), targetPct / 100.0, clarabel);
          Some(WeightMap(ActiveNames(p.assets, idx), res))
  }

  method Solve(data: Option<Period>, ready: bool, enabled: set<string>, clarabel: ClarabelFn, targetPct: real)
    returns (r: Option<Weights>)
    requires data.Some? ==> ValidPeriod(data.value)
    requires SolutionSized(clarabel)
    ensures r == SolveResult(data, ready, enabled, clarabel, targetPct)
  {
    if data.None? || !ready {
      return None;
    }
    var p := data.value;
    var idx := Active(p, enabled);
    if |idx| == 1 {
      return Some(map[p.assets[idx[0]].name := 100.0]);
    }
    if |idx| == 0 {
      return None;
    }
    var means := Means(p.assets, idx);
    var subCov := SubCov(p.cov, idx);
    var res := SolveQp(means, Flatten(subCov), targetPct / 100.0, clarabel);
    if res.None? {
      return None;
    }
    SolveQpLength(means, Flatten(subCov), targetPct / 100.0, clarabel);
    var wObj := ToWeightMap(ActiveNames(p.assets, idx), res.value);
    r := Some(wObj);
  }

  /**
   * The outcomes of solve: None exactly without a period, before the
   * solver is ready, with no active asset, or when the solver gives
   * nothing; a single active asset gets 100; otherwise the keys are
   * exactly the active names and every weight is non-negative.
   */
  lemma SolveOutcome(data: Option<Period>, ready: bool, enabled: set<string>, clarabel: ClarabelFn, targetPct: real)
    requires data.Some? ==> ValidPeriod(data.value)
    requires SolutionSized(clarabel)
    ensures var r := SolveResult(data, ready, enabled, clarabel, targetPct);
      && (r.None? <==>
          || data.None? || !ready
          || |Active(data.value, enabled)| == 0
          || (|Active(data.value, enabled)| >= 2 &&
              WasmSolve(Means(data.value.assets, Active(data.value, enabled)),
                        SubCov(data.value.cov, Active(data.value, enabled)), targetPct / 100.0, clarabel).None?))
      && (data.Some? && ready && |Active(data.value, enabled)| == 1 ==>
          r == Some(map[data.value.assets[Active(data.value, enabled)[0]].name := 100.0]))
      && (r.Some? ==>
          && r.value.Keys == (set t | 0 <= t < |Active(data.value, enabled)| :: data.value.assets[Active(data.value, enabled)[t]].name)
          && forall key :: key in r.value ==> r.value[key] >= 0.0)
  {
    var r := SolveResult(data, ready, enabled, clarabel, targetPct);
    if r.Some? {
      var p := data.value;
      var idx := Active(p, enabled);
      var names := ActiveNames(p.assets, idx);
      if |idx| >= 2 {
        assert (set t | 0 <= t < |idx| :: names[t]) == (set t | 0 <= t < |idx| :: p.assets[idx[t]].name);
      } else {
        assert |idx| == 1;
        assert (set t | 0 <= t < |idx| :: p.assets[idx[t]].name) == {p.assets[idx[0]].name};
      }
    }
  }

  /**
   * A solver answer that sums to 1 with no negative entry survives the
   * flooring at 0 unchanged: names[t] gets res[t] * 100, and the weights
   * total 100.
   */
  lemma FeasibleWeightMap(names: seq<string>, res: seq<real>)
    requires |names| == |res| && Distinct(names)
    requires Sum(res) == 1.0 && forall t :: 0 <= t < |res| ==> res[t] >= 0.0
    ensures forall t :: 0 <= t < |names| ==> WeightMap(names, res)[names[t]] == res[t] * 100.0
    ensures MapSum(WeightMap(names, res)) == 100.0
  {
    WeightMapToValues(names, res, |names|);
    WeightMapToSum(names, res, |names|);
  }

  /** In a period with distinct names, the active names are distinct. */
  lemma ActiveNamesDistinct(p: Period, enabled: set<string>)
    requires UniqueNames(p.assets)
    ensures Distinct(ActiveNames(p.assets, Active(p, enabled)))
  {
    var idx := Active(p, enabled);
    var names := ActiveNames(p.assets, idx);
    forall s, t | 0 <= s < t < |names|
      ensures names[s] != names[t]
    {
      assert idx[s] < idx[t];
    }
  }

  /**
   * When the solver's answer satisfies the constraints solve_qp sets up
   * (ConstraintsMeaning: the weights sum to 1 and none is negative), solve
   * gives each active asset its solver weight times 100, and the weights
   * total 100.
   */
  lemma FeasibleSolveTotals100(p: Period, enabled: set<string>, clarabel: ClarabelFn, targetPct: real, res: seq<real>)
    requires ValidPeriod(p) && UniqueNames(p.assets) && SolutionSized(clarabel)
    requires |Active(p, enabled)| >= 2
    requires WasmSolve(Means(p.assets, Active(p, enabled)), SubCov(p.cov, Active(p, enabled)), targetPct / 100.0, clarabel) == Some(res)
    requires Sum(res) == 1.0 && forall t :: 0 <= t < |res| ==> res[t] >= 0.0
    ensures var idx := Active(p, enabled);
      var r := SolveResult(Some(p), true, enabled, clarabel, targetPct);
      && r.Some?
      && (forall t :: 0 <= t < |idx| ==> r.value[p.assets[idx[t]].name] == res[t] * 100.0)
      && MapSum(r.value) == 100.0
  {
    var idx := Active(p, enabled);
    var means := Means(p.assets, idx);
    var names := ActiveNames(p.assets, idx);
    SolveQpLength(means, Flatten(SubCov(p.cov, idx)), targetPct / 100.0, clarabel);
    assert SolveResult(Some(p), true, enabled, clarabel, targetPct) == Some(WeightMap(names, res));
    ActiveNamesDistinct(p, enabled);
    FeasibleWeightMap(names, res);
  }

  // ---------------------------------------------------------------- the target return

  /**
   * maxAchievableReturn: 100 without a period or with nothing enabled, 0
   * when no enabled name is in the period, otherwise the largest active
   * return in percent.
   */
  function MaxAchievableReturn(data: Option<Period>, enabled: set<string>): real
  {
    if data.None? || enabled == {} then 100.0
    else
      var idx := Active(data.value, enabled);
      if |idx| == 0 then 0.0 else MaxOf(Means(data.value.assets, idx)) * 100.0
  }

  lemma MaxAchievableReturnMeaning(data: Option<Period>, enabled: set<string>)
    ensures data.None? || enabled == {} ==> MaxAchievableReturn(data, enabled) == 100.0
    ensures data.Some? && enabled != {} ==>
      var assets := data.value.assets;
      var r := MaxAchievableReturn(data, enabled);
      && ((forall i :: 0 <= i < |assets| ==> assets[i].name !in enabled) ==> r == 0.0)
      && (forall i :: 0 <= i < |assets| && assets[i].name in enabled ==> assets[i].ret * 100.0 <= r)
      && ((exists i :: 0 <= i < |assets| && assets[i].name in enabled) ==>
            exists i :: 0 <= i < |assets| && assets[i].name in enabled && r == assets[i].ret * 100.0)
  {
    if data.Some? && enabled != {} {
      var assets := data.value.assets;
      var idx := Active(data.value, enabled);
      if |idx| > 0 {
        var means := Means(assets, idx);
        var top := MaxOf(means);
        forall i | 0 <= i < |assets| && assets[i].name in enabled
          ensures assets[i].ret * 100.0 <= top * 100.0
        {
          var t :| 0 <= t < |idx| && idx[t] == i;
          assert means[t] == assets[i].ret;
        }
        var t :| 0 <= t < |means| && means[t] == top;
        assert assets[idx[t]].name in enabled && assets[idx[t]].ret * 100.0 == top * 100.0;
      }
    }
  }

  /**
   * handleReturnChange: a NaN input (None) leaves the target as it is;
   * otherwise the input is raised to 0 and then lowered to the maximum.
   */
  function ReturnInput(value: Option<real>, current: real, maxR: real): (r: real)
    ensures value.None? ==> r == current
    ensures value.Some? && 0.0 <= maxR ==> 0.0 <= r <= maxR
    ensures value.Some? && 0.0 <= value.value <= maxR ==> r == value.value
    ensures value.Some? && maxR < 0.0 ==> r == maxR
    ensures value.Some? && value.value < 0.0 && 0.0 <= maxR ==> r == 0.0
    ensures value.Some? && value.value > maxR ==> r == maxR
  {
    match value
    case None => current
    case Some(v) =>
      var atLeastZero := if v < 0.0 then 0.0 else v;
      if atLeastZero > maxR then maxR else atLeastZero
  }

  /** Entering a value that was already clamped changes nothing. */
  lemma ReturnInputIdempotent(v: real, current: real, current': real, maxR: real)
    ensures var once := ReturnInput(Some(v), current, maxR);
      ReturnInput(Some(once), current', maxR) == once
  {
  }

  /** x * 10 rounded down, over 10: Math.floor(x * 10) / 10. */
  function FloorTenth(x: real): (r: real)
    ensures r <= x < r + 0.1
  {
    ((x * 10.0).Floor as real) / 10.0
  }

  /** Math.ceil(x * 10) / 10, with Math.ceil(y) = -Math.floor(-y). */
  function CeilTenth(x: real): (r: real)
    ensures x <= r < x + 0.1
  {
    (-((-(x * 10.0)).Floor) as real) / 10.0
  }

  /**
   * The clamp run when the maximum changes: a target above the maximum
   * becomes floor(max * 10) / 10, at most the maximum; any other target stays.
   */
  function ClampToMax(target: real, maxR: real): (r: real)
    ensures target <= maxR ==> r == target
    ensures target > maxR ==> maxR - 0.1 < r <= maxR
  {
    if target > maxR then FloorTenth(maxR) else target
  }

  /**
   * The clamp run when the minimum efficient return changes: when that
   * return is positive, a target below it becomes ceil(min * 10) / 10, at
   * least the minimum; any other target stays.
   */
  function ClampToMinEfficient(target: real, minEff: real): (r: real)
    ensures minEff > 0.0 && target < minEff ==> minEff <= r < minEff + 0.1
    ensures !(minEff > 0.0 && target < minEff) ==> r == target
  {
    if minEff > 0.0 && target < minEff then CeilTenth(minEff) else target
  }

  // ---------------------------------------------------------------- the enabled set

  /**
   * The enabled set after a period change: with nothing enabled, every
   * name of the period; otherwise the enabled names still in the period,
   * or every name of the period if none is.
   */
  function SyncEnabled(available: set<string>, enabled: set<string>): (r: set<string>)
    ensures enabled * available != {} ==> r == enabled * available
    ensures enabled * available == {} ==> r == available
  {
    if enabled == {} then available
    else
      var next := enabled * available;
      if next == {} then available else next
  }

  /**
   * The effect as a whole: without a period the set is left as it is.
   * With one, the result names only assets of the period and is empty
   * only when the period has no assets.
   */
  function SyncEnabledFor(data: Option<Period>, enabled: set<string>): (r: set<string>)
    ensures data.None? ==> r == enabled
    ensures data.Some? ==> r <= Names(data.value.assets)
    ensures data.Some? ==> (r == {} <==> |data.value.assets| == 0)
  {
    match data
    case None => enabled
    case Some(p) =>
      assert |p.assets| > 0 ==> p.assets[0].name in Names(p.assets);
      SyncEnabled(Names(p.assets), enabled)
  }

  /** Reconciling twice is reconciling once. */
  lemma SyncEnabledIdempotent(data: Option<Period>, enabled: set<string>)
    ensures SyncEnabledFor(data, SyncEnabledFor(data, enabled)) == SyncEnabledFor(data, enabled)
  {
    if data.Some? {
      var avail := Names(data.value.assets);
      var once := SyncEnabled(avail, enabled);
      assert once * avail == once;
    }
  }

  /** `enabledAssets.forEach(name => { if (availableNames.has(name)) nextSet.add(name); })` */
  method KeepAvailable(enabled: set<string>, available: set<string>) returns (next: set<string>)
    ensures next == enabled * available
  {
    next := {};
    var todo := enabled;
    while todo != {}
      invariant todo <= enabled
      invariant next == (enabled - todo) * available
      decreases |todo|
    {
      var name :| name in todo;
      if name in available {
        next := next + {name};
      }
      todo := todo - {name};
    }
  }

  /** The reconciliation effect, with its loop. */
  method Reconcile(data: Option<Period>, enabled: set<string>) returns (r: set<string>)
    ensures r == SyncEnabledFor(data, enabled)
  {
    if data.None? {
      return enabled;
    }
    var available := Names(data.value.assets);
    if enabled == {} {
      return available;
    }
    var next := KeepAvailable(enabled, available);
    if next == {} {
      next := available;
    }
    r := next;
  }
}
