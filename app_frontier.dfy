/**
 * The optimiser page's efficient frontier: solve for evenly spaced target
 * returns between the smallest and largest active return, keep the points
 * at or above the minimum-risk point, and pick the maximum-Sharpe return.
 */
module AppFrontier {
  import opened LinAlg
  import opened Market
  import opened Wrappers
  import opened QpAssembly
  import opened AppStats
  import opened AppSolve

  /** The frontier's step is (maxR - minR) / 60, so the targets are samples 0 .. 60. */
  const Intervals: nat := 60

  /** Only points whose risk exceeds 0.01% compete for the maximum Sharpe ratio. */
  const SharpeRiskFloor: real := 0.01

  /** Everything the frontier memo reads: the period, readiness, the enabled set and the two oracles. */
  datatype Env = Env(data: Option<Period>, ready: bool, enabled: set<string>, clarabel: ClarabelFn, sqrt: SqrtFn)

  ghost predicate EnvOk(e: Env)
  {
    (e.data.Some? ==> ValidPeriod(e.data.value)) && SolutionSized(e.clarabel)
  }

  datatype Frontier = Frontier(points: seq<Point>, minEfficientReturn: real, maxSharpeReturn: real)

  /** The distance between consecutive targets. */
  function Step(minR: real, maxR: real): real
  {
    (maxR - minR) / (Intervals as real)
  }

  /** The loop variable r after k rounds: it starts at minR and grows by step each round. */
  function Target(minR: real, step: real, k: nat): real
  {
    if k == 0 then minR else Target(minR, step, k - 1) + step
  }

  /** The point for one target: the stats of solve's weights, or None when solve gives null. */
  function SamplePoint(e: Env, target: real): Option<Point>
    requires EnvOk(e)
  {
    match SolveResult(e.data, e.ready, e.enabled, e.clarabel, target)
    case None => None
    case Some(w) =>
      var s := PortfolioStats(e.data, w, e.sqrt);
      Some(Point(s.risk, s.ret))
  }

  /** allPoints after the samples 0 .. k-1. */
  function RawPoints(e: Env, minR: real, maxR: real, k: nat): seq<Point>
    requires EnvOk(e)
  {
    if k == 0 then []
    else
      RawPoints(e, minR, maxR, k - 1) +
      match SamplePoint(e, Target(minR, Step(minR, maxR), k - 1))
      case None => []
      case Some(pt) => [pt]
  }

  lemma RawPointsStep(e: Env, minR: real, maxR: real, k: nat)
    requires EnvOk(e)
    ensures var pt := SamplePoint(e, Target(minR, Step(minR, maxR), k));
      RawPoints(e, minR, maxR, k + 1) == RawPoints(e, minR, maxR, k) + (if pt.Some? then [pt.value] else [])
  {
  }

  /** Round j of the loop: the point for target r = Target(minR, step, j), or None when solve gives null. */
  function Sampler(e: Env, minR: real, maxR: real): (f: nat -> Option<Point>)
    requires EnvOk(e)
  {
    (j: nat) => SamplePoint(e, Target(minR, Step(minR, maxR), j))
  }

  /** The points of rounds 0 .. k-1 that produced one, in round order. */
  function Collect(f: nat -> Option<Point>, k: nat): seq<Point>
  {
    if k == 0 then [] else Collect(f, k - 1) + (if f(k - 1).Some? then [f(k - 1).value] else [])
  }

  /** The rounds j < k that produced a point, in order. */
  function PointRounds(f: nat -> Option<Point>, k: nat): (js: seq<nat>)
    ensures StrictlyIncreasing(js)
    ensures forall s :: 0 <= s < |js| ==> js[s] < k && f(js[s]).Some?
    ensures forall j :: 0 <= j < k && f(j).Some? ==> j in js
  {
    if k == 0 then [] else PointRounds(f, k - 1) + (if f(k - 1).Some? then [k - 1] else [])
  }

  /** Collect lists, in order, the points of exactly the rounds PointRounds names. */
  lemma {:induction false} CollectListsRounds(f: nat -> Option<Point>, k: nat)
    ensures |Collect(f, k)| == |PointRounds(f, k)| <= k
    ensures forall s :: 0 <= s < |Collect(f, k)| ==> Collect(f, k)[s] == f(PointRounds(f, k)[s]).value
  {
    if k > 0 {
      CollectListsRounds(f, k - 1);
      var c, js := Collect(f, k - 1), PointRounds(f, k - 1);
      var c', js' := Collect(f, k), PointRounds(f, k);
      if f(k - 1).Some? {
        assert c' == c + [f(k - 1).value] && js' == js + [k - 1];
        forall s | 0 <= s < |c'|
          ensures c'[s] == f(js'[s]).value
        {
          if s < |c| {
            assert c'[s] == c[s] && js'[s] == js[s];
          }
        }
      } else {
        assert c' == c && js' == js;
      }
    }
  }

  lemma {:induction false} RawPointsCollect(e: Env, minR: real, maxR: real, k: nat)
    requires EnvOk(e)
    ensures RawPoints(e, minR, maxR, k) == Collect(Sampler(e, minR, maxR), k)
  {
    if k > 0 {
      RawPointsCollect(e, minR, maxR, k - 1);
      RawPointsStep(e, minR, maxR, k - 1);
      assert Sampler(e, minR, maxR)(k - 1) == SamplePoint(e, Target(minR, Step(minR, maxR), k - 1));
    }
  }

  /**
   * allPoints holds, in round order, exactly the points of the rounds whose
   * solve succeeded: at most one point per round, none for a failed round.
   */
  lemma RawPointsAreSamples(e: Env, minR: real, maxR: real, k: nat)
    requires EnvOk(e)
    ensures var f := Sampler(e, minR, maxR);
      && (forall j: nat :: f(j) == SamplePoint(e, Target(minR, Step(minR, maxR), j)))
      && |RawPoints(e, minR, maxR, k)| == |PointRounds(f, k)| <= k
      && forall s :: 0 <= s < |PointRounds(f, k)| ==> RawPoints(e, minR, maxR, k)[s] == f(PointRounds(f, k)[s]).value
  {
    RawPointsCollect(e, minR, maxR, k);
    CollectListsRounds(Sampler(e, minR, maxR), k);
  }

  // ---------------------------------------------------------------- maximum Sharpe ratio

  /** The loop's maxSharpe and maxSharpeRet. */
  datatype Best = Best(sharpe: real, ret: real)

  predicate Qualifies(pt: Point)
  {
    pt.x > SharpeRiskFloor
  }

  function Sharpe(pt: Point): real
  {
    if pt.x == 0.0 then 0.0 else pt.y / pt.x
  }

  /** One loop step: a qualifying point with a strictly larger ratio takes over. */
  function SharpeStep(b: Best, pt: Point): Best
  {
    if Qualifies(pt) && Sharpe(pt) > b.sharpe then Best(Sharpe(pt), pt.y) else b
  }

  /** The scan over the points in order, from maxSharpe = -1 and maxSharpeRet = 0. */
  function SharpeScan(ps: seq<Point>): Best
  {
    if ps == [] then Best(-1.0, 0.0) else SharpeStep(SharpeScan(ps[..|ps| - 1]), ps[|ps| - 1])
  }

  /** A point the scan can pick: risk above the floor and a ratio above the initial -1. */
  predicate Eligible(pt: Point)
  {
    Qualifies(pt) && Sharpe(pt) > -1.0
  }

  /**
   * Position i holds an eligible point whose ratio is the largest among
   * the qualifying points and strictly larger than that of every
   * qualifying point before it.
   */
  predicate FirstBestSharpe(ps: seq<Point>, i: nat)
  {
    && i < |ps| && Eligible(ps[i])
    && (forall j :: 0 <= j < |ps| && Qualifies(ps[j]) ==> Sharpe(ps[j]) <= Sharpe(ps[i]))
    && (forall j :: 0 <= j < i && Qualifies(ps[j]) ==> Sharpe(ps[j]) < Sharpe(ps[i]))
  }

  predicate NoneEligible(ps: seq<Point>)
  {
    forall i :: 0 <= i < |ps| ==> !Eligible(ps[i])
  }

  /** What the scan has established after the points ps. */
  ghost predicate ScanInvariant(ps: seq<Point>)
  {
    var b := SharpeScan(ps);
    && b.sharpe >= -1.0
    && (NoneEligible(ps) ==> b == Best(-1.0, 0.0))
    && (!NoneEligible(ps) ==> exists i: nat :: FirstBestSharpe(ps, i) && b == Best(Sharpe(ps[i]), ps[i].y))
    && (forall j :: 0 <= j < |ps| && Qualifies(ps[j]) ==> Sharpe(ps[j]) <= b.sharpe)
  }

  lemma SharpeScanAppend(front: seq<Point>, last: Point)
    ensures SharpeScan(front + [last]) == SharpeStep(SharpeScan(front), last)
  {
    assert (front + [last])[..|front|] == front;
  }

  /** A qualifying last point with a strictly larger ratio becomes the choice. */
  lemma ScanTakesLast(front: seq<Point>, last: Point)
    requires ScanInvariant(front)
    requires Qualifies(last) && Sharpe(last) > SharpeScan(front).sharpe
    ensures ScanInvariant(front + [last])
  {
    var ps := front + [last];
    SharpeScanAppend(front, last);
    assert forall j :: 0 <= j < |front| ==> ps[j] == front[j];
    assert FirstBestSharpe(ps, |front|);
  }

  /** Otherwise the earlier choice stands. */
  lemma ScanKeepsBest(front: seq<Point>, last: Point)
    requires ScanInvariant(front)
    requires !(Qualifies(last) && Sharpe(last) > SharpeScan(front).sharpe)
    ensures ScanInvariant(front + [last])
  {
    var ps := front + [last];
    SharpeScanAppend(front, last);
    assert forall j :: 0 <= j < |front| ==> ps[j] == front[j];
    if !NoneEligible(front) {
      var i: nat :| FirstBestSharpe(front, i) && SharpeScan(front) == Best(Sharpe(front[i]), front[i].y);
      assert FirstBestSharpe(ps, i);
    } else {
      assert !Eligible(last);
    }
  }

  lemma {:induction false} SharpeScanInvariant(ps: seq<Point>)
    ensures ScanInvariant(ps)
  {
    if ps != [] {
      var front, last := ps[..|ps| - 1], ps[|ps| - 1];
      SharpeScanInvariant(front);
      assert ps == front + [last];
      if Qualifies(last) && Sharpe(last) > SharpeScan(front).sharpe {
        ScanTakesLast(front, last);
      } else {
        ScanKeepsBest(front, last);
      }
    }
  }

  /**
   * The scan's choice: with no eligible point the return stays 0;
   * otherwise it is the return of the first point whose ratio is the
   * largest among the qualifying points.
   */
  lemma SharpeChoice(ps: seq<Point>)
    ensures NoneEligible(ps) ==> SharpeScan(ps).ret == 0.0
    ensures !NoneEligible(ps) ==> exists i: nat :: FirstBestSharpe(ps, i) && SharpeScan(ps).ret == ps[i].y
  {
    SharpeScanInvariant(ps);
  }

  // ---------------------------------------------------------------- minimum-risk point and trimming

  /** `allPoints.reduce((p, c) => (p.x < c.x ? p : c))` */
  function MinRisk(ps: seq<Point>): Point
    requires |ps| > 0
  {
    if |ps| == 1 then ps[0]
    else
      var acc := MinRisk(ps[..|ps| - 1]);
      if acc.x < ps[|ps| - 1].x then acc else ps[|ps| - 1]
  }

  /** Position i has the least risk, and every later point is strictly riskier. */
  predicate LastMinimiser(ps: seq<Point>, i: nat)
  {
    && i < |ps|
    && (forall j :: 0 <= j < |ps| ==> ps[i].x <= ps[j].x)
    && (forall j :: i < j < |ps| ==> ps[i].x < ps[j].x)
  }

  /**
   * The reduce picks a point of least risk, and because it keeps the
   * accumulator only when strictly less risky, the last of several
   * equally risky points.
   */
  lemma {:induction false} MinRiskIsLastMinimiser(ps: seq<Point>)
    requires |ps| > 0
    ensures exists i: nat :: LastMinimiser(ps, i) && MinRisk(ps) == ps[i]
  {
    if |ps| == 1 {
      assert LastMinimiser(ps, 0);
    } else {
      var front, last := ps[..|ps| - 1], ps[|ps| - 1];
      MinRiskIsLastMinimiser(front);
      var i: nat :| LastMinimiser(front, i) && MinRisk(front) == front[i];
      assert forall j :: 0 <= j < |front| ==> front[j] == ps[j];
      if front[i].x < last.x {
        assert LastMinimiser(ps, i);
      } else {
        assert LastMinimiser(ps, |ps| - 1);
      }
    }
  }

  /** `allPoints.filter(p => p.y >= t)` */
  function Efficient(ps: seq<Point>, t: real): seq<Point>
  {
    if ps == [] then []
    else Efficient(ps[..|ps| - 1], t) + (if ps[|ps| - 1].y >= t then [ps[|ps| - 1]] else [])
  }

  /** Positions of the points with return at least t, in order. */
  function AtLeast(ps: seq<Point>, t: real, k: nat): (idx: seq<nat>)
    requires k <= |ps|
    ensures StrictlyIncreasing(idx)
    ensures forall s :: 0 <= s < |idx| ==> idx[s] < k && ps[idx[s]].y >= t
    ensures forall i :: 0 <= i < k && ps[i].y >= t ==> i in idx
  {
    if k == 0 then [] else AtLeast(ps, t, k - 1) + (if ps[k - 1].y >= t then [k - 1] else [])
  }

  lemma EfficientAppend(front: seq<Point>, last: Point, t: real)
    ensures Efficient(front + [last], t) == Efficient(front, t) + (if last.y >= t then [last] else [])
  {
    assert (front + [last])[..|front|] == front;
  }

  /** Efficient(ps, t) lists ps at the positions idx. */
  predicate ListsAt(e: seq<Point>, ps: seq<Point>, idx: seq<nat>)
  {
    |e| == |idx| && forall s :: 0 <= s < |e| ==> idx[s] < |ps| && e[s] == ps[idx[s]]
  }

  lemma ListsAtAppend(e: seq<Point>, front: seq<Point>, idx: seq<nat>, last: Point, keep: bool)
    requires ListsAt(e, front, idx)
    ensures ListsAt(e + (if keep then [last] else []), front + [last], idx + (if keep then [|front|] else []))
  {
    var ps := front + [last];
    assert forall s :: 0 <= s < |e| ==> ps[idx[s]] == front[idx[s]];
  }

  /**
   * The trimmed frontier is the subsequence of the raw points at the
   * positions AtLeast lists: order kept, exactly the points with return at least t.
   */
  lemma {:induction false} EfficientIsSubsequence(ps: seq<Point>, t: real)
    ensures ListsAt(Efficient(ps, t), ps, AtLeast(ps, t, |ps|))
  {
    if ps != [] {
      var front, last := ps[..|ps| - 1], ps[|ps| - 1];
      EfficientIsSubsequence(front, t);
      assert ps == front + [last];
      EfficientAppend(front, last, t);
      AtLeastPrefix(ps, front, t, |front|);
      ListsAtAppend(Efficient(front, t), front, AtLeast(front, t, |front|), last, last.y >= t);
    }
  }

  lemma {:induction false} AtLeastPrefix(ps: seq<Point>, front: seq<Point>, t: real, k: nat)
    requires k <= |front| <= |ps| && forall i :: 0 <= i < |front| ==> front[i] == ps[i]
    ensures AtLeast(front, t, k) == AtLeast(ps, t, k)
  {
    if k > 0 {
      AtLeastPrefix(ps, front, t, k - 1);
    }
  }

  /** Every kept point has return at least t, and the minimum-risk point always survives its own threshold. */
  lemma EfficientKeepsMinRisk(ps: seq<Point>)
    requires |ps| > 0
    ensures forall s :: 0 <= s < |Efficient(ps, MinRisk(ps).y)| ==> Efficient(ps, MinRisk(ps).y)[s].y >= MinRisk(ps).y
    ensures MinRisk(ps) in Efficient(ps, MinRisk(ps).y)
  {
    var t := MinRisk(ps).y;
    EfficientIsSubsequence(ps, t);
    MinRiskIsLastMinimiser(ps);
    var i: nat :| LastMinimiser(ps, i) && MinRisk(ps) == ps[i];
    var idx := AtLeast(ps, t, |ps|);
    assert i in idx;
    var s :| 0 <= s < |idx| && idx[s] == i;
    assert Efficient(ps, t)[s] == MinRisk(ps);
  }

  // ---------------------------------------------------------------- the memo

  /** The frontier memo as a value. */
  function FrontierResult(e: Env): Frontier
    requires EnvOk(e)
  {
    if e.data.None? || !e.ready || |Active(e.data.value, e.enabled)| <= 1 then Frontier([], 0.0, 0.0)
    else Summary(FrontierPoints(e))
  }

  /** minR: the smallest expected return among the active assets, in percent. */
  function MinTarget(e: Env): real
    requires e.data.Some? && |Active(e.data.value, e.enabled)| >= 2
  {
    var p := e.data.value;
    MinOf(Means(p.assets, Active(p, e.enabled))) * 100.0
  }

  /** maxR: the largest expected return among the active assets, in percent. */
  function MaxTarget(e: Env): real
    requires e.data.Some? && |Active(e.data.value, e.enabled)| >= 2
  {
    var p := e.data.value;
    MaxOf(Means(p.assets, Active(p, e.enabled))) * 100.0
  }

  /** allPoints once the loop is done: one sample per target from minR to maxR. */
  function FrontierPoints(e: Env): seq<Point>
    requires EnvOk(e) && e.data.Some? && |Active(e.data.value, e.enabled)| >= 2
  {
    RawPoints(e, MinTarget(e), MaxTarget(e), Intervals + 1)
  }

  /** The memo's value for the raw points: the trimmed points, the minimum-risk return and the maximum-Sharpe return. */
  function Summary(raw: seq<Point>): Frontier
  {
    var minY := if |raw| > 0 then MinRisk(raw).y else 0.0;
    Frontier(Efficient(raw, minY), minY, SharpeScan(raw).ret)
  }

  /** The frontier memo: sample the targets, then trim and pick. */
  method EfficientFrontier(e: Env) returns (f: Frontier)
    requires EnvOk(e)
    ensures f == FrontierResult(e)
  {
    if e.data.None? || !e.ready {
      return Frontier([], 0.0, 0.0);
    }
    var p := e.data.value;
    var idx := Active(p, e.enabled);
    if |idx| <= 1 {
      return Frontier([], 0.0, 0.0);
    }
    var means := Means(p.assets, idx);
    var minR, maxR := MinOf(means) * 100.0, MaxOf(means) * 100.0;
    assert minR == MinTarget(e) && maxR == MaxTarget(e);
    var allPoints, maxSharpeRet := Sweep(e, minR, maxR);
    var minY := if |allPoints| > 0 then MinRisk(allPoints).y else 0.0;
    f := Frontier(Efficient(allPoints, minY), minY, maxSharpeRet);
    assert f == Summary(allPoints);
  }

  /**
   * The frontier loop, bounded by the round count 0 .. 60 rather than by
   * r <= maxR (see JsLoopNeverEndsWhenFlat): allPoints and the running
   * maximum-Sharpe choice.
   */
  method Sweep(e: Env, minR: real, maxR: real) returns (allPoints: seq<Point>, maxSharpeRet: real)
    requires EnvOk(e)
    ensures allPoints == RawPoints(e, minR, maxR, Intervals + 1)
    ensures maxSharpeRet == SharpeScan(allPoints).ret
  {
    var step := Step(minR, maxR);
    allPoints := [];
    var maxSharpe := -1.0;
    maxSharpeRet := 0.0;
    var r := minR;
    for k := 0 to Intervals + 1
      invariant r == Target(minR, step, k)
      invariant allPoints == RawPoints(e, minR, maxR, k)
      invariant Best(maxSharpe, maxSharpeRet) == SharpeScan(allPoints)
    {
      var pt := Sample(e, r);
      RawPointsStep(e, minR, maxR, k);
      if pt.Some? {
        SharpeScanAppend(allPoints, pt.value);
        allPoints := allPoints + [pt.value];
        if pt.value.x > SharpeRiskFloor {
          var sharpe := pt.value.y / pt.value.x;
          if sharpe > maxSharpe {
            maxSharpe, maxSharpeRet := sharpe, pt.value.y;
          }
        }
      }
      r := r + step;
    }
  }

  /** One round of the frontier loop before the bookkeeping: solve, then the stats of the weights. */
  method Sample(e: Env, target: real) returns (pt: Option<Point>)
    requires EnvOk(e)
    ensures pt == SamplePoint(e, target)
  {
    var w := Solve(e.data, e.ready, e.enabled, e.clarabel, target);
    if w.None? {
      return None;
    }
    var s := CalculateStats(e.data, w.value, e.sqrt);
    pt := Some(Point(s.risk, s.ret));
  }

  /** With at most one active asset the frontier is empty and both returns are 0. */
  lemma FrontierNeedsTwoAssets(e: Env)
    requires EnvOk(e) && e.data.Some?
    requires |Active(e.data.value, e.enabled)| <= 1
    ensures FrontierResult(e) == Frontier([], 0.0, 0.0)
  {
  }

  /**
   * What the memo promises: the kept points are, in order, exactly the
   * raw points whose return is at least the minimum-risk point's, that
   * point among them; the maximum-Sharpe return is 0 when no point is
   * eligible, and otherwise the return of the first point with the
   * largest ratio among those with risk above the floor.
   */
  lemma FrontierMeaning(e: Env)
    requires EnvOk(e) && e.data.Some? && e.ready
    requires |Active(e.data.value, e.enabled)| >= 2
    ensures var raw := FrontierPoints(e);
      var f := FrontierResult(e);
      && (raw == [] ==> f == Frontier([], 0.0, 0.0))
      && (raw != [] ==>
          && f.minEfficientReturn == MinRisk(raw).y
          && ListsAt(f.points, raw, AtLeast(raw, f.minEfficientReturn, |raw|))
          && MinRisk(raw) in f.points)
      && (NoneEligible(raw) ==> f.maxSharpeReturn == 0.0)
      && (!NoneEligible(raw) ==> exists i: nat :: FirstBestSharpe(raw, i) && f.maxSharpeReturn == raw[i].y)
  {
    var raw := FrontierPoints(e);
    SharpeChoice(raw);
    if raw != [] {
      EfficientIsSubsequence(raw, MinRisk(raw).y);
      EfficientKeepsMinRisk(raw);
    }
  }

  // ---------------------------------------------------------------- the loop as written

  lemma {:induction false} TargetClosedForm(minR: real, step: real, k: nat)
    ensures Target(minR, step, k) == minR + (k as real) * step
  {
    if k > 0 {
      TargetClosedForm(minR, step, k - 1);
    }
  }

  /**
   * `for (let r = minR; r <= maxR; r += step)`: when minR == maxR the step
   * is 0, r <= maxR holds in every round, and the loop never ends.
   */
  lemma JsLoopNeverEndsWhenFlat(minR: real, maxR: real, k: nat)
    requires minR == maxR
    ensures Target(minR, Step(minR, maxR), k) <= maxR
  {
    TargetClosedForm(minR, Step(minR, maxR), k);
  }

  /** Two enabled assets with the same expected return give minR == maxR. */
  lemma EqualReturnsGiveFlatRange(p: Period, enabled: set<string>)
    requires |p.assets| == 2 && p.assets[0].name in enabled && p.assets[1].name in enabled
    requires p.assets[0].ret == p.assets[1].ret
    ensures Active(p, enabled) == [0, 1]
    ensures MinOf(Means(p.assets, Active(p, enabled))) * 100.0 == MaxOf(Means(p.assets, Active(p, enabled))) * 100.0
  {
    BothActive(p, enabled);
    var means := Means(p.assets, [0, 1]);
    FlatMinMax(means);
  }

  lemma BothActive(p: Period, enabled: set<string>)
    requires |p.assets| == 2 && p.assets[0].name in enabled && p.assets[1].name in enabled
    ensures Active(p, enabled) == [0, 1]
  {
    assert ActiveIndices(p.assets, enabled, 1) == [0];
  }

  /** A list of equal values has the same minimum and maximum. */
  lemma FlatMinMax(s: seq<real>)
    requires |s| > 0 && forall i :: 0 <= i < |s| ==> s[i] == s[0]
    ensures MinOf(s) == MaxOf(s)
  {
    var lo, hi := MinOf(s), MaxOf(s);
    var i :| 0 <= i < |s| && s[i] == lo;
    var j :| 0 <= j < |s| && s[j] == hi;
  }

  /**
   * When minR < maxR the loop bounded by the round count visits exactly
   * the targets the JavaScript loop visits, in exact arithmetic: r <= maxR
   * holds for the rounds 0 .. 60 and for no later one.
   */
  lemma BoundedLoopMatchesJsLoop(minR: real, maxR: real, k: nat)
    requires minR < maxR
    ensures Target(minR, Step(minR, maxR), k) <= maxR <==> k <= Intervals
  {
    var step := Step(minR, maxR);
    TargetClosedForm(minR, step, k);
    assert step > 0.0;
    assert minR + 60.0 * step == maxR;
    if k <= Intervals {
      assert (k as real) * step <= 60.0 * step;
    } else {
      assert (k as real) * step >= 61.0 * step;
    }
  }
}
