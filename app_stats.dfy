/**
 * The optimiser page's portfolio statistics (`calculateStats`) and the
 * GPIF benchmark built on them.
 */
module AppStats {
  import opened LinAlg
  import opened Market
  import opened Wrappers

  /** w_i = (weights[assets[i].name] || 0) / 100, in the period's asset order. */
  function WeightVector(assets: seq<Asset>, m: Weights): (w: seq<real>)
    ensures |w| == |assets|
    ensures forall i :: 0 <= i < |assets| ==> w[i] == WeightOf(m, assets[i].name) / 100.0
  {
    seq(|assets|, i requires 0 <= i < |assets| => WeightOf(m, assets[i].name) / 100.0)
  }

  /**
   * calculateStats as a value: the return w . mu and the risk
   * sqrt(sum over i, j of w_i w_j C[i][j]), both in percent, with
   * w indexed by position in the whole period; zero without a period.
   */
  function PortfolioStats(data: Option<Period>, m: Weights, sqrt: SqrtFn): Stats
    requires data.Some? ==> ValidPeriod(data.value)
  {
    match data
    case None => Stats(0.0, 0.0)
    case Some(p) =>
      var w := WeightVector(p.assets, m);
      Stats(Dot(w, Returns(p.assets)) * 100.0, sqrt(Quad(w, p.cov)) * 100.0)
  }

  /** calculateStats: the two accumulating loops, then the conversion to percent. */
  method CalculateStats(data: Option<Period>, m: Weights, sqrt: SqrtFn) returns (s: Stats)
    requires data.Some? ==> ValidPeriod(data.value)
    ensures s == PortfolioStats(data, m, sqrt)
  {
    if data.None? {
      return Stats(0.0, 0.0);
    }
    var pRet := AccumulateReturn(data.value.assets, m);
    var pVar := AccumulateVariance(data.value.assets, data.value.cov, m);
    s := Stats(pRet * 100.0, sqrt(pVar) * 100.0);
  }

  /** pRet += w * a.return over the period's assets. */
  method AccumulateReturn(assets: seq<Asset>, m: Weights) returns (pRet: real)
    ensures pRet == Dot(WeightVector(assets, m), Returns(assets))
  {
    ghost var w := WeightVector(assets, m);
    pRet := 0.0;
    for i := 0 to |assets|
      invariant pRet == DotTo(w, Returns(assets), i)
    {
      var wi := WeightOf(m, assets[i].name) / 100.0;
      assert wi == w[i] && assets[i].ret == Returns(assets)[i];
      pRet := pRet + wi * assets[i].ret;
    }
  }

  /** pVar += wI * wJ * cov[i][j] over every pair of positions. */
  method AccumulateVariance(assets: seq<Asset>, cov: seq<seq<real>>, m: Weights) returns (pVar: real)
    requires IsSquare(cov, |assets|)
    ensures pVar == Quad(WeightVector(assets, m), cov)
  {
    ghost var w := WeightVector(assets, m);
    var n := |assets|;
    pVar := 0.0;
    for i := 0 to n
      invariant pVar == QuadTo(w, cov, i, n)
    {
      var wi := WeightOf(m, assets[i].name) / 100.0;
      assert wi == w[i];
      for j := 0 to n
        invariant pVar == QuadTo(w, cov, i, n) + RowTo(w, cov, i, j)
      {
        var wj := WeightOf(m, assets[j].name) / 100.0;
        assert wj == w[j];
        pVar := pVar + wi * wj * cov[i][j];
      }
    }
  }

  /** A covariance matrix that is positive semidefinite gives every weight map a non-negative risk. */
  lemma RiskNonNegative(p: Period, m: Weights, sqrt: SqrtFn)
    requires PositiveSemidefinite(p.cov, |p.assets|) && NonNegativeRoot(sqrt)
    ensures ValidPeriod(p)
    ensures PortfolioStats(Some(p), m, sqrt).risk >= 0.0
  {
    var w := WeightVector(p.assets, m);
    assert 0.0 <= Quad(w, p.cov);
  }

  /** Keys of the weight map that name no asset of the period change nothing. */
  lemma StatsIgnoreForeignKeys(p: Period, m: Weights, m': Weights, sqrt: SqrtFn)
    requires ValidPeriod(p)
    requires forall i :: 0 <= i < |p.assets| ==> WeightOf(m, p.assets[i].name) == WeightOf(m', p.assets[i].name)
    ensures PortfolioStats(Some(p), m, sqrt) == PortfolioStats(Some(p), m', sqrt)
  {
    assert WeightVector(p.assets, m) == WeightVector(p.assets, m');
  }

  /** A vector that is 1 at position i and 0 elsewhere. */
  predicate UnitAt(w: seq<real>, i: nat)
  {
    i < |w| && w[i] == 1.0 && forall j :: 0 <= j < |w| && j != i ==> w[j] == 0.0
  }

  lemma {:induction false} DotToUnit(w: seq<real>, u: seq<real>, i: nat, k: nat)
    requires UnitAt(w, i) && |u| == |w| && k <= |w|
    ensures DotTo(w, u, k) == if i < k then u[i] else 0.0
  {
    if k > 0 {
      DotToUnit(w, u, i, k - 1);
    }
  }

  lemma {:induction false} RowToUnit(w: seq<real>, c: seq<seq<real>>, i: nat, r: nat, k: nat)
    requires UnitAt(w, i) && IsSquare(c, |w|) && r < |w| && k <= |w|
    ensures RowTo(w, c, r, k) == if r == i && i < k then c[i][i] else 0.0
  {
    if k > 0 {
      RowToUnit(w, c, i, r, k - 1);
    }
  }

  lemma {:induction false} QuadToUnit(w: seq<real>, c: seq<seq<real>>, i: nat, a: nat)
    requires UnitAt(w, i) && IsSquare(c, |w|) && a <= |w|
    ensures QuadTo(w, c, a, |w|) == if i < a then c[i][i] else 0.0
  {
    if a > 0 {
      QuadToUnit(w, c, i, a - 1);
      RowToUnit(w, c, i, a - 1, |w|);
    }
  }

  /**
   * A portfolio entirely in the asset at position i has that asset's
   * return and the square root of its own variance C[i][i] as risk.
   */
  lemma SingleAssetStats(p: Period, i: nat, sqrt: SqrtFn)
    requires ValidPeriod(p) && UniqueNames(p.assets) && i < |p.assets|
    ensures PortfolioStats(Some(p), map[p.assets[i].name := 100.0], sqrt)
      == Stats(p.assets[i].ret * 100.0, sqrt(p.cov[i][i]) * 100.0)
  {
    var w := WeightVector(p.assets, map[p.assets[i].name := 100.0]);
    assert UnitAt(w, i);
    DotToUnit(w, Returns(p.assets), i, |w|);
    QuadToUnit(w, p.cov, i, |w|);
  }

  // ---------------------------------------------------------------- the GPIF benchmark

  const DomesticStock: string := "Stk_JP_Topix"
  const ForeignStock: string := "Stk_SP500"
  const ForeignBond: string := "Bnd_US_Agg"
  const DomesticBondPreferred: string := "Bnd_JP"
  const DomesticBondFallback: string := "Bnd_US_Short"

  /** The domestic-bond slot: Bnd_JP when the period lists it, otherwise Bnd_US_Short. */
  function DomesticBond(avail: set<string>): string
  {
    if DomesticBondPreferred in avail then DomesticBondPreferred else DomesticBondFallback
  }

  /**
   * The benchmark's weight map: 25 on each of the four slots, or None
   * when the period lacks any of them.
   */
  function BenchmarkWeights(data: Option<Period>): (r: Option<Weights>)
    ensures r.Some? <==> (data.Some? &&
      var avail := Names(data.value.assets);
      DomesticStock in avail && ForeignStock in avail && ForeignBond in avail && DomesticBond(avail) in avail)
    ensures r.Some? ==>
      var avail := Names(data.value.assets);
      && r.value.Keys == {DomesticStock, ForeignStock, ForeignBond, DomesticBond(avail)}
      && r.value.Keys <= avail
      && (forall k :: k in r.value ==> r.value[k] == 25.0)
      && (DomesticBondPreferred in r.value <==> DomesticBondPreferred in avail)
      && (DomesticBondFallback in r.value <==> DomesticBondPreferred !in avail)
  {
    match data
    case None => None
    case Some(p) =>
      var avail := Names(p.assets);
      var dBnd := DomesticBond(avail);
      if DomesticStock in avail && ForeignStock in avail && ForeignBond in avail && dBnd in avail
      then Some(map[DomesticStock := 25.0, ForeignStock := 25.0, dBnd := 25.0, ForeignBond := 25.0])
      else None
  }

  /** The four slots are distinct names, so the benchmark weights total 100. */
  lemma BenchmarkTotals100(data: Option<Period>)
    ensures BenchmarkWeights(data).Some? ==> MapSum(BenchmarkWeights(data).value) == 100.0
  {
    if BenchmarkWeights(data).Some? {
      var dBnd := DomesticBond(Names(data.value.assets));
      var m0: Weights := map[];
      var m1 := m0[DomesticStock := 25.0];
      var m2 := m1[ForeignStock := 25.0];
      var m3 := m2[dBnd := 25.0];
      var m4 := m3[ForeignBond := 25.0];
      MapSumInsert(m0, DomesticStock, 25.0);
      MapSumInsert(m1, ForeignStock, 25.0);
      MapSumInsert(m2, dBnd, 25.0);
      MapSumInsert(m3, ForeignBond, 25.0);
      assert m4 == BenchmarkWeights(data).value;
    }
  }

  /** gpifStats: the statistics of the benchmark weights, or None. */
  function BenchmarkStats(data: Option<Period>, sqrt: SqrtFn): (r: Option<Stats>)
    requires data.Some? ==> ValidPeriod(data.value)
  {
    match BenchmarkWeights(data)
    case None => None
    case Some(m) => Some(PortfolioStats(data, m, sqrt))
  }

  /** The four names the benchmark holds, for the names a period lists. */
  function Slots(avail: set<string>): set<string>
  {
    {DomesticStock, ForeignStock, ForeignBond, DomesticBond(avail)}
  }

  /** The sum of the returns of the first k assets whose name is in `names`. */
  function ReturnsNamed(assets: seq<Asset>, names: set<string>, k: nat): real
    requires k <= |assets|
  {
    if k == 0 then 0.0
    else ReturnsNamed(assets, names, k - 1) + (if assets[k - 1].name in names then assets[k - 1].ret else 0.0)
  }

  lemma {:induction false} SlotDotTo(assets: seq<Asset>, w: seq<real>, names: set<string>, k: nat)
    requires |w| == |assets| && k <= |assets|
    requires forall i :: 0 <= i < |assets| ==> w[i] == if assets[i].name in names then 0.25 else 0.0
    ensures DotTo(w, Returns(assets), k) == 0.25 * ReturnsNamed(assets, names, k)
  {
    if k > 0 {
      SlotDotTo(assets, w, names, k - 1);
    }
  }

  /**
   * gpifStats in terms of the period: every asset whose name is one of the
   * four slots weighs 0.25 and every other asset 0, so the benchmark
   * return is 25 times the sum of the slot assets' returns.
   */
  lemma BenchmarkStatsMeaning(p: Period, sqrt: SqrtFn)
    requires ValidPeriod(p) && BenchmarkWeights(Some(p)).Some?
    ensures var w := WeightVector(p.assets, BenchmarkWeights(Some(p)).value);
      forall i :: 0 <= i < |p.assets| ==> w[i] == if p.assets[i].name in Slots(Names(p.assets)) then 0.25 else 0.0
    ensures BenchmarkStats(Some(p), sqrt).Some?
    ensures BenchmarkStats(Some(p), sqrt).value.ret == 25.0 * ReturnsNamed(p.assets, Slots(Names(p.assets)), |p.assets|)
  {
    var slots := Slots(Names(p.assets));
    var m := BenchmarkWeights(Some(p)).value;
    var w := WeightVector(p.assets, m);
    forall i | 0 <= i < |p.assets|
      ensures w[i] == if p.assets[i].name in slots then 0.25 else 0.0
    {
      assert p.assets[i].name in m <==> p.assets[i].name in slots;
    }
    SlotDotTo(p.assets, w, slots, |p.assets|);
  }
}
