/**
 * The manual simulator page: the statistics of the user's weights in the
 * order of `tickersOrder`, the equal initial allocation, editing and
 * normalising the weights, and the random-portfolio cloud.
 */
module Simulator {
  import opened LinAlg
  import opened Market
  import opened Wrappers
  import opened AppStats

  /** The loaded market data: assets, covariance matrix and the ticker order the matrix follows. */
  datatype MarketData = MarketData(assets: seq<Asset>, cov: seq<seq<real>>, tickersOrder: seq<string>)

  /** The number of random portfolios in the cloud. */
  const NumPoints: nat := 200

  // ---------------------------------------------------------------- looking assets up

  /** Position i holds the first asset called name. */
  predicate FirstNamed(assets: seq<Asset>, name: string, i: nat)
  {
    i < |assets| && assets[i].name == name && forall j :: 0 <= j < i ==> assets[j].name != name
  }

  /** `assets.find(a => a.name === name)`, searching from position i: the position found, or None. */
  function FindFrom(assets: seq<Asset>, name: string, i: nat): (r: Option<nat>)
    requires i <= |assets|
    requires forall j :: 0 <= j < i ==> assets[j].name != name
    ensures r.Some? ==> FirstNamed(assets, name, r.value)
    ensures r.None? ==> forall j :: 0 <= j < |assets| ==> assets[j].name != name
    decreases |assets| - i
  {
    if i == |assets| then None
    else if assets[i].name == name then Some(i)
    else FindFrom(assets, name, i + 1)
  }

  function Find(assets: seq<Asset>, name: string): (r: Option<nat>)
    ensures r.Some? ==> FirstNamed(assets, name, r.value)
    ensures r.None? ==> forall j :: 0 <= j < |assets| ==> assets[j].name != name
  {
    FindFrom(assets, name, 0)
  }

  /** `asset ? asset.return : 0` */
  function ReturnOf(assets: seq<Asset>, name: string): real
  {
    match Find(assets, name)
    case None => 0.0
    case Some(i) => assets[i].ret
  }

  /** With unique names, looking up an asset's own name finds that asset. */
  lemma FindOwnName(assets: seq<Asset>, i: nat)
    requires UniqueNames(assets) && i < |assets|
    ensures Find(assets, assets[i].name) == Some(i)
  {
    var r := Find(assets, assets[i].name);
    assert r.Some?;
    assert !(r.value < i) && !(i < r.value);
  }

  // ---------------------------------------------------------------- currentPortfolio

  /** w: `(userWeights[name] || 0) / 100` in ticker order. */
  function OrderWeights(order: seq<string>, m: Weights): (w: seq<real>)
    ensures |w| == |order|
    ensures forall i :: 0 <= i < |order| ==> w[i] == WeightOf(m, order[i]) / 100.0
  {
    seq(|order|, i requires 0 <= i < |order| => WeightOf(m, order[i]) / 100.0)
  }

  /** mu: each ticker's return, 0 for a ticker no asset is called. */
  function OrderReturns(assets: seq<Asset>, order: seq<string>): (mu: seq<real>)
    ensures |mu| == |order|
    ensures forall i :: 0 <= i < |order| ==> mu[i] == ReturnOf(assets, order[i])
  {
    seq(|order|, i requires 0 <= i < |order| => ReturnOf(assets, order[i]))
  }

  /**
   * currentPortfolio: (0, 0) while loading or without assets; otherwise
   * the return w . mu and the risk sqrt((w Sigma) . w), in percent, or
   * (0, 0) when the matrix products fail because Sigma is not n by n for
   * the n tickers.
   */
  function CurrentPortfolio(loading: bool, d: MarketData, m: Weights, sqrt: SqrtFn): Stats
  {
    if loading || |d.assets| == 0 then Stats(0.0, 0.0)
    else
      var w := OrderWeights(d.tickersOrder, m);
      var pReturn := Dot(w, OrderReturns(d.assets, d.tickersOrder));
      if IsSquare(d.cov, |w|) then Stats(pReturn * 100.0, sqrt(Dot(VecMat(w, d.cov), w)) * 100.0)
      else Stats(0.0, 0.0)
  }

  /**
   * Once loaded, with a matching matrix, the risk is the square root of
   * the quadratic form w^T Sigma w; a mismatched matrix gives (0, 0).
   */
  lemma CurrentPortfolioMeaning(d: MarketData, m: Weights, sqrt: SqrtFn)
    requires |d.assets| > 0
    ensures var w := OrderWeights(d.tickersOrder, m);
      var s := CurrentPortfolio(false, d, m, sqrt);
      && (IsSquare(d.cov, |w|) ==> s == Stats(Dot(w, OrderReturns(d.assets, d.tickersOrder)) * 100.0, sqrt(Quad(w, d.cov)) * 100.0))
      && (!IsSquare(d.cov, |w|) ==> s == Stats(0.0, 0.0))
  {
    var w := OrderWeights(d.tickersOrder, m);
    if IsSquare(d.cov, |w|) {
      VecMatDotIsQuad(w, d.cov);
    }
  }

  /** With a positive semidefinite matrix for the tickers, the simulator's risk is never negative. */
  lemma CurrentPortfolioRiskNonNegative(loading: bool, d: MarketData, m: Weights, sqrt: SqrtFn)
    requires PositiveSemidefinite(d.cov, |d.tickersOrder|) && NonNegativeRoot(sqrt)
    ensures CurrentPortfolio(loading, d, m, sqrt).risk >= 0.0
  {
    if !loading && |d.assets| > 0 {
      var w := OrderWeights(d.tickersOrder, m);
      VecMatDotIsQuad(w, d.cov);
      assert 0.0 <= Quad(w, d.cov);
    }
  }

  /** The names of the assets, in order. */
  function AssetNames(assets: seq<Asset>): (names: seq<string>)
    ensures |names| == |assets|
    ensures forall i :: 0 <= i < |assets| ==> names[i] == assets[i].name
  {
    seq(|assets|, i requires 0 <= i < |assets| => assets[i].name)
  }

  /**
   * When the ticker order is the asset order and the names are unique, the
   * simulator's statistics are the optimiser page's calculateStats.
   */
  lemma PagesAgree(p: Period, m: Weights, sqrt: SqrtFn)
    requires ValidPeriod(p) && UniqueNames(p.assets) && |p.assets| > 0
    ensures CurrentPortfolio(false, MarketData(p.assets, p.cov, AssetNames(p.assets)), m, sqrt)
      == PortfolioStats(Some(p), m, sqrt)
  {
    var order := AssetNames(p.assets);
    var d := MarketData(p.assets, p.cov, order);
    forall i | 0 <= i < |p.assets|
      ensures OrderReturns(p.assets, order)[i] == Returns(p.assets)[i]
    {
      FindOwnName(p.assets, i);
    }
    assert OrderReturns(p.assets, order) == Returns(p.assets);
    assert OrderWeights(order, m) == WeightVector(p.assets, m);
    CurrentPortfolioMeaning(d, m, sqrt);
  }

  // ---------------------------------------------------------------- editing the weights

  /** The initial allocation: 100 / count for every asset. */
  method InitialWeights(assets: seq<Asset>) returns (m: Weights)
    ensures m.Keys == Names(assets)
    ensures forall k :: k in m ==> m[k] == 100.0 / (|assets| as real)
    ensures UniqueNames(assets) && |assets| > 0 ==> MapSum(m) == 100.0
  {
    var count := |assets|;
    m := map[];
    if count == 0 {
      return;
    }
    var share := 100.0 / (count as real);
    for i := 0 to count
      invariant m.Keys == set j | 0 <= j < i :: assets[j].name
      invariant forall k :: k in m ==> m[k] == share
    {
      m := m[assets[i].name := share];
    }
    if UniqueNames(assets) {
      EqualSharesTotal(assets, m, share);
      SharesIsProduct(count, share);
      assert (count as real) * share == 100.0;
    }
  }

  /** With unique names, a map giving every asset the same share totals count shares. */
  lemma {:induction false} EqualSharesTotal(assets: seq<Asset>, m: Weights, share: real)
    requires UniqueNames(assets)
    requires m.Keys == Names(assets)
    requires forall k :: k in m ==> m[k] == share
    ensures MapSum(m) == Shares(|assets|, share)
  {
    if |assets| == 0 {
      assert m.Keys == {};
      assert MapSum(m) == KeySum(m, {});
    } else {
      var n := |assets|;
      var front, name := assets[..n - 1], assets[n - 1].name;
      var rest := m - {name};
      NamesDropLast(assets);
      assert UniqueNames(front) by {
        forall i, j | 0 <= i < j < |front|
          ensures front[i].name != front[j].name
        {
          assert front[i] == assets[i] && front[j] == assets[j];
        }
      }
      assert rest.Keys == Names(front);
      EqualSharesTotal(front, rest, share);
      assert |front| == n - 1;
      assert m == rest[name := share];
      MapSumInsert(rest, name, share);
      assert MapSum(m) == MapSum(rest) + share;
    }
  }

  /** share added up n times. */
  function Shares(n: nat, share: real): real
  {
    if n == 0 then 0.0 else Shares(n - 1, share) + share
  }

  lemma {:induction false} SharesIsProduct(n: nat, share: real)
    ensures Shares(n, share) == (n as real) * share
  {
    if n > 0 {
      SharesIsProduct(n - 1, share);
    }
  }

  /** With unique names, the last asset's name is the only one the front lacks. */
  lemma NamesDropLast(assets: seq<Asset>)
    requires UniqueNames(assets) && |assets| > 0
    ensures Names(assets[..|assets| - 1]) == Names(assets) - {assets[|assets| - 1].name}
  {
    var n := |assets|;
    var front := assets[..n - 1];
    forall k | k in Names(assets) - {assets[n - 1].name}
      ensures k in Names(front)
    {
      var j :| 0 <= j < n && assets[j].name == k;
      assert front[j].name == k;
    }
  }

  /** updateWeight: `{ ...prev, [name]: value }`. */
  function UpdateWeight(m: Weights, name: string, value: real): (r: Weights)
    ensures r.Keys == m.Keys + {name}
    ensures r[name] == value
    ensures forall k :: k in m && k != name ==> r[k] == m[k]
  {
    m[name := value]
  }

  /** Editing one weight moves the total by the change in that weight. */
  lemma UpdateWeightTotal(m: Weights, name: string, value: real)
    ensures MapSum(UpdateWeight(m, name, value)) == MapSum(m) - WeightOf(m, name) + value
  {
    var r := UpdateWeight(m, name, value);
    if name in m {
      KeySumRemove(m, m.Keys, name);
      KeySumRemove(r, r.Keys, name);
      assert r.Keys == m.Keys;
      KeySumAgree(m, r, m.Keys - {name});
    } else {
      MapSumInsert(m, name, value);
    }
  }

  /** `Object.values(weights).reduce((a, b) => a + b, 0)`, key by key. */
  method Total(m: Weights) returns (total: real)
    ensures total == MapSum(m)
  {
    total := 0.0;
    var todo := m.Keys;
    while todo != {}
      invariant todo <= m.Keys
      invariant total == KeySum(m, m.Keys - todo)
      decreases |todo|
    {
      var k :| k in todo;
      var done := m.Keys - todo;
      KeySumRemove(m, done + {k}, k);
      assert (done + {k}) - {k} == done;
      total := total + m[k];
      todo := todo - {k};
      assert m.Keys - todo == done + {k};
    }
    assert m.Keys - todo == m.Keys;
  }

  /**
   * normalizeWeights: nothing changes when the total is 0; otherwise every
   * weight is rescaled by 100 / total, so the same keys total 100.
   */
  method NormalizeWeights(m: Weights) returns (r: Weights)
    ensures MapSum(m) == 0.0 ==> r == m
    ensures MapSum(m) != 0.0 ==>
      && r.Keys == m.Keys
      && (forall k :: k in m ==> r[k] == m[k] / MapSum(m) * 100.0)
      && MapSum(r) == 100.0
  {
    var total := Total(m);
    if total == 0.0 {
      return m;
    }
    r := map[];
    var todo := m.Keys;
    while todo != {}
      invariant todo <= m.Keys
      invariant r.Keys == m.Keys - todo
      invariant forall k :: k in r ==> r[k] == m[k] / total * 100.0
      decreases |todo|
    {
      var k :| k in todo;
      r := r[k := m[k] / total * 100.0];
      todo := todo - {k};
    }
    NormalizedTotal(m, r, total);
  }

  /** Rescaling every weight by 100 / total, where total is their sum, makes them total 100. */
  lemma NormalizedTotal(m: Weights, r: Weights, total: real)
    requires total == MapSum(m) && total != 0.0
    requires r.Keys == m.Keys
    requires forall k :: k in m ==> r[k] == m[k] / total * 100.0
    ensures MapSum(r) == 100.0
  {
    var c := 100.0 / total;
    forall k | k in m
      ensures r[k] == m[k] * c
    {
      assert m[k] / total * 100.0 == m[k] * (100.0 / total);
    }
    MapSumScaled(m, r, c);
    assert total * (100.0 / total) == 100.0;
  }

  // ---------------------------------------------------------------- the random-portfolio cloud

  /** `w.map(val => val / total)`; None when the total is 0, where JavaScript gives NaN weights. */
  function Normalize(draw: seq<real>): (w: Option<seq<real>>)
    ensures w.None? <==> Sum(draw) == 0.0
    ensures w.Some? ==> |w.value| == |draw|
    ensures w.Some? ==> forall i :: 0 <= i < |draw| ==> w.value[i] * Sum(draw) == draw[i]
  {
    var total := Sum(draw);
    if total == 0.0 then None
    else Some(seq(|draw|, i requires 0 <= i < |draw| => draw[i] / total))
  }

  lemma QuotientNonNegative(a: real, b: real)
    requires 0.0 <= a && 0.0 < b
    ensures 0.0 <= a / b
  {
  }

  /** A draw of non-negative numbers normalises to non-negative weights summing to 1. */
  lemma NormalizeIsDistribution(draw: seq<real>)
    requires forall i :: 0 <= i < |draw| ==> 0.0 <= draw[i]
    requires Sum(draw) != 0.0
    ensures Normalize(draw).Some?
    ensures forall i :: 0 <= i < |draw| ==> 0.0 <= Normalize(draw).value[i]
    ensures Sum(Normalize(draw).value) == 1.0
  {
    var total := Sum(draw);
    var w := Normalize(draw).value;
    SumToNonNegative(draw, |draw|);
    assert total > 0.0;
    forall i | 0 <= i < |draw|
      ensures 0.0 <= w[i]
    {
      assert w[i] == draw[i] / total;
      QuotientNonNegative(draw[i], total);
    }
    SumToDivided(draw, w, total, |draw|);
  }

  /** The returns vector of the cloud: `find(...).return`, with None when a ticker has no asset. */
  function CloudReturns(assets: seq<Asset>, order: seq<string>): (mu: Option<seq<real>>)
    ensures mu.None? <==> exists i :: 0 <= i < |order| && Find(assets, order[i]).None?
    ensures mu.Some? ==> (|mu.value| == |order|
      && forall i :: 0 <= i < |order| ==> FirstNamed(assets, order[i], Find(assets, order[i]).value) && mu.value[i] == ReturnOf(assets, order[i]))
  {
    if exists i :: 0 <= i < |order| && Find(assets, order[i]).None? then None
    else Some(OrderReturns(assets, order))
  }

  /** One cloud point from one draw: None for the NaN point a zero total gives. */
  function CloudPoint(mu: seq<real>, cov: seq<seq<real>>, draw: seq<real>, sqrt: SqrtFn): Option<Point>
    requires |draw| == |mu| && IsSquare(cov, |mu|)
  {
    match Normalize(draw)
    case None => None
    case Some(w) => Some(Point(sqrt(Dot(VecMat(w, cov), w)) * 100.0, Dot(w, mu) * 100.0))
  }

  /** Math.random: numPoints draws, each with one number in [0, 1) per ticker. */
  predicate RandomDraws(draws: seq<seq<real>>, n: nat)
  {
    |draws| == NumPoints && forall i :: 0 <= i < |draws| ==> |draws[i]| == n && forall j :: 0 <= j < n ==> 0.0 <= draws[i][j] < 1.0
  }

  /**
   * efficientFrontier: no points while loading; otherwise one point per
   * draw, or None when the memo throws (a ticker no asset is called, or a
   * covariance matrix that is not n by n).
   */
  method Cloud(loading: bool, d: MarketData, draws: seq<seq<real>>, sqrt: SqrtFn) returns (r: Option<seq<Option<Point>>>)
    requires RandomDraws(draws, |d.tickersOrder|)
    ensures loading ==> r == Some([])
    ensures !loading ==> (r.None? <==> CloudReturns(d.assets, d.tickersOrder).None? || !IsSquare(d.cov, |d.tickersOrder|))
    ensures !loading && r.Some? ==>
      var mu := CloudReturns(d.assets, d.tickersOrder).value;
      |r.value| == NumPoints && forall i :: 0 <= i < NumPoints ==> r.value[i] == CloudPoint(mu, d.cov, draws[i], sqrt)
  {
    if loading {
      return Some([]);
    }
    var n := |d.tickersOrder|;
    var muOpt := CloudReturns(d.assets, d.tickersOrder);
    if muOpt.None? || !IsSquare(d.cov, n) {
      return None;
    }
    var mu := muOpt.value;
    var points: seq<Option<Point>> := [];
    for i := 0 to NumPoints
      invariant |points| == i
      invariant forall t :: 0 <= t < i ==> points[t] == CloudPoint(mu, d.cov, draws[t], sqrt)
    {
      points := points + [CloudPoint(mu, d.cov, draws[i], sqrt)];
    }
    r := Some(points);
  }

  /**
   * Every cloud point is a long-only, fully invested portfolio, so its
   * return lies between the smallest and the largest ticker return.
   */
  lemma CloudReturnBounds(mu: seq<real>, cov: seq<seq<real>>, draw: seq<real>, sqrt: SqrtFn)
    requires |draw| == |mu| > 0 && IsSquare(cov, |mu|)
    requires forall j :: 0 <= j < |draw| ==> 0.0 <= draw[j]
    ensures CloudPoint(mu, cov, draw, sqrt).Some? ==>
      MinOf(mu) * 100.0 <= CloudPoint(mu, cov, draw, sqrt).value.y <= MaxOf(mu) * 100.0
  {
    if Normalize(draw).Some? {
      NormalizeIsDistribution(draw);
      ConvexCombinationBounds(Normalize(draw).value, mu, MinOf(mu), MaxOf(mu));
    }
  }
}
