/**
 * The market data both pages work on: assets with their expected return,
 * a covariance matrix aligned with the asset order, and name-keyed weight
 * maps in percent.
 */
module Market {
  import opened LinAlg

  /** One asset of a period; `ret` and `risk` are decimal fractions (0.07 is 7%). */
  datatype Asset = Asset(name: string, ret: real, risk: real)

  /** One analysis period: row and column i of `cov` belong to `assets[i]`. */
  datatype Period = Period(assets: seq<Asset>, cov: seq<seq<real>>)

  /** A portfolio's expected return and risk, both in percent. */
  datatype Stats = Stats(ret: real, risk: real)

  /** A frontier point: x is the risk and y the return, both in percent. */
  datatype Point = Point(x: real, y: real)

  /** A weight assignment: asset name to percentage. */
  type Weights = map<string, real>

  /** Math.sqrt; only its value at the computed variance is ever used. */
  type SqrtFn = real -> real

  /** What the model asks of Math.sqrt when it speaks of risk: the root of a non-negative number is non-negative. */
  ghost predicate NonNegativeRoot(sqrt: SqrtFn)
  {
    forall x :: 0.0 <= x ==> 0.0 <= sqrt(x)
  }

  /** `weights[name] || 0`: an absent name weighs nothing. */
  function WeightOf(m: Weights, name: string): real
  {
    if name in m then m[name] else 0.0
  }

  /** The covariance matrix is n by n for n assets. */
  predicate ValidPeriod(p: Period)
  {
    IsSquare(p.cov, |p.assets|)
  }

  predicate UniqueNames(assets: seq<Asset>)
  {
    forall i, j :: 0 <= i < j < |assets| ==> assets[i].name != assets[j].name
  }

  function Names(assets: seq<Asset>): set<string>
  {
    set i | 0 <= i < |assets| :: assets[i].name
  }

  function Returns(assets: seq<Asset>): (r: seq<real>)
    ensures |r| == |assets|
    ensures forall i :: 0 <= i < |assets| ==> r[i] == assets[i].ret
  {
    seq(|assets|, i requires 0 <= i < |assets| => assets[i].ret)
  }
}
