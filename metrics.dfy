/**
  The five summed report metrics and the five ratios derived from them.
  Money is exact (`real`); a ratio whose denominator is zero is `None`
  where pandas would show inf or NaN.
 */
module Metrics {
  import opened Wrappers

  /** Impressions, Clicks, Spend, Sales and Units of one row or one group. */
  datatype Metrics = Metrics(impressions: int, clicks: int, spend: real, sales: real, units: int)

  const Zero := Metrics(0, 0, 0.0, 0.0, 0)

  /** Column-wise sum of two metric records. */
  function Add(a: Metrics, b: Metrics): Metrics
  {
    Metrics(a.impressions + b.impressions, a.clicks + b.clicks, a.spend + b.spend,
            a.sales + b.sales, a.units + b.units)
  }

  /** `k` copies of the same row's metrics, summed. */
  function Scale(k: nat, m: Metrics): Metrics
  {
    Metrics(k * m.impressions, k * m.clicks, (k as real) * m.spend, (k as real) * m.sales, k * m.units)
  }

  lemma AddZero(m: Metrics)
    ensures Add(Zero, m) == m && Add(m, Zero) == m
  {
  }

  lemma AddAssociative(a: Metrics, b: Metrics, c: Metrics)
    ensures Add(Add(a, b), c) == Add(a, Add(b, c))
  {
  }

  lemma ScaleSucc(k: nat, m: Metrics)
    ensures Add(Scale(k, m), m) == Scale(k + 1, m)
  {
    assert (k as real) * m.spend + m.spend == ((k + 1) as real) * m.spend;
    assert (k as real) * m.sales + m.sales == ((k + 1) as real) * m.sales;
  }

  /** `num / den` with an undefined cell for a zero denominator. */
  function Ratio(num: real, den: real): (r: Option<real>)
    ensures r.Some? <==> den != 0.0
    ensures r.Some? ==> r.value * den == num
  {
    if den == 0.0 then None else Some(num / den)
  }

  /** CTR, Conversion Rate, ACOS, CPA and CPC of one group. */
  datatype Ratios = Ratios(ctr: Option<real>, conversionRate: Option<real>, acos: Option<real>,
                           cpa: Option<real>, cpc: Option<real>)

  /**
    The derived columns: CTR = Clicks / Impressions, Conversion Rate =
    Units / Clicks, ACOS = Spend / Sales, CPA = Spend / Units and
    CPC = Spend / Clicks, each undefined exactly when its denominator is 0.
   */
  function DeriveRatios(m: Metrics): (r: Ratios)
    ensures (r.ctr.Some? <==> m.impressions != 0)
      && (r.ctr.Some? ==> r.ctr.value * (m.impressions as real) == m.clicks as real)
    ensures (r.conversionRate.Some? <==> m.clicks != 0)
      && (r.conversionRate.Some? ==> r.conversionRate.value * (m.clicks as real) == m.units as real)
    ensures (r.acos.Some? <==> m.sales != 0.0)
      && (r.acos.Some? ==> r.acos.value * m.sales == m.spend)
    ensures (r.cpa.Some? <==> m.units != 0)
      && (r.cpa.Some? ==> r.cpa.value * (m.units as real) == m.spend)
    ensures (r.cpc.Some? <==> m.clicks != 0)
      && (r.cpc.Some? ==> r.cpc.value * (m.clicks as real) == m.spend)
  {
    Ratios(Ratio(m.clicks as real, m.impressions as real),
           Ratio(m.units as real, m.clicks as real),
           Ratio(m.spend, m.sales),
           Ratio(m.spend, m.units as real),
           Ratio(m.spend, m.clicks as real))
  }
}
