/**
 The prediction-market side (polymarket.py): turning the market records the
 Gamma API returns into `PolyMarket`s, and the liquidity/volume filter.

 The HTTP request, JSON decoding and the `id` field (never read by the scan)
 are not modelled: a raw record arrives with its lists already decoded, and a
 number field says whether it was absent, a number, or something `float()`
 rejects.
 */
module Polymarket {
  import opened Collections
  import opened Text
  import opened Records

  const UrlPrefix: string := "https://polymarket.com/event/"
  const DefaultMinLiquidity: real := 1000.0
  const DefaultMinVolume: real := 5000.0

  /** A numeric field of a raw record: absent (missing, null, or an empty
      string), a number, or any other value `float()` raises on. */
  datatype NumField = Absent | Number(value: real) | Malformed

  /** One market record as the API returns it. `daysToEnd` is the number of
      days to the market's end date, computed by the caller from the clock. */
  datatype RawMarket = RawMarket(
    question: string,
    outcomes: seq<string>,
    prices: seq<NumField>,
    liquidity: NumField,
    volume: NumField,
    slug: string,
    daysToEnd: Option<int>)

  /** The shape check: non-empty outcome and price lists of equal length. */
  predicate WellShaped(outcomes: seq<string>, prices: seq<NumField>) {
    |outcomes| > 0 && |prices| > 0 && |outcomes| == |prices|
  }

  /** `float(x or 0)`, for liquidity and volume: an absent value reads as 0,
      `None` for a value `float()` rejects. */
  function ToReal(f: NumField): (r: Option<real>)
    ensures r.None? <==> f.Malformed?
    ensures f.Absent? ==> r == Some(0.0)
    ensures f.Number? ==> r == Some(f.value)
  {
    match f
    case Absent => Some(0.0)
    case Number(v) => Some(v)
    case Malformed => None
  }

  /** `float(p)`, for one price: only a number converts; `float()` raises on
      an absent price as on a malformed one. */
  function PriceToReal(f: NumField): (r: Option<real>)
    ensures r.Some? <==> f.Number?
    ensures f.Number? ==> r == Some(f.value)
  {
    match f
    case Number(v) => Some(v)
    case _ => None
  }

  /** `[float(p) for p in prices]`: `None` as soon as one price is rejected. */
  function ToReals(ps: seq<NumField>): (r: Option<seq<real>>)
    ensures r.Some? <==> forall i :: 0 <= i < |ps| ==> ps[i].Number?
    ensures r.Some? ==> |r.value| == |ps| && forall i :: 0 <= i < |ps| ==> r.value[i] == ps[i].value
    decreases |ps|
  {
    if |ps| == 0 then Some([])
    else
      var head := PriceToReal(ps[0]);
      var tail := ToReals(ps[1..]);
      assert forall i :: 1 <= i < |ps| ==> ps[i] == ps[1..][i - 1];
      if head.Some? && tail.Some? then Some([head.value] + tail.value) else None
  }

  /**
   The body of the parsing loop, AS WRITTEN: a record is kept when it is well
   shaped and every number converts. The resulting market never carries a
   horizon, whatever the record says.
   */
  function ParseMarket(m: RawMarket): (r: Option<PolyMarket>)
    ensures r.Some? <==> WellShaped(m.outcomes, m.prices)
                         && (forall i :: 0 <= i < |m.prices| ==> m.prices[i].Number?)
                         && !m.liquidity.Malformed? && !m.volume.Malformed?
    ensures r.Some? ==> r.value.daysToEnd.None?
  {
    ParseWith(m, None)
  }

  /** The parsing loop with the horizon copied from the record. */
  function ParseMarketDated(m: RawMarket): (r: Option<PolyMarket>)
    ensures r.Some? <==> ParseMarket(m).Some?
    ensures r.Some? ==> r.value == ParseMarket(m).value.(daysToEnd := m.daysToEnd)
  {
    ParseWith(m, m.daysToEnd)
  }

  /** The record conversion shared by both parsers, with the horizon to attach. */
  function ParseWith(m: RawMarket, days: Option<int>): (r: Option<PolyMarket>)
    ensures r.Some? <==> WellShaped(m.outcomes, m.prices)
                         && (forall i :: 0 <= i < |m.prices| ==> m.prices[i].Number?)
                         && !m.liquidity.Malformed? && !m.volume.Malformed?
    ensures r.Some? ==> r.value.question == Strip(m.question)
                        && r.value.outcomes == m.outcomes
                        && |r.value.probabilities| == |m.outcomes|
                        && (forall i :: 0 <= i < |m.prices| ==> r.value.probabilities[i] == m.prices[i].value)
                        && Some(r.value.liquidity) == ToReal(m.liquidity)
                        && Some(r.value.volume) == ToReal(m.volume)
                        && r.value.url == UrlPrefix + m.slug
                        && r.value.daysToEnd == days
  {
    if !WellShaped(m.outcomes, m.prices) then None
    else
      match (ToReals(m.prices), ToReal(m.liquidity), ToReal(m.volume))
      case (Some(ps), Some(liq), Some(vol)) =>
        Some(PolyMarket(Strip(m.question), m.outcomes, ps, liq, vol, days, UrlPrefix + m.slug))
      case _ => None
  }

  /** `fetch_political_markets` after the request: parse every record, skip the rejected ones. */
  function ParseMarkets(raws: seq<RawMarket>): (r: seq<PolyMarket>)
    ensures |r| <= |raws|
    ensures forall i :: 0 <= i < |r| ==> r[i].daysToEnd.None?
    ensures forall i :: 0 <= i < |r| ==> |r[i].outcomes| == |r[i].probabilities| > 0
    ensures forall j :: 0 <= j < |raws| && ParseMarket(raws[j]).Some? ==> ParseMarket(raws[j]).value in r
    decreases |raws|
  {
    if |raws| == 0 then []
    else
      var rest := ParseMarkets(raws[1..]);
      assert forall j :: 1 <= j < |raws| ==> raws[j] == raws[1..][j - 1];
      match ParseMarket(raws[0])
      case Some(pm) => [pm] + rest
      case None => rest
  }

  /** The same loop with each record's horizon attached. */
  function ParseMarketsDated(raws: seq<RawMarket>): (r: seq<PolyMarket>)
    ensures |r| <= |raws|
    ensures forall i :: 0 <= i < |r| ==> |r[i].outcomes| == |r[i].probabilities| > 0
    decreases |raws|
  {
    if |raws| == 0 then []
    else
      var rest := ParseMarketsDated(raws[1..]);
      match ParseMarketDated(raws[0])
      case Some(pm) => [pm] + rest
      case None => rest
  }

  /** Every record the dated parser accepts appears, with its horizon, among the dated markets. */
  lemma {:induction false} ParseMarketsDatedKeeps(raws: seq<RawMarket>, j: nat)
    requires j < |raws| && ParseMarketDated(raws[j]).Some?
    ensures ParseMarketDated(raws[j]).value in ParseMarketsDated(raws)
    decreases |raws|
  {
    if j > 0 {
      ParseMarketsDatedKeeps(raws[1..], j - 1);
      assert raws[1..][j - 1] == raws[j];
    }
  }

  /** The parsed markets are exactly the conversions of the records the parser accepts. */
  lemma {:induction false} ParseMarketsMembers(raws: seq<RawMarket>, pm: PolyMarket)
    ensures pm in ParseMarkets(raws) <==> exists j :: 0 <= j < |raws| && ParseMarket(raws[j]) == Some(pm)
    decreases |raws|
  {
    if |raws| > 0 {
      var rest := raws[1..];
      var head := ParseMarket(raws[0]);
      assert ParseMarkets(raws) == (if head.Some? then [head.value] else []) + ParseMarkets(rest);
      ParseMarketsMembers(rest, pm);
      if j :| 0 < j < |raws| && ParseMarket(raws[j]) == Some(pm) {
        assert rest[j - 1] == raws[j];
      }
      if pm in ParseMarkets(rest) {
        var j :| 0 <= j < |rest| && ParseMarket(rest[j]) == Some(pm);
        assert raws[j + 1] == rest[j];
      }
    }
  }

  /** The dated markets are exactly the dated conversions of the records the parser accepts. */
  lemma {:induction false} ParseMarketsDatedMembers(raws: seq<RawMarket>, pm: PolyMarket)
    ensures pm in ParseMarketsDated(raws) <==> exists j :: 0 <= j < |raws| && ParseMarketDated(raws[j]) == Some(pm)
    decreases |raws|
  {
    if |raws| > 0 {
      var rest := raws[1..];
      var head := ParseMarketDated(raws[0]);
      assert ParseMarketsDated(raws) == (if head.Some? then [head.value] else []) + ParseMarketsDated(rest);
      ParseMarketsDatedMembers(rest, pm);
      if j :| 0 < j < |raws| && ParseMarketDated(raws[j]) == Some(pm) {
        assert rest[j - 1] == raws[j];
      }
      if pm in ParseMarketsDated(rest) {
        var j :| 0 <= j < |rest| && ParseMarketDated(rest[j]) == Some(pm);
        assert raws[j + 1] == rest[j];
      }
    }
  }

  /** Both loops keep the same records; the dated one differs only in the horizon. */
  lemma {:induction false} ParseMarketsDatedAgrees(raws: seq<RawMarket>)
    ensures |ParseMarketsDated(raws)| == |ParseMarkets(raws)|
    ensures forall i :: 0 <= i < |ParseMarkets(raws)| ==>
              ParseMarketsDated(raws)[i] == ParseMarkets(raws)[i].(daysToEnd := ParseMarketsDated(raws)[i].daysToEnd)
    decreases |raws|
  {
    if |raws| > 0 {
      ParseMarketsDatedAgrees(raws[1..]);
    }
  }

  /** A market passes when either its liquidity or its volume reaches its threshold. */
  predicate Passes(m: PolyMarket, minLiquidity: real, minVolume: real) {
    m.liquidity >= minLiquidity || m.volume >= minVolume
  }

  /** `filter_markets`: the passing markets, in order. */
  function FilterMarkets(markets: seq<PolyMarket>, minLiquidity: real, minVolume: real): (r: seq<PolyMarket>)
    ensures |r| <= |markets|
    ensures forall m :: m in r <==> m in markets && Passes(m, minLiquidity, minVolume)
  {
    FilterSpec(markets, (m: PolyMarket) => Passes(m, minLiquidity, minVolume));
    Filter(markets, (m: PolyMarket) => Passes(m, minLiquidity, minVolume))
  }

  /** A market with volume at the default 5000 passes whatever the liquidity floor. */
  lemma HighVolumeAlwaysKept(markets: seq<PolyMarket>, minLiquidity: real, i: nat)
    requires i < |markets| && markets[i].volume >= DefaultMinVolume
    ensures markets[i] in FilterMarkets(markets, minLiquidity, DefaultMinVolume)
  {
  }

  /** Filtering again with the same thresholds changes nothing. */
  lemma FilterMarketsIdempotent(markets: seq<PolyMarket>, minLiquidity: real, minVolume: real)
    ensures FilterMarkets(FilterMarkets(markets, minLiquidity, minVolume), minLiquidity, minVolume)
            == FilterMarkets(markets, minLiquidity, minVolume)
  {
    FilterIdempotent(markets, (m: PolyMarket) => Passes(m, minLiquidity, minVolume));
  }

  /** Raising both thresholds only removes markets: filtering with the looser
      thresholds first and the stricter ones second is filtering with the stricter ones. */
  lemma FilterMarketsMonotone(markets: seq<PolyMarket>, l1: real, v1: real, l2: real, v2: real)
    requires l1 <= l2 && v1 <= v2
    ensures FilterMarkets(FilterMarkets(markets, l1, v1), l2, v2) == FilterMarkets(markets, l2, v2)
  {
    FilterNarrow(markets, (m: PolyMarket) => Passes(m, l1, v1), (m: PolyMarket) => Passes(m, l2, v2));
  }
}
