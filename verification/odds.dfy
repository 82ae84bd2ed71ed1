/**
 Bookmaker odds to fair probabilities (`fair_probabilities` in oddsapi.py).

 Each decimal price above 1 is turned into its implied probability 1/price
 (a price of 1 or less gives 0), keyed by outcome name; the values are then
 divided by their total so that the bookmaker's overround is removed. When the
 total is not positive the raw values are returned unchanged.

 The Python dict is modelled as its key order plus a map. Building it from
 the outcome list follows dict-comprehension semantics: a repeated name keeps
 the position of its first occurrence and the value of its last one.
 */
module Odds {
  import opened Collections
  import opened Records

  /** A dict from outcome name to probability: the keys in insertion order and their values. */
  datatype Dict = Dict(keys: seq<string>, values: map<string, real>)

  /** The key order lists each key of the map exactly once. */
  ghost predicate Valid(d: Dict) {
    (forall i, j :: 0 <= i < j < |d.keys| ==> d.keys[i] != d.keys[j])
    && (forall k :: k in d.values <==> k in d.keys)
  }

  /** `d.get(k, default)`. */
  function Get(d: Dict, k: string, default: real): real {
    if k in d.values then d.values[k] else default
  }

  /** Every value of the dictionary is a probability. */
  predicate ProbabilityDict(d: Dict) {
    forall x :: x in d.values ==> 0.0 <= d.values[x] <= 1.0
  }

  /** `d[k] = v`: a new key goes to the end, an existing key keeps its place. */
  function Put(d: Dict, k: string, v: real): (r: Dict)
    requires Valid(d)
    ensures Valid(r)
    ensures r.values == d.values[k := v]
    ensures k in d.values ==> r.keys == d.keys
    ensures k !in d.values ==> r.keys == d.keys + [k]
  {
    if k in d.values then Dict(d.keys, d.values[k := v]) else Dict(d.keys + [k], d.values[k := v])
  }

  /** The implied probability of one decimal price: 1/price above 1, else 0. */
  function RawValue(price: real): (p: real)
    ensures price > 1.0 ==> 0.0 < p < 1.0 && p * price == 1.0
    ensures price <= 1.0 ==> p == 0.0
  {
    if price > 1.0 then 1.0 / price else 0.0
  }

  /** A higher price implies a strictly lower raw probability. */
  lemma RawValueAntitone(pa: real, pb: real)
    requires pa > pb > 1.0
    ensures RawValue(pa) < RawValue(pb)
  {
    var a := RawValue(pa);
    var b := RawValue(pb);
    assert a * pa == 1.0 && b * pb == 1.0;
    if a >= b {
      assert a * pa >= b * pa;
      assert b * pa > b * pb;
    }
  }

  /** The names of the outcomes. */
  function Names(outs: seq<BookOutcome>): set<string> {
    set i | 0 <= i < |outs| :: outs[i].name
  }

  /** The raw dict `{o.name: raw(o.price) for o in outcomes}`, built left to right. */
  function RawOdds(outs: seq<BookOutcome>): (d: Dict)
    ensures Valid(d)
    ensures d.values.Keys == Names(outs)
    ensures forall x :: x in d.values ==> d.values[x] >= 0.0
    decreases |outs|
  {
    if |outs| == 0 then Dict([], map[])
    else
      var n := |outs| - 1;
      assert Names(outs) == Names(outs[..n]) + {outs[n].name} by {
        assert forall i :: 0 <= i < n ==> outs[..n][i] == outs[i];
      }
      Put(RawOdds(outs[..n]), outs[n].name, RawValue(outs[n].price))
  }

  /** The raw dictionary of a list is the one of its prefix with the last outcome stored. */
  lemma RawOddsStep(outs: seq<BookOutcome>)
    requires |outs| > 0
    ensures RawOdds(outs) == Put(RawOdds(outs[..|outs| - 1]), outs[|outs| - 1].name, RawValue(outs[|outs| - 1].price))
  {
  }

  /** The value stored for a name is the raw value of the LAST outcome carrying it. */
  lemma {:induction false} RawOddsLastWins(outs: seq<BookOutcome>, i: nat)
    requires i < |outs|
    requires forall j :: i < j < |outs| ==> outs[j].name != outs[i].name
    ensures RawOdds(outs).values[outs[i].name] == RawValue(outs[i].price)
    decreases |outs|
  {
    var n := |outs| - 1;
    var prev := RawOdds(outs[..n]);
    assert RawOdds(outs).values == prev.values[outs[n].name := RawValue(outs[n].price)];
    if i < n {
      assert outs[..n][i] == outs[i];
      assert forall j :: i < j < n ==> outs[..n][j] == outs[j];
      RawOddsLastWins(outs[..n], i);
    }
  }

  /** The sum of the values of `keys` in `m`. */
  function Sum(keys: seq<string>, m: map<string, real>): real
    requires forall i :: 0 <= i < |keys| ==> keys[i] in m
    decreases |keys|
  {
    if |keys| == 0 then 0.0 else Sum(keys[..|keys| - 1], m) + m[keys[|keys| - 1]]
  }

  /** `sum(d.values())`. */
  function SumValues(d: Dict): real
    requires Valid(d)
  {
    Sum(d.keys, d.values)
  }

  /** A sum of non-negative values is non-negative and at least each of them. */
  lemma {:induction false} SumBoundsEach(keys: seq<string>, m: map<string, real>, i: nat)
    requires forall j :: 0 <= j < |keys| ==> keys[j] in m && m[keys[j]] >= 0.0
    requires i < |keys|
    ensures 0.0 <= m[keys[i]] <= Sum(keys, m)
    decreases |keys|
  {
    var n := |keys| - 1;
    assert forall j :: 0 <= j < n ==> keys[..n][j] == keys[j];
    SumNonNegative(keys[..n], m);
    if i < n {
      SumBoundsEach(keys[..n], m, i);
    }
  }

  lemma {:induction false} SumNonNegative(keys: seq<string>, m: map<string, real>)
    requires forall j :: 0 <= j < |keys| ==> keys[j] in m && m[keys[j]] >= 0.0
    ensures Sum(keys, m) >= 0.0
    decreases |keys|
  {
    if |keys| > 0 {
      var n := |keys| - 1;
      assert forall j :: 0 <= j < n ==> keys[..n][j] == keys[j];
      SumNonNegative(keys[..n], m);
    }
  }

  /** Every value divided by `total`, keys and order unchanged. */
  function Scale(d: Dict, total: real): (r: Dict)
    requires Valid(d) && total > 0.0
    ensures Valid(r) && r.keys == d.keys
    ensures forall k :: k in r.values ==> r.values[k] == d.values[k] / total
  {
    Dict(d.keys, map k | k in d.values :: d.values[k] / total)
  }

  /** Dividing every value by `total` divides the sum by `total`. */
  lemma {:induction false} SumScale(keys: seq<string>, m: map<string, real>, scaled: map<string, real>, total: real)
    requires total > 0.0
    requires forall i :: 0 <= i < |keys| ==> keys[i] in m && keys[i] in scaled && scaled[keys[i]] == m[keys[i]] / total
    ensures Sum(keys, scaled) == Sum(keys, m) / total
    decreases |keys|
  {
    if |keys| > 0 {
      var n := |keys| - 1;
      assert forall j :: 0 <= j < n ==> keys[..n][j] == keys[j];
      SumScale(keys[..n], m, scaled, total);
      var a := Sum(keys[..n], m);
      var b := m[keys[n]];
      assert (a + b) / total == a / total + b / total;
    }
  }

  /** Dividing every value by the sum of all values makes them sum to 1. */
  lemma ScaleBySumIsOne(d: Dict)
    requires Valid(d) && SumValues(d) > 0.0
    ensures SumValues(Scale(d, SumValues(d))) == 1.0
  {
    var total := SumValues(d);
    var r := Scale(d, total);
    assert forall i :: 0 <= i < |d.keys| ==> d.keys[i] in d.values && d.keys[i] in r.values;
    SumScale(d.keys, d.values, r.values, total);
    SelfShare(total);
  }

  lemma SelfShare(x: real)
    requires x > 0.0
    ensures x / x == 1.0
  {
  }

  /** `fair_probabilities`: the raw values normalised by their total, or the
      raw dict itself when that total is not positive. */
  function FairProbabilities(outs: seq<BookOutcome>): (d: Dict)
    ensures Valid(d) && d.keys == RawOdds(outs).keys
    ensures d.values.Keys == Names(outs)
    ensures ProbabilityDict(d)
    ensures SumValues(RawOdds(outs)) > 0.0 ==> SumValues(d) == 1.0
    ensures SumValues(RawOdds(outs)) > 0.0 ==>
              forall x :: x in d.values ==> d.values[x] == RawOdds(outs).values[x] / SumValues(RawOdds(outs))
    ensures SumValues(RawOdds(outs)) <= 0.0 ==> d == RawOdds(outs)
  {
    var raw := RawOdds(outs);
    var total := SumValues(raw);
    ValuesBelowSum(raw);
    if total > 0.0 then
      var r := Scale(raw, total);
      ScaleBySumIsOne(raw);
      assert forall x :: x in r.values ==> 0.0 <= r.values[x] <= 1.0 by {
        forall x | x in r.values
          ensures 0.0 <= r.values[x] <= 1.0
        {
          ShareBounds(raw.values[x], total);
        }
      }
      r
    else
      raw
  }

  /** A non-negative part of a positive total is a share in [0, 1]. */
  lemma ShareBounds(part: real, total: real)
    requires 0.0 <= part <= total && total > 0.0
    ensures 0.0 <= part / total <= 1.0
  {
    assert part / total * total == part;
  }

  /** In a dict of non-negative values, each value lies between 0 and the sum. */
  lemma ValuesBelowSum(d: Dict)
    requires Valid(d)
    requires forall x :: x in d.values ==> d.values[x] >= 0.0
    ensures forall x :: x in d.values ==> 0.0 <= d.values[x] <= SumValues(d)
  {
    forall x | x in d.values
      ensures d.values[x] <= SumValues(d)
    {
      var i :| 0 <= i < |d.keys| && d.keys[i] == x;
      SumBoundsEach(d.keys, d.values, i);
    }
  }

  /** When no price exceeds 1 every raw value is 0, so the fair dict is the raw
      one, all zeros. */
  lemma NoValidPriceGivesZeros(outs: seq<BookOutcome>)
    requires forall i :: 0 <= i < |outs| ==> outs[i].price <= 1.0
    ensures FairProbabilities(outs) == RawOdds(outs)
    ensures AllZero(FairProbabilities(outs))
  {
    RawOddsAllZero(outs);
    var raw := RawOdds(outs);
    ZeroSum(raw.keys, raw.values);
  }

  /** Every value of the dictionary is 0. */
  predicate AllZero(d: Dict) {
    forall x :: x in d.values ==> d.values[x] == 0.0
  }

  lemma PutZeroKeepsAllZero(d: Dict, k: string)
    requires Valid(d) && AllZero(d)
    ensures AllZero(Put(d, k, 0.0))
  {
    var m := Put(d, k, 0.0).values;
    forall x | x in m
      ensures m[x] == 0.0
    {
      if x != k {
        assert x in d.values;
      }
    }
  }

  lemma {:induction false} RawOddsAllZero(outs: seq<BookOutcome>)
    requires forall i :: 0 <= i < |outs| ==> outs[i].price <= 1.0
    ensures AllZero(RawOdds(outs))
    decreases |outs|
  {
    if |outs| > 0 {
      var n := |outs| - 1;
      var pre := outs[..n];
      assert forall i :: 0 <= i < |pre| ==> pre[i].price <= 1.0 by {
        assert forall i :: 0 <= i < |pre| ==> pre[i] == outs[i];
      }
      RawOddsAllZero(pre);
      RawOddsStep(outs);
      assert RawValue(outs[n].price) == 0.0;
      PutZeroKeepsAllZero(RawOdds(pre), outs[n].name);
    }
  }

  lemma {:induction false} ZeroSum(keys: seq<string>, m: map<string, real>)
    requires forall i :: 0 <= i < |keys| ==> keys[i] in m && m[keys[i]] == 0.0
    ensures Sum(keys, m) == 0.0
    decreases |keys|
  {
    if |keys| > 0 {
      var n := |keys| - 1;
      assert forall j :: 0 <= j < n ==> keys[..n][j] == keys[j];
      ZeroSum(keys[..n], m);
    }
  }

  /** When every price exceeds 1 and there is at least one outcome, the fair
      probabilities sum to exactly 1. */
  lemma AllValidPricesSumToOne(outs: seq<BookOutcome>)
    requires |outs| > 0
    requires forall i :: 0 <= i < |outs| ==> outs[i].price > 1.0
    ensures SumValues(FairProbabilities(outs)) == 1.0
  {
    ValidLastPriceSumsToOne(outs, |outs| - 1);
  }

  /** One name whose last price is valid is enough for the fair values to sum to one
      (an earlier valid price can be overwritten by a later invalid one for the same name). */
  lemma ValidLastPriceSumsToOne(outs: seq<BookOutcome>, i: nat)
    requires i < |outs| && outs[i].price > 1.0
    requires forall j :: i < j < |outs| ==> outs[j].name != outs[i].name
    ensures SumValues(FairProbabilities(outs)) == 1.0
  {
    var raw := RawOdds(outs);
    RawOddsLastWins(outs, i);
    ValuesBelowSum(raw);
    assert raw.values[outs[i].name] > 0.0;
  }

  /** Of two names whose last prices are valid, the one with the higher price
      (the longer shot) gets the strictly lower fair probability. */
  lemma FairAntitone(outs: seq<BookOutcome>, a: nat, b: nat)
    requires a < |outs| && b < |outs|
    requires forall j :: a < j < |outs| ==> outs[j].name != outs[a].name
    requires forall j :: b < j < |outs| ==> outs[j].name != outs[b].name
    requires outs[a].price > outs[b].price > 1.0
    ensures Get(FairProbabilities(outs), outs[a].name, 0.0) < Get(FairProbabilities(outs), outs[b].name, 0.0)
  {
    var raw := RawOdds(outs);
    var total := SumValues(raw);
    RawOddsLastWins(outs, a);
    RawOddsLastWins(outs, b);
    RawValueAntitone(outs[a].price, outs[b].price);
    ValuesBelowSum(raw);
    var va := raw.values[outs[a].name];
    var vb := raw.values[outs[b].name];
    assert 0.0 <= va < vb <= total;
    ShareMonotone(va, vb, total);
  }

  /** Dividing by the same positive total keeps a strict order. */
  lemma ShareMonotone(a: real, b: real, total: real)
    requires a < b && total > 0.0
    ensures a / total < b / total
  {
    assert a / total * total == a && b / total * total == b;
  }
}
