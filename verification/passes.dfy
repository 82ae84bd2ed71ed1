/**
 The two alert-producing passes of the scan (`_run_scan` in app.py).

 Pass 1 pairs each prediction market with its best bookmaker event and, in
 every "h2h" market of every bookmaker of that event, each of the market's
 outcome labels with a bookmaker outcome. Pass 2 walks every "outrights"
 market of every event and pairs each runner with a binary "Yes" market.
 Each pairing that survives becomes an `Alert` whose delta is the
 prediction-market probability minus the bookmaker's fair probability.

 The inner layers take the matcher they call as a parameter (`LabelMatcher`,
 `RunnerMatcher`); the outer functions `Pass1` and `Pass2` instantiate it with
 `FindMatchingOutcome` and `FindPolyForCandidate`.
 */
module Passes {
  import opened Collections
  import opened Records
  import opened Matcher
  import opened Odds

  const H2H: string := "h2h"
  const Outrights: string := "outrights"
  /** The fixed match score recorded on every pass-2 alert. */
  const OutrightMatchScore: real := 0.9

  /** Pairs an outcome label with a bookmaker outcome name and its decimal odds. */
  type LabelMatcher = (string, seq<BookOutcome>) -> Option<(string, real)>
  /** Pairs a runner name with a prediction market and its "Yes" probability. */
  type RunnerMatcher = string -> Option<(PolyMarket, real)>

  /** The alert's delta is its prediction-market probability minus its bookmaker probability. */
  predicate DeltaConsistent(a: Alert) {
    a.delta == a.polyProb - a.bookieProb
  }

  // ---------------------------------------------------------------------------
  // Pass 1: head-to-head markets

  /** A pass-1 alert for one of the labels of market `pm`, with event match score `matchScore`. */
  predicate H2HAlertOf(a: Alert, pm: PolyMarket, matchScore: real) {
    && DeltaConsistent(a)
    && a.question == pm.question
    && a.outcome in pm.outcomes
    && a.matchScore == matchScore
    && 0.0 <= a.bookieProb <= 1.0
  }

  /** A pass-1 alert for market `pm`, raised from bookmaker `bmName`. */
  predicate H2HAlertFrom(a: Alert, pm: PolyMarket, bmName: string, matchScore: real) {
    H2HAlertOf(a, pm, matchScore) && a.bookmaker == bmName
  }

  /**
   One pass-1 pairing: outcome label `i` of the prediction market against an
   h2h market with fair probabilities `fair`. Skipped when `i` has no
   probability, when no bookmaker outcome matches, or when the match has an
   empty name or zero odds.
   */
  function Pass1Pairing(find: LabelMatcher, pm: PolyMarket, bmName: string, outs: seq<BookOutcome>,
                        fair: Dict, matchScore: real, i: nat): (r: Option<Alert>)
    ensures r.None? <==> i >= |pm.outcomes| || i >= |pm.probabilities|
                         || find(pm.outcomes[i], outs).None?
                         || find(pm.outcomes[i], outs).value.0 == ""
                         || find(pm.outcomes[i], outs).value.1 == 0.0
    ensures r.Some? ==>
      var m := find(pm.outcomes[i], outs).value;
      && r.value.question == pm.question
      && r.value.outcome == pm.outcomes[i]
      && r.value.polyProb == pm.probabilities[i]
      && r.value.bookieProb == Get(fair, m.0, 0.0)
      && r.value.decimalOdds == m.1
      && DeltaConsistent(r.value)
      && r.value.bookmaker == bmName
      && r.value.matchScore == matchScore
      && (r.value.liquidity, r.value.volume, r.value.daysToEnd, r.value.url)
         == (pm.liquidity, pm.volume, pm.daysToEnd, pm.url)
  {
    if i >= |pm.outcomes| || i >= |pm.probabilities| then None
    else
      match find(pm.outcomes[i], outs)
      case None => None
      case Some((name, odds)) =>
        if name == "" || odds == 0.0 then None
        else
          var polyProb := pm.probabilities[i];
          var bookieProb := Get(fair, name, 0.0);
          Some(Alert(pm.question, pm.outcomes[i], polyProb, bookieProb, odds, polyProb - bookieProb,
                     bmName, matchScore, pm.liquidity, pm.volume, pm.daysToEnd, pm.url))
  }

  /** Pass-1 pairing against a fixed h2h market, as a function of the label index. */
  function Pass1PairingOf(find: LabelMatcher, pm: PolyMarket, bmName: string, outs: seq<BookOutcome>,
                          fair: Dict, matchScore: real): nat -> Option<Alert>
  {
    (i: nat) => Pass1Pairing(find, pm, bmName, outs, fair, matchScore, i)
  }

  /** The pairings of all labels against one h2h market are pass-1 alerts of `pm` from `bmName`. */
  lemma Pass1PairingsShape(find: LabelMatcher, pm: PolyMarket, bmName: string, outs: seq<BookOutcome>,
                           fair: Dict, matchScore: real)
    requires ProbabilityDict(fair)
    ensures var r := FilterMap(Pass1PairingOf(find, pm, bmName, outs, fair, matchScore), Indices(|pm.outcomes|));
            forall k :: 0 <= k < |r| ==> H2HAlertFrom(r[k], pm, bmName, matchScore)
  {
    var pairing := Pass1PairingOf(find, pm, bmName, outs, fair, matchScore);
    var ix := Indices(|pm.outcomes|);
    var r := FilterMap(pairing, ix);
    forall k | 0 <= k < |r|
      ensures H2HAlertFrom(r[k], pm, bmName, matchScore)
    {
      var j :| 0 <= j < |ix| && pairing(ix[j]) == Some(r[k]);
      assert Pass1Pairing(find, pm, bmName, outs, fair, matchScore, j) == Some(r[k]);
      assert r[k].outcome == pm.outcomes[j];
    }
  }

  /** One bookmaker market: only "h2h" markets produce pass-1 alerts, and no more alerts than the market has outcome labels. */
  function Pass1Market(find: LabelMatcher, pm: PolyMarket, bmName: string, mkt: BookMarket, matchScore: real): (r: seq<Alert>)
    ensures mkt.key != H2H ==> r == []
    ensures |r| <= |pm.outcomes|
    ensures forall k :: 0 <= k < |r| ==> H2HAlertFrom(r[k], pm, bmName, matchScore)
  {
    if mkt.key != H2H then []
    else
      var fair := FairProbabilities(mkt.outcomes);
      Pass1PairingsShape(find, pm, bmName, mkt.outcomes, fair, matchScore);
      FilterMap(Pass1PairingOf(find, pm, bmName, mkt.outcomes, fair, matchScore), Indices(|pm.outcomes|))
  }

  /** The pass-1 alerts of one bookmaker: its markets in order. */
  function Pass1Bookmaker(find: LabelMatcher, pm: PolyMarket, mkts: seq<BookMarket>, bmName: string, matchScore: real): (r: seq<Alert>)
    ensures forall k :: 0 <= k < |r| ==> H2HAlertFrom(r[k], pm, bmName, matchScore)
    ensures (forall j :: 0 <= j < |mkts| ==> mkts[j].key != H2H) ==> r == []
    decreases |mkts|
  {
    if |mkts| == 0 then []
    else
      var n := |mkts| - 1;
      assert forall j :: 0 <= j < n ==> mkts[..n][j] == mkts[j];
      Pass1Bookmaker(find, pm, mkts[..n], bmName, matchScore) + Pass1Market(find, pm, bmName, mkts[n], matchScore)
  }

  /** The pass-1 alerts against one event: its bookmakers in order. */
  function Pass1Event(find: LabelMatcher, pm: PolyMarket, bms: seq<Bookmaker>, matchScore: real): (r: seq<Alert>)
    ensures forall k :: 0 <= k < |r| ==> H2HAlertOf(r[k], pm, matchScore)
    ensures |bms| == 0 ==> r == []
    decreases |bms|
  {
    if |bms| == 0 then []
    else
      var n := |bms| - 1;
      Pass1Event(find, pm, bms[..n], matchScore) + Pass1Bookmaker(find, pm, bms[n].markets, bms[n].title, matchScore)
  }

  /** `find_matching_outcome`, as the label matcher pass 1 calls. */
  function OutcomeMatcher(sim: Similarity): LabelMatcher {
    (polyOutcome: string, outs: seq<BookOutcome>) => FindMatchingOutcome(sim, polyOutcome, outs)
  }

  /** A pass-1 alert of some market, carrying an accepted event match score. */
  predicate Pass1AlertOk(a: Alert) {
    DeltaConsistent(a) && a.matchScore >= EventThreshold && 0.0 <= a.bookieProb <= 1.0
  }

  /** The pass-1 alerts of one prediction market: none when it matches no event. */
  function Pass1ForMarket(sim: Similarity, pm: PolyMarket, events: seq<OddsEvent>): (r: seq<Alert>)
    ensures FindBestEvent(sim, pm, events).0.None? ==> r == []
    ensures forall k :: 0 <= k < |r| ==> H2HAlertOf(r[k], pm, FindBestEvent(sim, pm, events).1)
    ensures forall k :: 0 <= k < |r| ==> Pass1AlertOk(r[k])
  {
    var best := FindBestEvent(sim, pm, events);
    match best.0
    case None => []
    case Some(e) => Pass1Event(OutcomeMatcher(sim), pm, e.bookmakers, best.1)
  }

  /** The prediction market matches no bookmaker event. */
  predicate Unmatched(sim: Similarity, events: seq<OddsEvent>, pm: PolyMarket) {
    FindBestEvent(sim, pm, events).0.None?
  }

  /** Selects the prediction markets that match no event of `events`. */
  function UnmatchedIn(sim: Similarity, events: seq<OddsEvent>): PolyMarket -> bool {
    (pm: PolyMarket) => Unmatched(sim, events, pm)
  }

  /** The pass-1 alerts of all prediction markets, market by market. */
  function Pass1Alerts(sim: Similarity, markets: seq<PolyMarket>, events: seq<OddsEvent>): (r: seq<Alert>)
    ensures forall k :: 0 <= k < |r| ==> Pass1AlertOk(r[k])
    decreases |markets|
  {
    if |markets| == 0 then []
    else
      var n := |markets| - 1;
      Pass1Alerts(sim, markets[..n], events) + Pass1ForMarket(sim, markets[n], events)
  }

  /** When no prediction market matches an event, pass 1 raises no alert. */
  lemma {:induction false} UnmatchedMarketsRaiseNothing(sim: Similarity, markets: seq<PolyMarket>, events: seq<OddsEvent>)
    requires forall i :: 0 <= i < |markets| ==> Unmatched(sim, events, markets[i])
    ensures Pass1Alerts(sim, markets, events) == []
    decreases |markets|
  {
    if |markets| > 0 {
      var n := |markets| - 1;
      UnmatchedMarketsRaiseNothing(sim, markets[..n], events);
      assert Unmatched(sim, events, markets[n]);
    }
  }

  /** Pass 1 over all prediction markets: the alerts and the number of unmatched markets. */
  function Pass1(sim: Similarity, markets: seq<PolyMarket>, events: seq<OddsEvent>): (r: (seq<Alert>, nat))
    ensures r.1 <= |markets|
    ensures r.1 == 0 <==> forall i :: 0 <= i < |markets| ==> !Unmatched(sim, events, markets[i])
    ensures r.1 == |markets| ==> r.0 == []
    ensures forall k :: 0 <= k < |r.0| ==> Pass1AlertOk(r.0[k])
  {
    var unmatched := Count(markets, UnmatchedIn(sim, events));
    var alerts := Pass1Alerts(sim, markets, events);
    assert unmatched == |markets| ==> alerts == [] by {
      if unmatched == |markets| {
        UnmatchedMarketsRaiseNothing(sim, markets, events);
      }
    }
    (alerts, unmatched)
  }

  // ---------------------------------------------------------------------------
  // Pass 2: outright markets

  /** Every pass-2 alert is a "Yes" alert with the fixed match score and a consistent delta. */
  predicate IsOutrightAlert(a: Alert) {
    a.outcome == "Yes" && a.matchScore == OutrightMatchScore && DeltaConsistent(a)
  }

  /** A pass-2 alert raised from bookmaker `bmName`, with a probability on the bookmaker side. */
  predicate OutrightAlertFrom(a: Alert, bmName: string) {
    IsOutrightAlert(a) && a.bookmaker == bmName && 0.0 <= a.bookieProb <= 1.0
  }

  /** The runner matcher finds no market for any runner. */
  ghost predicate MatchesNothing(find: RunnerMatcher) {
    forall c :: find(c).None?
  }

  /** One pass-2 pairing: a runner against the prediction markets. Skipped when no market matches. */
  function Pass2Pairing(find: RunnerMatcher, bmName: string, fair: Dict, o: BookOutcome): (r: Option<Alert>)
    ensures r.None? <==> find(o.name).None?
    ensures r.Some? ==>
      var m := find(o.name).value;
      && r.value.question == m.0.question
      && r.value.outcome == "Yes"
      && r.value.polyProb == m.1
      && r.value.bookieProb == Get(fair, o.name, 0.0)
      && r.value.decimalOdds == o.price
      && DeltaConsistent(r.value)
      && r.value.bookmaker == bmName
      && r.value.matchScore == OutrightMatchScore
      && (r.value.liquidity, r.value.volume, r.value.daysToEnd, r.value.url)
         == (m.0.liquidity, m.0.volume, m.0.daysToEnd, m.0.url)
  {
    match find(o.name)
    case None => None
    case Some((pm, polyProb)) =>
      var bookieProb := Get(fair, o.name, 0.0);
      Some(Alert(pm.question, "Yes", polyProb, bookieProb, o.price, polyProb - bookieProb,
                 bmName, OutrightMatchScore, pm.liquidity, pm.volume, pm.daysToEnd, pm.url))
  }

  /** Pass-2 pairing against a fixed outright market, as a function of the runner. */
  function Pass2PairingOf(find: RunnerMatcher, bmName: string, fair: Dict): BookOutcome -> Option<Alert> {
    (o: BookOutcome) => Pass2Pairing(find, bmName, fair, o)
  }

  /** The pairings of a runner list are outright alerts from `bmName`, and there are none when nothing matches. */
  lemma Pass2PairingsShape(find: RunnerMatcher, bmName: string, fair: Dict, outs: seq<BookOutcome>)
    requires ProbabilityDict(fair)
    ensures var r := FilterMap(Pass2PairingOf(find, bmName, fair), outs);
            && (forall k :: 0 <= k < |r| ==> OutrightAlertFrom(r[k], bmName))
            && (MatchesNothing(find) ==> r == [])
  {
    var pairing := Pass2PairingOf(find, bmName, fair);
    var r := FilterMap(pairing, outs);
    forall k | 0 <= k < |r|
      ensures OutrightAlertFrom(r[k], bmName)
    {
      var j :| 0 <= j < |outs| && pairing(outs[j]) == Some(r[k]);
      assert r[k].bookieProb == Get(fair, outs[j].name, 0.0);
    }
  }

  /** One bookmaker market: only "outrights" markets produce pass-2 alerts, and no more alerts than it has runners. */
  function Pass2Market(find: RunnerMatcher, bmName: string, mkt: BookMarket): (r: seq<Alert>)
    ensures mkt.key != Outrights ==> r == []
    ensures MatchesNothing(find) ==> r == []
    ensures |r| <= |mkt.outcomes|
    ensures forall k :: 0 <= k < |r| ==> OutrightAlertFrom(r[k], bmName)
  {
    if mkt.key != Outrights then []
    else
      var fair := FairProbabilities(mkt.outcomes);
      Pass2PairingsShape(find, bmName, fair, mkt.outcomes);
      FilterMap(Pass2PairingOf(find, bmName, fair), mkt.outcomes)
  }

  /** The pass-2 alerts of one bookmaker: its markets in order. */
  function Pass2Bookmaker(find: RunnerMatcher, mkts: seq<BookMarket>, bmName: string): (r: seq<Alert>)
    ensures MatchesNothing(find) ==> r == []
    ensures (forall j :: 0 <= j < |mkts| ==> mkts[j].key != Outrights) ==> r == []
    ensures forall k :: 0 <= k < |r| ==> OutrightAlertFrom(r[k], bmName)
    decreases |mkts|
  {
    if |mkts| == 0 then []
    else
      var n := |mkts| - 1;
      assert forall j :: 0 <= j < n ==> mkts[..n][j] == mkts[j];
      Pass2Bookmaker(find, mkts[..n], bmName) + Pass2Market(find, bmName, mkts[n])
  }

  /** The pass-2 alerts of one event: its bookmakers in order. */
  function Pass2Event(find: RunnerMatcher, bms: seq<Bookmaker>): (r: seq<Alert>)
    ensures MatchesNothing(find) ==> r == []
    ensures forall k :: 0 <= k < |r| ==> IsOutrightAlert(r[k]) && 0.0 <= r[k].bookieProb <= 1.0
    decreases |bms|
  {
    if |bms| == 0 then []
    else
      var n := |bms| - 1;
      Pass2Event(find, bms[..n]) + Pass2Bookmaker(find, bms[n].markets, bms[n].title)
  }

  /** The pass-2 alerts of a list of events, in order. */
  function Pass2Events(find: RunnerMatcher, events: seq<OddsEvent>): (r: seq<Alert>)
    ensures MatchesNothing(find) ==> r == []
    ensures forall k :: 0 <= k < |r| ==> IsOutrightAlert(r[k]) && 0.0 <= r[k].bookieProb <= 1.0
    decreases |events|
  {
    if |events| == 0 then []
    else
      var n := |events| - 1;
      Pass2Events(find, events[..n]) + Pass2Event(find, events[n].bookmakers)
  }

  /** `find_poly_for_candidate` over the given prediction markets, as the runner matcher pass 2 calls. */
  function CandidateMatcher(sim: Similarity, markets: seq<PolyMarket>): RunnerMatcher {
    (c: string) => FindPolyForCandidate(sim, c, markets)
  }

  /** Pass 2 over all bookmaker events, matching runners against `markets`. */
  function Pass2(sim: Similarity, markets: seq<PolyMarket>, events: seq<OddsEvent>): (r: seq<Alert>)
    ensures |markets| == 0 ==> r == []
    ensures forall k :: 0 <= k < |r| ==> IsOutrightAlert(r[k]) && 0.0 <= r[k].bookieProb <= 1.0
  {
    var find := CandidateMatcher(sim, markets);
    assert |markets| == 0 ==> MatchesNothing(find) by {
      if |markets| == 0 {
        forall c ensures find(c).None? {
          assert find(c) == FindPolyForCandidate(sim, c, markets);
        }
      }
    }
    Pass2Events(find, events)
  }

  /** The unmatched count of pass 1 is the number of markets that match no event. */
  lemma UnmatchedCountIsExact(sim: Similarity, markets: seq<PolyMarket>, events: seq<OddsEvent>)
    ensures Pass1(sim, markets, events).1 == |Filter(markets, UnmatchedIn(sim, events))|
    ensures forall pm :: pm in Filter(markets, UnmatchedIn(sim, events)) <==>
              pm in markets && FindBestEvent(sim, pm, events).0.None?
  {
    CountIsFilterLength(markets, UnmatchedIn(sim, events));
    FilterSpec(markets, UnmatchedIn(sim, events));
  }

  // ---------------------------------------------------------------------------
  // What each pass raises: every pairing that survives, and nothing else

  /** An h2h market raises exactly the surviving pairings of the prediction market's labels. */
  lemma Pass1MarketMembers(find: LabelMatcher, pm: PolyMarket, bmName: string, mkt: BookMarket, matchScore: real, a: Alert)
    ensures a in Pass1Market(find, pm, bmName, mkt, matchScore)
            <==> mkt.key == H2H
                 && exists i: nat :: Pass1Pairing(find, pm, bmName, mkt.outcomes, FairProbabilities(mkt.outcomes), matchScore, i) == Some(a)
  {
    if mkt.key == H2H {
      var fair := FairProbabilities(mkt.outcomes);
      var pairing := Pass1PairingOf(find, pm, bmName, mkt.outcomes, fair, matchScore);
      var ix := Indices(|pm.outcomes|);
      var r := FilterMap(pairing, ix);
      if a in r {
        var k :| 0 <= k < |r| && r[k] == a;
        var j :| 0 <= j < |ix| && pairing(ix[j]) == Some(r[k]);
        assert Pass1Pairing(find, pm, bmName, mkt.outcomes, fair, matchScore, j) == Some(a);
      }
      if i: nat :| Pass1Pairing(find, pm, bmName, mkt.outcomes, fair, matchScore, i) == Some(a) {
        FilterMapKeeps(pairing, ix, i);
      }
    }
  }

  function Pass1MarketOf(find: LabelMatcher, pm: PolyMarket, bmName: string, matchScore: real): BookMarket -> seq<Alert> {
    (mkt: BookMarket) => Pass1Market(find, pm, bmName, mkt, matchScore)
  }

  /** A bookmaker's pass-1 alerts are those of its markets, concatenated in order. */
  lemma {:induction false} Pass1BookmakerIsFlatMap(find: LabelMatcher, pm: PolyMarket, mkts: seq<BookMarket>, bmName: string, matchScore: real)
    ensures Pass1Bookmaker(find, pm, mkts, bmName, matchScore) == FlatMap(Pass1MarketOf(find, pm, bmName, matchScore), mkts)
    decreases |mkts|
  {
    if |mkts| > 0 {
      Pass1BookmakerIsFlatMap(find, pm, mkts[..|mkts| - 1], bmName, matchScore);
    }
  }

  /** A bookmaker raises in pass 1 exactly what one of its markets raises. */
  lemma Pass1BookmakerMembers(find: LabelMatcher, pm: PolyMarket, mkts: seq<BookMarket>, bmName: string, matchScore: real, a: Alert)
    ensures a in Pass1Bookmaker(find, pm, mkts, bmName, matchScore)
            <==> exists m :: 0 <= m < |mkts| && a in Pass1Market(find, pm, bmName, mkts[m], matchScore)
  {
    Pass1BookmakerIsFlatMap(find, pm, mkts, bmName, matchScore);
    FlatMapMembers(Pass1MarketOf(find, pm, bmName, matchScore), mkts, a);
  }

  function Pass1BookmakerOf(find: LabelMatcher, pm: PolyMarket, matchScore: real): Bookmaker -> seq<Alert> {
    (bm: Bookmaker) => Pass1Bookmaker(find, pm, bm.markets, bm.title, matchScore)
  }

  /** An event's pass-1 alerts are those of its bookmakers, concatenated in order. */
  lemma {:induction false} Pass1EventIsFlatMap(find: LabelMatcher, pm: PolyMarket, bms: seq<Bookmaker>, matchScore: real)
    ensures Pass1Event(find, pm, bms, matchScore) == FlatMap(Pass1BookmakerOf(find, pm, matchScore), bms)
    decreases |bms|
  {
    if |bms| > 0 {
      Pass1EventIsFlatMap(find, pm, bms[..|bms| - 1], matchScore);
    }
  }

  /** An event raises in pass 1 exactly what one of its bookmakers raises. */
  lemma Pass1EventMembers(find: LabelMatcher, pm: PolyMarket, bms: seq<Bookmaker>, matchScore: real, a: Alert)
    ensures a in Pass1Event(find, pm, bms, matchScore)
            <==> exists b :: 0 <= b < |bms| && a in Pass1Bookmaker(find, pm, bms[b].markets, bms[b].title, matchScore)
  {
    Pass1EventIsFlatMap(find, pm, bms, matchScore);
    FlatMapMembers(Pass1BookmakerOf(find, pm, matchScore), bms, a);
  }

  /**
   The pass-1 pairing of label `i` of `pm` against market `m` of bookmaker `b`
   of the event `pm` is matched with; `None` when there is no such event,
   bookmaker or market, when that market is not "h2h", or when the pairing is
   skipped.
   */
  function Pass1At(sim: Similarity, pm: PolyMarket, events: seq<OddsEvent>, b: nat, m: nat, i: nat): Option<Alert> {
    var best := FindBestEvent(sim, pm, events);
    if best.0.None? then None
    else
      var bms := best.0.value.bookmakers;
      if b >= |bms| || m >= |bms[b].markets| || bms[b].markets[m].key != H2H then None
      else
        var outs := bms[b].markets[m].outcomes;
        Pass1Pairing(OutcomeMatcher(sim), pm, bms[b].title, outs, FairProbabilities(outs), best.1, i)
  }

  /** Alert `a` is the surviving pass-1 pairing of some label of `pm` against some h2h market of its best event. */
  ghost predicate Pass1Raises(sim: Similarity, pm: PolyMarket, events: seq<OddsEvent>, a: Alert) {
    exists b, m, i :: Pass1At(sim, pm, events, b, m, i) == Some(a)
  }

  /** `Pass1At` at an h2h market of the best event is that market's pairing. */
  lemma Pass1AtPairing(sim: Similarity, pm: PolyMarket, events: seq<OddsEvent>, b: nat, m: nat, i: nat)
    requires FindBestEvent(sim, pm, events).0.Some?
    requires b < |FindBestEvent(sim, pm, events).0.value.bookmakers|
    requires m < |FindBestEvent(sim, pm, events).0.value.bookmakers[b].markets|
    ensures var best := FindBestEvent(sim, pm, events);
            var bm := best.0.value.bookmakers[b];
            var mkt := bm.markets[m];
            Pass1At(sim, pm, events, b, m, i)
            == if mkt.key != H2H then None
               else Pass1Pairing(OutcomeMatcher(sim), pm, bm.title, mkt.outcomes, FairProbabilities(mkt.outcomes), best.1, i)
  {
  }

  /** Every alert one prediction market raises in pass 1 is a surviving pairing against its best event. */
  lemma Pass1ForMarketSound(sim: Similarity, pm: PolyMarket, events: seq<OddsEvent>, a: Alert)
    requires a in Pass1ForMarket(sim, pm, events)
    ensures Pass1Raises(sim, pm, events, a)
  {
    var best := FindBestEvent(sim, pm, events);
    var find := OutcomeMatcher(sim);
    var bms := best.0.value.bookmakers;
    assert a in Pass1Event(find, pm, bms, best.1);
    Pass1EventMembers(find, pm, bms, best.1, a);
    var b :| 0 <= b < |bms| && a in Pass1Bookmaker(find, pm, bms[b].markets, bms[b].title, best.1);
    Pass1BookmakerMembers(find, pm, bms[b].markets, bms[b].title, best.1, a);
    var m :| 0 <= m < |bms[b].markets| && a in Pass1Market(find, pm, bms[b].title, bms[b].markets[m], best.1);
    Pass1MarketMembers(find, pm, bms[b].title, bms[b].markets[m], best.1, a);
    var outs := bms[b].markets[m].outcomes;
    var i: nat :| Pass1Pairing(find, pm, bms[b].title, outs, FairProbabilities(outs), best.1, i) == Some(a);
    Pass1AtPairing(sim, pm, events, b, m, i);
  }

  /** Every surviving pairing of a prediction market against its best event is raised in pass 1. */
  lemma Pass1ForMarketKeeps(sim: Similarity, pm: PolyMarket, events: seq<OddsEvent>, b: nat, m: nat, i: nat)
    ensures Pass1At(sim, pm, events, b, m, i).Some? ==> Pass1At(sim, pm, events, b, m, i).value in Pass1ForMarket(sim, pm, events)
  {
    var r := Pass1At(sim, pm, events, b, m, i);
    if r.Some? {
      var best := FindBestEvent(sim, pm, events);
      var find := OutcomeMatcher(sim);
      var bms := best.0.value.bookmakers;
      var a := r.value;
      Pass1AtPairing(sim, pm, events, b, m, i);
      Pass1MarketMembers(find, pm, bms[b].title, bms[b].markets[m], best.1, a);
      assert a in Pass1Market(find, pm, bms[b].title, bms[b].markets[m], best.1);
      Pass1BookmakerMembers(find, pm, bms[b].markets, bms[b].title, best.1, a);
      Pass1EventMembers(find, pm, bms, best.1, a);
      assert a in Pass1Event(find, pm, bms, best.1);
    }
  }

  /** One prediction market raises in pass 1 exactly the surviving pairings against its best event. */
  lemma Pass1ForMarketMembers(sim: Similarity, pm: PolyMarket, events: seq<OddsEvent>, a: Alert)
    ensures a in Pass1ForMarket(sim, pm, events) <==> Pass1Raises(sim, pm, events, a)
  {
    if a in Pass1ForMarket(sim, pm, events) {
      Pass1ForMarketSound(sim, pm, events, a);
    }
    if b, m, i :| Pass1At(sim, pm, events, b, m, i) == Some(a) {
      Pass1ForMarketKeeps(sim, pm, events, b, m, i);
    }
  }

  function Pass1ForMarketOf(sim: Similarity, events: seq<OddsEvent>): PolyMarket -> seq<Alert> {
    (pm: PolyMarket) => Pass1ForMarket(sim, pm, events)
  }

  /** Pass 1's alerts are those of each prediction market, concatenated in order. */
  lemma {:induction false} Pass1AlertsIsFlatMap(sim: Similarity, markets: seq<PolyMarket>, events: seq<OddsEvent>)
    ensures Pass1Alerts(sim, markets, events) == FlatMap(Pass1ForMarketOf(sim, events), markets)
    decreases |markets|
  {
    if |markets| > 0 {
      Pass1AlertsIsFlatMap(sim, markets[..|markets| - 1], events);
    }
  }

  /** Pass 1 raises exactly what one of the prediction markets raises. */
  lemma Pass1AlertsMembers(sim: Similarity, markets: seq<PolyMarket>, events: seq<OddsEvent>, a: Alert)
    ensures a in Pass1Alerts(sim, markets, events)
            <==> exists j :: 0 <= j < |markets| && a in Pass1ForMarket(sim, markets[j], events)
  {
    Pass1AlertsIsFlatMap(sim, markets, events);
    FlatMapMembers(Pass1ForMarketOf(sim, events), markets, a);
  }

  /** The alerts of pass 1 are those of every market in turn; the count does not change them. */
  lemma Pass1AlertsAre(sim: Similarity, markets: seq<PolyMarket>, events: seq<OddsEvent>)
    ensures Pass1(sim, markets, events).0 == Pass1Alerts(sim, markets, events)
  {
  }

  /** Pass 1 raises exactly the surviving pairings of every market against its best event. */
  lemma Pass1Members(sim: Similarity, markets: seq<PolyMarket>, events: seq<OddsEvent>, a: Alert)
    ensures a in Pass1(sim, markets, events).0 <==> exists j :: 0 <= j < |markets| && Pass1Raises(sim, markets[j], events, a)
  {
    Pass1AlertsAre(sim, markets, events);
    Pass1AlertsMembers(sim, markets, events, a);
    forall j | 0 <= j < |markets|
      ensures a in Pass1ForMarket(sim, markets[j], events) <==> Pass1Raises(sim, markets[j], events, a)
    {
      Pass1ForMarketMembers(sim, markets[j], events, a);
    }
  }

  /** An outrights market raises exactly the surviving pairings of its runners. */
  lemma Pass2MarketMembers(find: RunnerMatcher, bmName: string, mkt: BookMarket, a: Alert)
    ensures a in Pass2Market(find, bmName, mkt)
            <==> mkt.key == Outrights
                 && exists o :: 0 <= o < |mkt.outcomes|
                                && Pass2Pairing(find, bmName, FairProbabilities(mkt.outcomes), mkt.outcomes[o]) == Some(a)
  {
    if mkt.key == Outrights {
      var fair := FairProbabilities(mkt.outcomes);
      var pairing := Pass2PairingOf(find, bmName, fair);
      if o :| 0 <= o < |mkt.outcomes| && Pass2Pairing(find, bmName, fair, mkt.outcomes[o]) == Some(a) {
        FilterMapKeeps(pairing, mkt.outcomes, o);
      }
    }
  }

  function Pass2MarketOf(find: RunnerMatcher, bmName: string): BookMarket -> seq<Alert> {
    (mkt: BookMarket) => Pass2Market(find, bmName, mkt)
  }

  /** A bookmaker's pass-2 alerts are those of its markets, concatenated in order. */
  lemma {:induction false} Pass2BookmakerIsFlatMap(find: RunnerMatcher, mkts: seq<BookMarket>, bmName: string)
    ensures Pass2Bookmaker(find, mkts, bmName) == FlatMap(Pass2MarketOf(find, bmName), mkts)
    decreases |mkts|
  {
    if |mkts| > 0 {
      Pass2BookmakerIsFlatMap(find, mkts[..|mkts| - 1], bmName);
    }
  }

  /** A bookmaker raises in pass 2 exactly what one of its markets raises. */
  lemma Pass2BookmakerMembers(find: RunnerMatcher, mkts: seq<BookMarket>, bmName: string, a: Alert)
    ensures a in Pass2Bookmaker(find, mkts, bmName) <==> exists m :: 0 <= m < |mkts| && a in Pass2Market(find, bmName, mkts[m])
  {
    Pass2BookmakerIsFlatMap(find, mkts, bmName);
    FlatMapMembers(Pass2MarketOf(find, bmName), mkts, a);
  }

  function Pass2BookmakerOf(find: RunnerMatcher): Bookmaker -> seq<Alert> {
    (bm: Bookmaker) => Pass2Bookmaker(find, bm.markets, bm.title)
  }

  /** An event's pass-2 alerts are those of its bookmakers, concatenated in order. */
  lemma {:induction false} Pass2EventIsFlatMap(find: RunnerMatcher, bms: seq<Bookmaker>)
    ensures Pass2Event(find, bms) == FlatMap(Pass2BookmakerOf(find), bms)
    decreases |bms|
  {
    if |bms| > 0 {
      Pass2EventIsFlatMap(find, bms[..|bms| - 1]);
    }
  }

  /** An event raises in pass 2 exactly what one of its bookmakers raises. */
  lemma Pass2EventMembers(find: RunnerMatcher, bms: seq<Bookmaker>, a: Alert)
    ensures a in Pass2Event(find, bms) <==> exists b :: 0 <= b < |bms| && a in Pass2Bookmaker(find, bms[b].markets, bms[b].title)
  {
    Pass2EventIsFlatMap(find, bms);
    FlatMapMembers(Pass2BookmakerOf(find), bms, a);
  }

  function Pass2EventOf(find: RunnerMatcher): OddsEvent -> seq<Alert> {
    (e: OddsEvent) => Pass2Event(find, e.bookmakers)
  }

  /** The pass-2 alerts of a list of events are those of each event, concatenated in order. */
  lemma {:induction false} Pass2EventsIsFlatMap(find: RunnerMatcher, events: seq<OddsEvent>)
    ensures Pass2Events(find, events) == FlatMap(Pass2EventOf(find), events)
    decreases |events|
  {
    if |events| > 0 {
      Pass2EventsIsFlatMap(find, events[..|events| - 1]);
    }
  }

  /** A list of events raises in pass 2 exactly what one of them raises. */
  lemma Pass2EventsMembers(find: RunnerMatcher, events: seq<OddsEvent>, a: Alert)
    ensures a in Pass2Events(find, events) <==> exists e :: 0 <= e < |events| && a in Pass2Event(find, events[e].bookmakers)
  {
    Pass2EventsIsFlatMap(find, events);
    FlatMapMembers(Pass2EventOf(find), events, a);
  }

  /**
   The pass-2 pairing of runner `o` of market `m` of bookmaker `b` of event
   `e`; `None` when there is no such event, bookmaker, market or runner, when
   that market is not "outrights", or when `find` matches no prediction market.
   */
  function Pass2At(find: RunnerMatcher, events: seq<OddsEvent>, e: nat, b: nat, m: nat, o: nat): Option<Alert> {
    if e >= |events| then None
    else
      var bms := events[e].bookmakers;
      if b >= |bms| || m >= |bms[b].markets| || bms[b].markets[m].key != Outrights then None
      else
        var outs := bms[b].markets[m].outcomes;
        if o >= |outs| then None
        else Pass2Pairing(find, bms[b].title, FairProbabilities(outs), outs[o])
  }

  /** `Pass2At` at a runner of an outrights market is that runner's pairing. */
  lemma Pass2AtPairing(find: RunnerMatcher, events: seq<OddsEvent>, e: nat, b: nat, m: nat, o: nat)
    requires e < |events| && b < |events[e].bookmakers| && m < |events[e].bookmakers[b].markets|
    requires events[e].bookmakers[b].markets[m].key == Outrights
    requires o < |events[e].bookmakers[b].markets[m].outcomes|
    ensures var bm := events[e].bookmakers[b];
            var outs := bm.markets[m].outcomes;
            Pass2At(find, events, e, b, m, o) == Pass2Pairing(find, bm.title, FairProbabilities(outs), outs[o])
  {
  }

  /** Every alert pass 2 raises over a list of events is a surviving runner pairing. */
  lemma Pass2EventsSound(find: RunnerMatcher, events: seq<OddsEvent>, a: Alert)
    requires a in Pass2Events(find, events)
    ensures exists e, b, m, o :: Pass2At(find, events, e, b, m, o) == Some(a)
  {
    Pass2EventsMembers(find, events, a);
    var e :| 0 <= e < |events| && a in Pass2Event(find, events[e].bookmakers);
    var bms := events[e].bookmakers;
    Pass2EventMembers(find, bms, a);
    var b :| 0 <= b < |bms| && a in Pass2Bookmaker(find, bms[b].markets, bms[b].title);
    Pass2BookmakerMembers(find, bms[b].markets, bms[b].title, a);
    var m :| 0 <= m < |bms[b].markets| && a in Pass2Market(find, bms[b].title, bms[b].markets[m]);
    Pass2MarketMembers(find, bms[b].title, bms[b].markets[m], a);
    var outs := bms[b].markets[m].outcomes;
    var o :| 0 <= o < |outs| && Pass2Pairing(find, bms[b].title, FairProbabilities(outs), outs[o]) == Some(a);
    Pass2AtPairing(find, events, e, b, m, o);
  }

  /** Every surviving runner pairing of a list of events is raised in pass 2. */
  lemma Pass2EventsKeeps(find: RunnerMatcher, events: seq<OddsEvent>, e: nat, b: nat, m: nat, o: nat)
    ensures Pass2At(find, events, e, b, m, o).Some? ==> Pass2At(find, events, e, b, m, o).value in Pass2Events(find, events)
  {
    var r := Pass2At(find, events, e, b, m, o);
    if r.Some? {
      var a := r.value;
      var bms := events[e].bookmakers;
      Pass2AtPairing(find, events, e, b, m, o);
      Pass2MarketMembers(find, bms[b].title, bms[b].markets[m], a);
      Pass2BookmakerMembers(find, bms[b].markets, bms[b].title, a);
      Pass2EventMembers(find, bms, a);
      Pass2EventsMembers(find, events, a);
    }
  }

  /** Pass 2 raises exactly the surviving pairings of every runner of every outrights market. */
  lemma Pass2Members(sim: Similarity, markets: seq<PolyMarket>, events: seq<OddsEvent>, a: Alert)
    ensures a in Pass2(sim, markets, events)
            <==> exists e, b, m, o :: Pass2At(CandidateMatcher(sim, markets), events, e, b, m, o) == Some(a)
  {
    var find := CandidateMatcher(sim, markets);
    assert Pass2(sim, markets, events) == Pass2Events(find, events);
    if a in Pass2(sim, markets, events) {
      Pass2EventsSound(find, events, a);
    }
    if e, b, m, o :| Pass2At(find, events, e, b, m, o) == Some(a) {
      Pass2EventsKeeps(find, events, e, b, m, o);
    }
  }
}
