/**
 Fuzzy cross-source matching (matcher.py): the three "best of N" scans that pair
 a prediction-market question with a bookmaker event, a prediction-market
 outcome label with a bookmaker outcome, and a bookmaker outright runner with a
 binary "Yes" market.

 The similarity ratio itself is a parameter (`Similarity`); only the
 normalisation `_sim` applies before calling it is modelled.
 */
module Matcher {
  import opened Collections
  import opened Text
  import opened Records

  const EventThreshold: real := 0.28
  const NameBonus: real := 0.12
  const OutcomeThreshold: real := 0.38
  const CandidateThreshold: real := 0.40

  /** `_sim`: the similarity of the two labels after lower-casing and stripping. */
  function NormSim(sim: Similarity, a: string, b: string): real {
    sim(Strip(Lower(a)), Strip(Lower(b)))
  }

  /** `_sim` ignores the case of its first argument. */
  lemma NormSimIgnoresCase(sim: Similarity, a: string, b: string)
    ensures NormSim(sim, Lower(a), b) == NormSim(sim, a, b)
  {
    LowerIdempotent(a);
  }

  /**
   The scan shared by all three matchers, over the candidates' scores and
   eligibility flags: walk left to right keeping the best score seen so far,
   which starts at 0.0, and replace the best only when an eligible candidate
   scores strictly higher. The result is the FIRST eligible candidate of maximal
   score, provided that score is positive.
   */
  function BestIndex(scores: seq<real>, eligible: seq<bool>): (r: Option<nat>)
    requires |eligible| == |scores|
    ensures r.None? ==> forall i :: 0 <= i < |scores| && eligible[i] ==> scores[i] <= 0.0
    ensures r.Some? ==> r.value < |scores| && eligible[r.value] && scores[r.value] > 0.0
    ensures r.Some? ==> forall i :: 0 <= i < |scores| && eligible[i] ==> scores[i] <= scores[r.value]
    ensures r.Some? ==> forall i :: 0 <= i < r.value && eligible[i] ==> scores[i] < scores[r.value]
    decreases |scores|
  {
    if |scores| == 0 then None
    else
      var n := |scores| - 1;
      var prev := BestIndex(scores[..n], eligible[..n]);
      var best := if prev.Some? then scores[prev.value] else 0.0;
      if scores[n] > best && eligible[n] then Some(n) else prev
  }

  /** `BestIndex` followed by a matcher's acceptance gate. */
  function BestAbove(scores: seq<real>, eligible: seq<bool>, gate: real): (r: Option<nat>)
    requires |eligible| == |scores|
    requires gate > 0.0
    ensures r.None? <==> forall i :: 0 <= i < |scores| && eligible[i] ==> scores[i] < gate
    ensures r.Some? ==> r.value < |scores| && eligible[r.value] && scores[r.value] >= gate
    ensures r.Some? ==> forall i :: 0 <= i < |scores| && eligible[i] ==> scores[i] <= scores[r.value]
    ensures r.Some? ==> forall i :: 0 <= i < r.value && eligible[i] ==> scores[i] < scores[r.value]
  {
    var k := BestIndex(scores, eligible);
    if k.Some? && scores[k.value] >= gate then k else None
  }

  /** `n` candidates, all eligible. */
  function AllEligible(n: nat): (r: seq<bool>)
    ensures |r| == n && forall i :: 0 <= i < n ==> r[i]
  {
    if n == 0 then [] else AllEligible(n - 1) + [true]
  }

  /** The score of every candidate, in order. */
  function MapScores<T>(score: T -> real, xs: seq<T>): (r: seq<real>)
    ensures |r| == |xs| && forall i :: 0 <= i < |xs| ==> r[i] == score(xs[i])
  {
    if |xs| == 0 then [] else MapScores(score, xs[..|xs| - 1]) + [score(xs[|xs| - 1])]
  }

  // ---------------------------------------------------------------------------
  // Event matcher

  /** Join two labels with one space, leaving out an empty one. */
  function Glue(a: string, b: string): string {
    if a == "" then b else if b == "" then a else a + " " + b
  }

  /** `_event_text`: title, home and away labels, space-joined, empty ones skipped. */
  function EventText(e: OddsEvent): string {
    Glue(Glue(e.sportTitle, e.homeTeam), e.awayTeam)
  }

  predicate NonEmpty(s: string) {
    s != ""
  }

  /** Gluing a label onto a join of non-empty labels joins it as one more part, unless it is empty. */
  lemma GlueJoin(parts: seq<string>, b: string)
    requires forall k :: 0 <= k < |parts| ==> parts[k] != ""
    ensures Glue(Join(parts, " "), b) == Join(parts + Filter([b], NonEmpty), " ")
  {
    var tail := Filter([b], NonEmpty);
    assert [b][1..] == [];
    assert tail == (if b != "" then [b] else []) + Filter([b][1..], NonEmpty);
    if b == "" {
      assert tail == [];
      assert parts + tail == parts;
    } else if |parts| == 0 {
      assert parts + tail == [b];
    } else {
      assert tail == [b];
      JoinStartsWithFirst(parts, " ");
      JoinAppend(parts, b, " ");
    }
  }

  /** The event text is the space-join of exactly the non-empty fields, in order. */
  lemma EventTextJoinsNonEmptyFields(e: OddsEvent)
    ensures EventText(e) == Join(Filter([e.sportTitle, e.homeTeam, e.awayTeam], NonEmpty), " ")
  {
    var (t, h, w) := (e.sportTitle, e.homeTeam, e.awayTeam);
    assert [t][1..] == [];
    var first := Filter([t], NonEmpty);
    assert Join(first, " ") == t;
    GlueJoin(first, h);
    var two := first + Filter([h], NonEmpty);
    GlueJoin(two, w);
    FilterConcat([t], [h], NonEmpty);
    FilterConcat([t, h], [w], NonEmpty);
    assert [t] + [h] == [t, h] && [t, h] + [w] == [t, h, w];
  }

  /** Some outcome label longer than three characters occurs, ignoring case, in `text`. */
  predicate NameInText(outcomes: seq<string>, text: string) {
    exists o :: o in outcomes && |o| > 3 && Contains(Lower(text), Lower(o))
  }

  /** The best of the four similarities between a question and an event's fields. */
  function SimilarityBase(sim: Similarity, question: string, e: OddsEvent): (r: real)
    ensures r >= NormSim(sim, question, EventText(e))
    ensures r >= NormSim(sim, question, e.homeTeam)
    ensures r >= NormSim(sim, question, e.awayTeam)
    ensures r >= NormSim(sim, question, e.sportTitle)
    ensures r == NormSim(sim, question, EventText(e)) || r == NormSim(sim, question, e.homeTeam)
         || r == NormSim(sim, question, e.awayTeam) || r == NormSim(sim, question, e.sportTitle)
  {
    var a := NormSim(sim, question, EventText(e));
    var b := NormSim(sim, question, e.homeTeam);
    var c := NormSim(sim, question, e.awayTeam);
    var d := NormSim(sim, question, e.sportTitle);
    var ab := if a >= b then a else b;
    var abc := if ab >= c then ab else c;
    if abc >= d then abc else d
  }

  /** An event's score against a market: the base similarity plus the name bonus. */
  function EventScore(sim: Similarity, pm: PolyMarket, e: OddsEvent): real {
    SimilarityBase(sim, pm.question, e)
      + (if NameInText(pm.outcomes, EventText(e)) then NameBonus else 0.0)
  }

  /** The bonus is added exactly when an outcome name occurs in the event text. */
  lemma EventScoreBonus(sim: Similarity, pm: PolyMarket, e: OddsEvent)
    ensures EventScore(sim, pm, e) - SimilarityBase(sim, pm.question, e) == NameBonus
            <==> NameInText(pm.outcomes, EventText(e))
    ensures !NameInText(pm.outcomes, EventText(e)) ==> EventScore(sim, pm, e) == SimilarityBase(sim, pm.question, e)
  {
  }

  function EventScores(sim: Similarity, pm: PolyMarket, events: seq<OddsEvent>): (r: seq<real>)
    ensures |r| == |events| && forall i :: 0 <= i < |events| ==> r[i] == EventScore(sim, pm, events[i])
  {
    MapScores((e: OddsEvent) => EventScore(sim, pm, e), events)
  }

  /** Event `k` scores strictly higher than every event before it. */
  predicate FirstMaximal(sim: Similarity, pm: PolyMarket, events: seq<OddsEvent>, k: nat)
    requires k < |events|
  {
    forall j :: 0 <= j < k ==> EventScore(sim, pm, events[j]) < EventScore(sim, pm, events[k])
  }

  /**
   `find_best_event`: the first event of maximal score, when that score reaches
   the 0.28 gate; otherwise no event and score 0.0.
   */
  function FindBestEvent(sim: Similarity, pm: PolyMarket, events: seq<OddsEvent>): (r: (Option<OddsEvent>, real))
    ensures r.0.None? ==> r.1 == 0.0
    ensures r.0.None? <==> forall i :: 0 <= i < |events| ==> EventScore(sim, pm, events[i]) < EventThreshold
    ensures r.0.Some? ==> r.1 >= EventThreshold
    ensures r.0.Some? ==> r.1 == EventScore(sim, pm, r.0.value)
    ensures r.0.Some? ==> exists k :: 0 <= k < |events| && events[k] == r.0.value && FirstMaximal(sim, pm, events, k)
  {
    var scores := EventScores(sim, pm, events);
    var k := BestAbove(scores, AllEligible(|events|), EventThreshold);
    if k.Some? then
      var i := k.value;
      assert FirstMaximal(sim, pm, events, i) && scores[i] == EventScore(sim, pm, events[i]);
      (Some(events[i]), scores[i])
    else (None, 0.0)
  }

  /** The matched event's score is the maximum over all events. */
  lemma FindBestEventIsMaximal(sim: Similarity, pm: PolyMarket, events: seq<OddsEvent>, i: nat)
    requires i < |events|
    ensures FindBestEvent(sim, pm, events).0.Some? ==>
              EventScore(sim, pm, events[i]) <= FindBestEvent(sim, pm, events).1
  {
    var scores := EventScores(sim, pm, events);
    var eligible := AllEligible(|events|);
    var k := BestAbove(scores, eligible, EventThreshold);
    if k.Some? {
      assert eligible[i];
      assert scores[i] <= scores[k.value];
    }
  }

  /** With a similarity ratio in [0, 1], a matched score lies in [0.28, 1.12]: it may exceed 1. */
  lemma FindBestEventScoreBound(sim: Similarity, pm: PolyMarket, events: seq<OddsEvent>)
    requires IsRatio(sim)
    ensures FindBestEvent(sim, pm, events).1 <= 1.0 + NameBonus
  {
    var r := FindBestEvent(sim, pm, events);
    if r.0.Some? {
      EventScoreBound(sim, pm, r.0.value);
    }
  }

  /** With a similarity ratio in [0, 1], every event score lies in [0, 1.12]. */
  lemma EventScoreBound(sim: Similarity, pm: PolyMarket, e: OddsEvent)
    requires IsRatio(sim)
    ensures 0.0 <= EventScore(sim, pm, e) <= 1.0 + NameBonus
  {
    var base := SimilarityBase(sim, pm.question, e);
    assert 0.0 <= base <= 1.0 by {
      var q := pm.question;
      assert NormSim(sim, q, EventText(e)) <= 1.0 && NormSim(sim, q, e.homeTeam) <= 1.0;
      assert NormSim(sim, q, e.awayTeam) <= 1.0 && NormSim(sim, q, e.sportTitle) <= 1.0;
      assert NormSim(sim, q, EventText(e)) >= 0.0;
    }
  }

  // ---------------------------------------------------------------------------
  // Outcome matcher

  /** The label is "yes" or "no", ignoring case (whitespace is not stripped). */
  predicate IsYesNo(polyOutcome: string) {
    Lower(polyOutcome) == "yes" || Lower(polyOutcome) == "no"
  }

  /** The price of the first outcome with this name, or `None` when there is none. */
  function FirstPrice(outs: seq<BookOutcome>, name: string): (r: Option<real>)
    ensures r.None? <==> forall i :: 0 <= i < |outs| ==> outs[i].name != name
    ensures r.Some? ==> exists i :: 0 <= i < |outs| && outs[i] == BookOutcome(name, r.value)
                                    && forall j :: 0 <= j < i ==> outs[j].name != name
    decreases |outs|
  {
    if |outs| == 0 then None
    else if outs[0].name == name then Some(outs[0].price)
    else
      var rest := FirstPrice(outs[1..], name);
      assert forall i :: 1 <= i < |outs| ==> outs[i] == outs[1..][i - 1];
      rest
  }

  function OutcomeScores(sim: Similarity, polyOutcome: string, outs: seq<BookOutcome>): (r: seq<real>)
    ensures |r| == |outs| && forall i :: 0 <= i < |outs| ==> r[i] == NormSim(sim, polyOutcome, outs[i].name)
  {
    MapScores((o: BookOutcome) => NormSim(sim, polyOutcome, o.name), outs)
  }

  /** Bookmaker outcome `k` is more similar to the label than every outcome before it. */
  predicate FirstBestOutcome(sim: Similarity, polyOutcome: string, outs: seq<BookOutcome>, k: nat)
    requires k < |outs|
  {
    forall j :: 0 <= j < k ==> NormSim(sim, polyOutcome, outs[j].name) < NormSim(sim, polyOutcome, outs[k].name)
  }

  /**
   `find_matching_outcome`: the bookmaker outcome most similar to the label,
   accepted when its similarity reaches 0.38 or the label is "yes"/"no", and
   only when its name is non-empty; the price is that of the first outcome
   carrying the accepted name.
   */
  function FindMatchingOutcome(sim: Similarity, polyOutcome: string, outs: seq<BookOutcome>): (r: Option<(string, real)>)
    ensures r.Some? ==> r.value.0 != ""
    ensures r.Some? ==>
      exists i :: 0 <= i < |outs| && outs[i] == BookOutcome(r.value.0, r.value.1)
                  && forall j :: 0 <= j < i ==> outs[j].name != r.value.0
    ensures r.Some? ==> NormSim(sim, polyOutcome, r.value.0) > 0.0
    ensures r.Some? ==> forall i :: 0 <= i < |outs| ==> NormSim(sim, polyOutcome, outs[i].name) <= NormSim(sim, polyOutcome, r.value.0)
    ensures r.Some? && !IsYesNo(polyOutcome) ==> NormSim(sim, polyOutcome, r.value.0) >= OutcomeThreshold
    ensures (forall i :: 0 <= i < |outs| ==> NormSim(sim, polyOutcome, outs[i].name) <= 0.0) ==> r.None?
    ensures r.Some? ==>
      exists k :: 0 <= k < |outs| && outs[k].name == r.value.0 && FirstBestOutcome(sim, polyOutcome, outs, k)
  {
    var scores := OutcomeScores(sim, polyOutcome, outs);
    var k := BestIndex(scores, AllEligible(|outs|));
    var bestScore := if k.Some? then scores[k.value] else 0.0;
    if (bestScore >= OutcomeThreshold || IsYesNo(polyOutcome)) && k.Some? && outs[k.value].name != "" then
      var name := outs[k.value].name;
      assert FirstBestOutcome(sim, polyOutcome, outs, k.value);
      match FirstPrice(outs, name)
      case Some(price) => Some((name, price))
      case None => None
    else
      None
  }

  /** When every bookmaker outcome is named, a label is matched as soon as some
      outcome reaches the 0.38 gate, and a "yes"/"no" label as soon as some
      outcome has any positive similarity. */
  lemma FindMatchingOutcomeAccepts(sim: Similarity, polyOutcome: string, outs: seq<BookOutcome>, i: nat)
    requires forall j :: 0 <= j < |outs| ==> outs[j].name != ""
    requires i < |outs|
    requires NormSim(sim, polyOutcome, outs[i].name) >= OutcomeThreshold
             || (IsYesNo(polyOutcome) && NormSim(sim, polyOutcome, outs[i].name) > 0.0)
    ensures FindMatchingOutcome(sim, polyOutcome, outs).Some?
  {
    var scores := OutcomeScores(sim, polyOutcome, outs);
    var eligible := AllEligible(|outs|);
    var k := BestIndex(scores, eligible);
    assert eligible[i] && scores[i] > 0.0;
    var best := scores[k.value];
    assert scores[i] <= best;
    var name := outs[k.value].name;
    assert FirstPrice(outs, name).Some?;
  }

  // ---------------------------------------------------------------------------
  // Outright-to-binary matcher

  /** The significant tokens of a cleaned name: its words longer than one character. */
  function NameParts(cleaned: string): (r: seq<string>) {
    Filter(Split(cleaned), IsSignificant)
  }

  predicate IsSignificant(w: string) {
    |w| > 1
  }

  /** The parts are exactly the words of the cleaned name longer than one character. */
  lemma NamePartsSpec(cleaned: string)
    ensures forall k :: 0 <= k < |NameParts(cleaned)| ==>
              && NameParts(cleaned)[k] in Split(cleaned)
              && |NameParts(cleaned)[k]| > 1
              && Contains(cleaned, NameParts(cleaned)[k])
    ensures forall k :: 0 <= k < |Split(cleaned)| && |Split(cleaned)[k]| > 1 ==> Split(cleaned)[k] in NameParts(cleaned)
  {
    SplitSpec(cleaned);
    FilterSpec(Split(cleaned), IsSignificant);
    var r := NameParts(cleaned);
    forall k | 0 <= k < |r|
      ensures r[k] in Split(cleaned) && |r[k]| > 1 && Contains(cleaned, r[k])
    {
      assert r[k] in r;
    }
  }

  /** Number of tokens found verbatim in the question. */
  function Hits(parts: seq<string>, question: string): (n: nat)
    ensures n <= |parts|
    ensures n == |parts| <==> forall k :: 0 <= k < |parts| ==> Contains(question, parts[k])
  {
    if |parts| == 0 then 0
    else Hits(parts[..|parts| - 1], question) + (if Contains(question, parts[|parts| - 1]) then 1 else 0)
  }

  /** Fraction of the tokens found verbatim in the question; 0.0 when there are none. */
  function PartRatio(parts: seq<string>, question: string): (r: real)
    ensures 0.0 <= r <= 1.0
    ensures |parts| == 0 ==> r == 0.0
    ensures |parts| > 0 ==> (r == 1.0 <==> forall k :: 0 <= k < |parts| ==> Contains(question, parts[k]))
  {
    if |parts| == 0 then 0.0
    else
      var hits := Hits(parts, question);
      FractionBounds(hits, |parts|);
      hits as real / |parts| as real
  }

  /** A count out of a positive total is a fraction in [0, 1], equal to 1 exactly when the count is the total. */
  lemma FractionBounds(count: nat, total: nat)
    requires 0 < total && count <= total
    ensures 0.0 <= count as real / total as real <= 1.0
    ensures count as real / total as real == 1.0 <==> count == total
  {
    var f := count as real / total as real;
    assert f * total as real == count as real;
    if count == total {
      assert f == 1.0;
    } else {
      assert count as real < total as real;
      assert f < 1.0;
    }
  }

  /** A market's score against an outright runner: the better of fuzzy similarity and token hits. */
  function CandidateScore(sim: Similarity, candidate: string, pm: PolyMarket): real {
    var cc := Clean(candidate);
    var q := Clean(pm.question);
    var fuzz := NormSim(sim, cc, q);
    var ratio := PartRatio(NameParts(cc), q);
    if fuzz >= ratio then fuzz else ratio
  }

  /** The market lists the exact outcome "Yes" and has a probability at its first position. */
  predicate HasYesPrice(pm: PolyMarket) {
    "Yes" in pm.outcomes && IndexOf(pm.outcomes, "Yes") < |pm.probabilities|
  }

  function YesProb(pm: PolyMarket): real
    requires HasYesPrice(pm)
  {
    pm.probabilities[IndexOf(pm.outcomes, "Yes")]
  }

  function CandidateScores(sim: Similarity, candidate: string, markets: seq<PolyMarket>): (r: seq<real>)
    ensures |r| == |markets| && forall i :: 0 <= i < |markets| ==> r[i] == CandidateScore(sim, candidate, markets[i])
  {
    MapScores((m: PolyMarket) => CandidateScore(sim, candidate, m), markets)
  }

  function YesEligible(markets: seq<PolyMarket>): (r: seq<bool>)
    ensures |r| == |markets| && forall i :: 0 <= i < |markets| ==> r[i] == HasYesPrice(markets[i])
  {
    if |markets| == 0 then [] else YesEligible(markets[..|markets| - 1]) + [HasYesPrice(markets[|markets| - 1])]
  }

  /** Market `k` has a "Yes" price and scores strictly higher than every earlier market with one. */
  predicate FirstBestCandidate(sim: Similarity, candidate: string, markets: seq<PolyMarket>, k: nat)
    requires k < |markets|
  {
    && HasYesPrice(markets[k])
    && forall j :: 0 <= j < k && HasYesPrice(markets[j]) ==>
         CandidateScore(sim, candidate, markets[j]) < CandidateScore(sim, candidate, markets[k])
  }

  /**
   `find_poly_for_candidate`: the first eligible market of maximal score,
   accepted when that score reaches 0.40, with its "Yes" probability.
   */
  function FindPolyForCandidate(sim: Similarity, candidate: string, markets: seq<PolyMarket>): (r: Option<(PolyMarket, real)>)
    ensures r.Some? ==> r.value.0 in markets && HasYesPrice(r.value.0) && r.value.1 == YesProb(r.value.0)
    ensures r.Some? ==> CandidateScore(sim, candidate, r.value.0) >= CandidateThreshold
    ensures r.Some? ==>
      exists k :: 0 <= k < |markets| && markets[k] == r.value.0 && FirstBestCandidate(sim, candidate, markets, k)
  {
    var scores := CandidateScores(sim, candidate, markets);
    var eligible := YesEligible(markets);
    var k := BestAbove(scores, eligible, CandidateThreshold);
    if k.Some? then
      assert FirstBestCandidate(sim, candidate, markets, k.value) by {
        assert forall j :: 0 <= j < k.value ==> eligible[j] == HasYesPrice(markets[j]);
      }
      Some((markets[k.value], YesProb(markets[k.value])))
    else None
  }

  /** No market is chosen exactly when every market with a "Yes" price scores below the 0.40 gate. */
  lemma FindPolyForCandidateMisses(sim: Similarity, candidate: string, markets: seq<PolyMarket>)
    ensures FindPolyForCandidate(sim, candidate, markets).None?
            <==> forall i :: 0 <= i < |markets| && HasYesPrice(markets[i])
                   ==> CandidateScore(sim, candidate, markets[i]) < CandidateThreshold
  {
    var scores := CandidateScores(sim, candidate, markets);
    var eligible := YesEligible(markets);
    assert forall i :: 0 <= i < |markets| ==> scores[i] == CandidateScore(sim, candidate, markets[i])
                                              && (eligible[i] <==> HasYesPrice(markets[i]));
  }

  /** The chosen market scores at least as high as every market with a "Yes" price. */
  lemma FindPolyForCandidateIsMaximal(sim: Similarity, candidate: string, markets: seq<PolyMarket>, i: nat)
    requires i < |markets| && HasYesPrice(markets[i])
    ensures FindPolyForCandidate(sim, candidate, markets).Some? ==>
              CandidateScore(sim, candidate, markets[i])
              <= CandidateScore(sim, candidate, FindPolyForCandidate(sim, candidate, markets).value.0)
  {
    var scores := CandidateScores(sim, candidate, markets);
    var eligible := YesEligible(markets);
    var k := BestAbove(scores, eligible, CandidateThreshold);
    if k.Some? {
      assert eligible[i] && scores[i] == CandidateScore(sim, candidate, markets[i]);
      assert scores[k.value] == CandidateScore(sim, candidate, markets[k.value]);
    }
  }

  /** A runner whose every significant name token occurs in an eligible market's
      cleaned question is always matched to some market. */
  lemma AllPartsFoundIsMatched(sim: Similarity, candidate: string, markets: seq<PolyMarket>, i: nat)
    requires |NameParts(Clean(candidate))| > 0
    requires i < |markets| && HasYesPrice(markets[i])
    requires forall k :: 0 <= k < |NameParts(Clean(candidate))| ==>
               Contains(Clean(markets[i].question), NameParts(Clean(candidate))[k])
    ensures FindPolyForCandidate(sim, candidate, markets).Some?
  {
    var parts := NameParts(Clean(candidate));
    assert PartRatio(parts, Clean(markets[i].question)) == 1.0;
    assert CandidateScore(sim, candidate, markets[i]) >= 1.0;
    FindPolyForCandidateMisses(sim, candidate, markets);
  }
}
