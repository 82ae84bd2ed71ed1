/**
 The in-memory records the engine works on: prediction-market records (one
 per Polymarket question), bookmaker events with their bookmakers, markets
 and priced outcomes, and the edge alerts the scan emits.
 Probabilities, odds, liquidity and deltas are `real`: floating-point
 rounding is not modelled.
 */
module Records {
  import opened Collections

  /** A prediction-market question with parallel outcome and probability lists. */
  datatype PolyMarket = PolyMarket(
    question: string,
    outcomes: seq<string>,
    probabilities: seq<real>,
    liquidity: real,
    volume: real,
    daysToEnd: Option<int>,
    url: string)

  /** One priced outcome of a bookmaker market (decimal odds). */
  datatype BookOutcome = BookOutcome(name: string, price: real)

  /** A bookmaker market, tagged by its type ("h2h", "outrights", ...). */
  datatype BookMarket = BookMarket(key: string, outcomes: seq<BookOutcome>)

  datatype Bookmaker = Bookmaker(title: string, markets: seq<BookMarket>)

  /** A bookmaker event, known only by free-text fields; an absent field is "". */
  datatype OddsEvent = OddsEvent(
    sportTitle: string,
    homeTeam: string,
    awayTeam: string,
    bookmakers: seq<Bookmaker>)

  /** One edge signal: a prediction-market probability against a bookmaker's fair one. */
  datatype Alert = Alert(
    question: string,
    outcome: string,
    polyProb: real,
    bookieProb: real,
    decimalOdds: real,
    delta: real,
    bookmaker: string,
    matchScore: real,
    liquidity: real,
    volume: real,
    daysToEnd: Option<int>,
    url: string)

  /** The key the scan deduplicates on. */
  function Key(a: Alert): (string, string, string) {
    (a.question, a.outcome, a.bookmaker)
  }

  function Abs(x: real): real {
    if x < 0.0 then -x else x
  }

  /** A text similarity function, in place of `difflib.SequenceMatcher.ratio`. */
  type Similarity = (string, string) -> real

  /** The similarity is a ratio: every score lies in [0, 1]. */
  ghost predicate IsRatio(sim: Similarity) {
    forall a, b :: 0.0 <= sim(a, b) <= 1.0
  }
}
