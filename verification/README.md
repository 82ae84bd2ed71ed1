# Edge scanner: a Dafny model of the matching and edge-scoring core

The edge scanner compares prediction-market prices from Polymarket with bookmaker odds from
The Odds API. It flags the political questions where the two disagree. This project models
the pure core of that pipeline and proves properties about it:

- **Fuzzy matching** (`matcher.dfy`, module `Matcher`). There are three "best of N" scans:
  - a prediction-market question against bookmaker events: max of four similarities, a +0.12
    name bonus and a 0.28 gate;
  - an outcome label against bookmaker outcomes: 0.38 gate, with a bypass for "yes"/"no";
  - an outright runner against binary "Yes" markets: token-hit ratio or similarity, 0.40 gate.

  All three keep the first strict maximum: a later candidate replaces the current best only
  when it scores strictly higher. The string helpers they use (`str.lower`, `str.strip`,
  `str.split`, `_clean`) live in `text.dfy` (module `Text`); the lower-and-strip
  normalisation `_sim` applies before comparing (`NormSim`) is in `matcher.dfy`.
- **Fair probabilities** (`odds.dfy`, module `Odds`). Bookmaker decimal odds become implied
  probabilities with the overround removed. The result is a dictionary with Python's
  insertion-order keys, where the last duplicate name wins.
- **Market records** (`polymarket.dfy`, module `Polymarket`). This covers the acceptance rule
  that turns raw API records into markets, and the liquidity-or-volume filter.
- **The scan** (`passes.dfy` module `Passes`, and `scan.dfy` module `Scan`). It runs:
  - the horizon filter;
  - pass 1, which pairs every market's outcome labels with head-to-head ("h2h") bookmaker
    outcomes of the best-matching event;
  - pass 2, which pairs every outright runner with a "Yes" market;
  - a stable sort by decreasing absolute delta, then removal of repeated
    (question, outcome, bookmaker) alerts;
  - the direction and minimum-edge filters of the main view.

Shared records (markets, events, bookmakers, outcomes, alerts) are in `records.dfy`. Generic
sequence helpers (`Option`, `Filter`, `FilterMap`, `Count`) are in `collections.dfy`.

The text similarity (`difflib.SequenceMatcher.ratio`) is a parameter `sim` of type
`Similarity`. The predicate `IsRatio(sim)` says its scores lie in [0, 1], and it is assumed
only by the lemmas that bound scores. Inside the passes, the two matchers are passed as
function values (`LabelMatcher`, `RunnerMatcher`). `Pass1` and `Pass2` instantiate them with
`FindMatchingOutcome` and `FindPolyForCandidate`.

## Model

| member | source | states |
|---|---|---|
| Text.LowerSpec | matcher.py:11 | lower-casing leaves no upper-case letter, shifts A-Z by 32 and keeps every other character |
| Text.LowerIdempotent | matcher.py:6 | lower-casing twice is lower-casing once |
| Text.StripSpec | matcher.py:11 | the stripped text is a slice of the input with only whitespace cut at both ends, and it neither starts nor ends with whitespace |
| Text.StripKeeps | matcher.py:6 | any filter that rejects whitespace keeps the same characters, in the same order, before and after `strip` |
| Text.StripNoSpace | polymarket.py:29 | a text without whitespace is left unchanged by `strip` |
| Text.RemoveSpec | matcher.py:11 | removing a character deletes every occurrence of it and keeps every other character in order: the result is the input filtered by "differs from the character" |
| Text.RemoveKeeps | matcher.py:11 | removing a character that a filter rejects does not change what the filter keeps |
| Text.HalveSpaceRunsSpec | matcher.py:11 | replacing double spaces introduces no character and deletes only spaces: with the spaces removed, input and output are the same text; a text without a double space is unchanged |
| Text.HalveSpaceRunsLength | matcher.py:11 | the pass shortens the text iff it contains a double space, and never to less than half its length |
| Text.HalveSpaceRunsKeeps | matcher.py:11 | any filter that rejects the space keeps the same characters, in the same order, before and after the pass |
| Text.HalveSpaceRunsIsSinglePass | matcher.py:11 | one left-to-right pass: four spaces become two, not one |
| Text.SplitSpec | matcher.py:63 | `split()` yields non-empty, whitespace-free words, each contained in the text |
| Text.SplitCovers | matcher.py:63 | the words of `split()`, concatenated, are exactly the non-whitespace characters of the text in order, and there are no words iff the text is all whitespace |
| Text.CleanSpec | matcher.py:9-11 | `_clean` output has no upper-case letter, no '.' or ',', and no leading or trailing whitespace; its characters other than whitespace are exactly those of the lower-cased input other than whitespace, '.' and ',', in order |
| Matcher.NormSimIgnoresCase | matcher.py:5-6 | `_sim` gives the same score whatever the case of its first argument |
| Matcher.EventTextJoinsNonEmptyFields | matcher.py:14-19 | the event text is the non-empty fields among sport title, home team and away team, in that order, joined by single spaces |
| Matcher.SimilarityBase | matcher.py:27-32 | the base event score is the largest of the four similarities and equals one of them |
| Matcher.EventScoreBonus | matcher.py:33-34 | the score exceeds the base by exactly 0.12, or equals it when no outcome longer than 3 characters occurs in the event text |
| Matcher.EventScoreBound | matcher.py:27-34 | for a ratio similarity, every event score lies in [0, 1.12] |
| Matcher.BestAbove | matcher.py:35-37 | the strict-`>` scan returns nothing iff every eligible score is below the gate; otherwise it returns an eligible index at or above the gate that is maximal and strictly above every earlier eligible score |
| Matcher.FindBestEvent | matcher.py:22-37 | no event (score 0.0) iff every event scores below 0.28; otherwise the returned event is the first one with the maximal score, and that score is at least 0.28 |
| Matcher.FindBestEventIsMaximal | matcher.py:35-36 | no event scores above the returned score |
| Matcher.FindBestEventScoreBound | matcher.py:27-37 | for a ratio similarity, the returned score is at most 1.12 |
| Matcher.FirstPrice | matcher.py:48 | the price looked up is the price of the first outcome with that exact name, and it is absent iff no outcome has that name |
| Matcher.FindMatchingOutcome | matcher.py:40-50 | a returned name is non-empty and comes with the price of the first outcome of that name; it is the name of the first outcome with the maximal similarity (every earlier outcome scores strictly less, none scores more), that similarity is positive and reaches 0.38 unless the label is "yes"/"no"; all-zero similarities (so an empty list) give nothing |
| Matcher.FindMatchingOutcomeAccepts | matcher.py:43-49 | when all names are non-empty and some outcome reaches 0.38, a match is returned |
| Matcher.NamePartsSpec | matcher.py:61-63 | every name part is a word of `split()` longer than one character and contained in the cleaned name, and every such word is a name part |
| Matcher.Hits | matcher.py:71 | the hit count is at most the number of name parts, and equals it iff every part occurs in the question |
| Matcher.PartRatio | matcher.py:72 | the part ratio lies in [0, 1], is 0 without parts, and is 1 iff every part occurs in the question |
| Matcher.FindPolyForCandidate | matcher.py:53-92 | a returned market is one of the inputs, has a "Yes" outcome with a price, comes with the price at the first "Yes", scores at least 0.40, and is the first market with a "Yes" price to reach the maximal score: every earlier such market scores strictly less |
| Matcher.FindPolyForCandidateMisses | matcher.py:79-92 | nothing is returned iff every market with a "Yes" price scores below 0.40 |
| Matcher.FindPolyForCandidateIsMaximal | matcher.py:79-88 | no market with a "Yes" price scores above the returned market |
| Matcher.AllPartsFoundIsMatched | matcher.py:71-91 | a "Yes" market whose cleaned question contains every name part guarantees a match |
| Odds.RawValue | oddsapi.py:58 | the raw value is the reciprocal of the price when the price exceeds 1, and 0 otherwise |
| Odds.RawValueAntitone | oddsapi.py:58 | a higher valid price gives a strictly smaller raw value |
| Odds.RawOdds | oddsapi.py:58 | the raw dictionary has exactly the outcome names as keys, each listed once, with non-negative values |
| Odds.RawOddsLastWins | oddsapi.py:58 | a name's value comes from its last occurrence |
| Odds.FairProbabilities | oddsapi.py:56-60 | same keys as the raw dictionary, every value in [0, 1]; with a positive total every value is its raw value over the total and the values sum to 1; with a zero total the raw dictionary comes back unchanged |
| Odds.ValidLastPriceSumsToOne | oddsapi.py:58-60 | one name whose last price exceeds 1 makes the fair values sum to exactly 1 |
| Odds.AllValidPricesSumToOne | oddsapi.py:59-60 | when every price exceeds 1, the fair values sum to exactly 1 |
| Odds.NoValidPriceGivesZeros | oddsapi.py:60 | when no price exceeds 1, the raw dictionary comes back and every value is 0 |
| Odds.FairAntitone | oddsapi.py:58-60 | of two names with valid last prices, the higher price gets the strictly lower fair probability |
| Polymarket.ToReal | polymarket.py:32-33 | `float(x or 0)` for liquidity and volume: an absent value reads as 0, a number as itself, and a malformed value fails |
| Polymarket.PriceToReal | polymarket.py:31 | `float(p)` for one price: it converts iff the price is a number, to that number; an absent or malformed price fails |
| Polymarket.ToReals | polymarket.py:31 | the price list converts iff every price is a number, and then element by element to those numbers |
| Polymarket.ParseWith | polymarket.py:25-35 | a record is accepted iff both lists are non-empty and of equal length, every price is a number, and liquidity and volume are absent or numbers; the market has the stripped question, the same outcomes, the prices in order as probabilities, the converted liquidity and volume, and the slug URL |
| Polymarket.ParseMarket | polymarket.py:19-37 | as written: acceptance as above, and the market never carries a horizon |
| Polymarket.ParseMarketDated | polymarket.py:27-35 | the corrected record accepts the same inputs and differs only by carrying the record's horizon |
| Polymarket.ParseMarkets | polymarket.py:18-38 | no more markets than records, every market has as many probabilities as outcomes and no horizon, and every accepted record's market is present |
| Polymarket.ParseMarketsDated | polymarket.py:18-38 | no more markets than records, every market has as many probabilities as outcomes |
| Polymarket.ParseMarketsMembers | polymarket.py:18-38 | a market is in the parsed list iff some record parses to it |
| Polymarket.ParseMarketsDatedMembers | polymarket.py:18-38 | with horizons carried, a market is in the list iff some record parses to it |
| Polymarket.ParseMarketsDatedKeeps | polymarket.py:18-38 | every record the corrected parser accepts yields a market in the list |
| Polymarket.ParseMarketsDatedAgrees | polymarket.py:18-38 | both loops keep the same records in the same order, differing only in the horizon |
| Polymarket.FilterMarkets | polymarket.py:41-42 | exactly the markets with liquidity at least the minimum or volume at least the minimum are kept |
| Polymarket.HighVolumeAlwaysKept | polymarket.py:41-42 | with the default volume floor of 5000, a market with volume of at least 5000 passes whatever the liquidity floor |
| Polymarket.FilterMarketsIdempotent | polymarket.py:41-42 | filtering twice with the same thresholds is filtering once |
| Polymarket.FilterMarketsMonotone | polymarket.py:41-42 | raising both thresholds only removes markets: the looser filter then the stricter one is the stricter one |
| Passes.Pass1Pairing | app.py:103-125 | a label yields no alert iff its index has no probability, no outcome matches, or the match has an empty name or zero odds; otherwise the alert carries the label, its probability, the fair probability of the matched name (0.0 if absent), the matched odds, delta = poly minus bookie, the bookmaker and the match score |
| Passes.Pass1PairingsShape | app.py:103-125 | every pairing of a market's labels is an alert for that market and bookmaker with a bookie probability in [0, 1] |
| Passes.Pass1Market | app.py:99-125 | a bookmaker market not keyed "h2h" yields nothing; otherwise no more alerts than the prediction market has labels, each for that market and bookmaker |
| Passes.Pass1MarketMembers | app.py:99-125 | an alert is raised for a bookmaker market iff the market is keyed "h2h" and the alert is the surviving pairing of one of the labels |
| Passes.Pass1Bookmaker | app.py:97-125 | a bookmaker without "h2h" markets yields nothing; every alert names the bookmaker |
| Passes.Pass1BookmakerIsFlatMap | app.py:99-125 | a bookmaker's alerts are those of its markets, concatenated in order |
| Passes.Pass1BookmakerMembers | app.py:99-125 | an alert comes from a bookmaker iff it comes from one of its markets |
| Passes.Pass1Event | app.py:97-125 | an event without bookmakers yields nothing; every alert is for the market's question and labels |
| Passes.Pass1EventIsFlatMap | app.py:97-125 | an event's alerts are those of its bookmakers, concatenated in order |
| Passes.Pass1EventMembers | app.py:97-125 | an alert comes from an event iff it comes from one of its bookmakers |
| Passes.Pass1ForMarket | app.py:93-125 | an unmatched market yields no alert; every alert carries the event's match score, at least 0.28 |
| Passes.Pass1AtPairing | app.py:97-125 | the alert at a bookmaker and market of the best event is that market's pairing when it is keyed "h2h", and nothing otherwise |
| Passes.Pass1ForMarketSound | app.py:93-125 | every alert of a market is the surviving pairing of one of its labels against an h2h market of its best event |
| Passes.Pass1ForMarketKeeps | app.py:93-125 | every surviving pairing of a label against an h2h market of the best event is among the market's alerts |
| Passes.Pass1ForMarketMembers | app.py:93-125 | an alert belongs to a market iff it is such a surviving pairing |
| Passes.Pass1Alerts | app.py:92-125 | every pass-1 alert has a consistent delta, a match score of at least 0.28 and a bookie probability in [0, 1] |
| Passes.Pass1AlertsIsFlatMap | app.py:92-125 | pass 1's alerts are those of each prediction market, concatenated in order |
| Passes.Pass1AlertsMembers | app.py:92-125 | an alert is raised in pass 1 iff it is raised for one of the prediction markets |
| Passes.UnmatchedMarketsRaiseNothing | app.py:93-96 | markets that match no event raise no alert |
| Passes.Pass1 | app.py:89-125 | the unmatched count is at most the number of markets, is 0 iff every market matches, and equals the number of markets only when there are no pass-1 alerts |
| Passes.Pass1Members | app.py:89-125 | an alert is in pass 1's list iff it is the surviving pairing of a label of one of the markets against an h2h market of that market's best event |
| Passes.UnmatchedCountIsExact | app.py:92-96 | the unmatched count is the number of markets for which `find_best_event` finds no event |
| Passes.Pass2Pairing | app.py:135-156 | a runner yields no alert iff no market matches it; otherwise the alert is a "Yes" alert on the matched question with the market's "Yes" price, the runner's fair probability (0.0 if absent), the runner's odds, delta = poly minus bookie and match score 0.9 |
| Passes.Pass2PairingsShape | app.py:135-156 | every runner's alert is a "Yes" alert from the bookmaker with a bookie probability in [0, 1], and none exist when the matcher matches nothing |
| Passes.Pass2Market | app.py:131-156 | a bookmaker market not keyed "outrights" yields nothing; otherwise no more alerts than it has runners, each a "Yes" alert from the bookmaker |
| Passes.Pass2MarketMembers | app.py:131-156 | an alert is raised for a bookmaker market iff the market is keyed "outrights" and the alert is the pairing of one of its runners |
| Passes.Pass2Bookmaker | app.py:129-156 | a bookmaker without "outrights" markets yields nothing; every alert names the bookmaker |
| Passes.Pass2BookmakerIsFlatMap | app.py:131-156 | a bookmaker's alerts are those of its markets, concatenated in order |
| Passes.Pass2BookmakerMembers | app.py:131-156 | an alert comes from a bookmaker iff it comes from one of its markets |
| Passes.Pass2Event | app.py:129-156 | every alert of an event is a "Yes" alert with match score 0.9 |
| Passes.Pass2EventIsFlatMap | app.py:129-156 | an event's alerts are those of its bookmakers, concatenated in order |
| Passes.Pass2EventMembers | app.py:129-156 | an alert comes from an event iff it comes from one of its bookmakers |
| Passes.Pass2Events | app.py:128-156 | no alert when the matcher matches nothing; every alert is a "Yes" alert with a consistent delta |
| Passes.Pass2EventsIsFlatMap | app.py:128-156 | the alerts of a list of events are those of each event, concatenated in order |
| Passes.Pass2EventsMembers | app.py:128-156 | an alert comes from a list of events iff it comes from one of them |
| Passes.Pass2AtPairing | app.py:128-156 | the alert at a runner of an outrights market is that runner's pairing |
| Passes.Pass2EventsSound | app.py:128-156 | every alert is the pairing of some runner of some outrights market of some bookmaker of some event |
| Passes.Pass2EventsKeeps | app.py:128-156 | every such pairing that yields an alert is in the list |
| Passes.Pass2 | app.py:128-156 | with no prediction markets pass 2 raises nothing; every alert is a "Yes" alert with match score 0.9, delta = poly minus bookie and a bookie probability in [0, 1] |
| Passes.Pass2Members | app.py:128-156 | an alert is in pass 2's list iff it is the pairing of a runner of an outrights market with the market its matcher picks among the scanned markets |
| Scan.DaysFilter | app.py:85-86 | without a limit every market is kept; with one, exactly the markets whose horizon is known and between 0 and the limit |
| Scan.UndatedMarketsDropped | app.py:86 | markets without a horizon never survive a limit |
| Scan.InsertPermutes | app.py:158 | insertion adds exactly the new alert |
| Scan.InsertRanked | app.py:158 | insertion keeps a list ordered by non-increasing absolute delta |
| Scan.InsertStable | app.py:158 | insertion places the new alert after every alert of equal absolute delta |
| Scan.SortByEdge | app.py:158 | the sort is a permutation of its input ordered by non-increasing absolute delta |
| Scan.SortByEdgeStable | app.py:158 | alerts of equal absolute delta keep their emission order |
| Scan.DedupSound | app.py:159-164 | no two kept alerts share a key, and each kept alert is the first of its key in its input |
| Scan.DedupKeepsKey | app.py:159-164 | every key of the input is kept |
| Scan.DedupKeepsFirst | app.py:159-164 | the first alert of every key is kept |
| Scan.DedupKeepsRanked | app.py:159-164 | removing repeats keeps a ranked list ranked |
| Scan.DedupKeys | app.py:159-164 | the kept alerts have exactly the keys of the input |
| Scan.DedupLoop | app.py:159-164 | the `seen`-set loop computes the de-duplication, with unique keys and the same key set as its input |
| Scan.RankAndDedup | app.py:158-164 | the result is ranked, has unique keys and exactly the input's keys, and holds only input alerts |
| Scan.SurvivorHasLargestEdge | app.py:158-164 | the alert kept for a key has the largest absolute delta among that key's alerts |
| Scan.SurvivorIsEarliestOfTies | app.py:158-164 | among the alerts with the kept alert's key and absolute delta, the kept one was emitted first |
| Scan.ScanMarkets | app.py:83-86 | the scanned markets pass the liquidity-or-volume filter with the default volume floor and, under a limit, resolve within it |
| Scan.ScanMarketsAsWritten | app.py:83-86 | as written: the scanned markets pass the liquidity-or-volume filter |
| Scan.ScanMarketsMembers | app.py:83-86 | with horizons carried, a market is scanned iff some record parses to it, it passes the liquidity-or-volume filter, and under a limit it resolves within it |
| Scan.ScanMarketsAsWrittenMembers | app.py:83-86 | as written: without a limit a market is scanned iff some record parses to it and it passes the filter; with a limit nothing is scanned |
| Scan.ScanOver | app.py:89-167 | the market count is the number of scanned markets, with the unmatched count at most that and 0 iff all match; no markets means no alerts; the alerts are ranked, have unique keys, consistent deltas and bookie probabilities in [0, 1], and carry exactly the keys of the alerts both passes raise |
| Scan.ScanKeepsBestOfEachKey | app.py:158-164 | for every alert either pass raises, the result holds an alert with its key and at least its absolute delta |
| Scan.RunScan | app.py:78-167 | no odds key gives an empty result; otherwise the market count is the number of scanned markets, unmatched is at most that, which is at most the number of records, and the alerts are ranked, key-unique, well formed and carry exactly the keys both passes raise over the scanned markets |
| Scan.RunScanAsWritten | app.py:78-167 | as written: the same guarantees over the parser that drops horizons |
| Scan.HorizonLimitEmptiesScan | app.py:85-86 | as written, any horizon limit yields no markets, no alerts and no unmatched markets |
| Scan.DatedMarketIsScanned | app.py:85-86 | with horizons carried through, an accepted record that passes the liquidity-or-volume filter and resolves within the limit is scanned |
| Scan.DisplayFilter | app.py:183-188 | an alert is shown iff its absolute delta reaches the minimum and the direction allows it ("Poly > Bookie" keeps positive deltas, else "Bookie > Poly" keeps negative ones, else all) |
| Scan.DisplayKeepsRanking | app.py:183-188 | the displayed alerts keep the scan's ranking |
| Scan.DisplayIsOneFilter | app.py:183-188 | the two display filters in sequence are one filter on "shown" |
| Scan.DisplayWithoutDirection | app.py:183-188 | with neither direction chosen, the display is exactly the minimum-edge filter |

## Left out

- The similarity ratio (`difflib.SequenceMatcher.ratio`, matcher.py:6) is a parameter, not an implementation. Bounds on scores assume only that it lies in [0, 1] (`IsRatio`).
- `str.lower` is modelled for ASCII letters only. Other Unicode case mappings are not modelled. `str.strip` and `str.split` use Python's whitespace set.
- Floating point is not modelled. Probabilities, odds, liquidity and deltas are `real`, so "sums to 1" is exact.
- Network I/O is not modelled: `fetch_political_markets`' request, `fetch_sports`, `fetch_odds` and `fetch_all_political`. Bookmaker events are an input to the scan. betfair.py is not part of this model.
- JSON decoding of string-encoded outcome and price lists (polymarket.py:23-24) is not modelled. Raw records arrive with decoded lists.
- A number field is absent (missing, null or ""), a number, or something `float()` rejects (`NumField`). Prices go through `float(p)`, so an absent price rejects the record (`PriceToReal`); liquidity and volume go through `float(x or 0)`, so an absent one reads as 0 (`ToReal`). Other exceptions in the parsing loop are not modelled.
- The `id` field of a market record is not modelled, because the scan never reads it.
- A missing slug is modelled as the empty string.
- Missing dictionary keys that would raise `KeyError` are not modelled, because every record has all its fields. This covers a bookmaker without "title", an outcome without "price" or "name", and a market without "key".
- Streamlit is not modelled: the password gate, the widgets, the `st.cache_data` caching, the timestamp of the scan result, and the table and card rendering.
- The clock is not modelled. The horizon (`days_to_end`) is an input field of a raw record, because no code in the repository computes it.
- An event whose `sport_title`, `home_team` or `away_team` is present but null makes `find_best_event` raise: `_event_text` skips the null (matcher.py:15-19), but `_sim` then calls `.lower()` on it (matcher.py:6 and 29-31), and `_run_scan` (app.py:93) does not catch the error. Event fields are strings in the model: a missing field is "", as `.get(key, "")` gives, and a null field, with the crash it causes, is not modelled.
- Scan.ScanOver: states which keys survive and that each key keeps its largest delta (`ScanKeepsBestOfEachKey`), but not that each kept alert is literally one of the passes' alerts; `RankAndDedup` states that for its input.
- Passes.Pass2: does not state that an alert's question is the question of one of the scanned markets; `Pass2Pairing` states it for the market its matcher returns.
- Matcher.FindPolyForCandidate: states the properties of a returned market; the "nothing returned" direction is the lemma `FindPolyForCandidateMisses`.
- Polymarket.ParseMarkets: the function's contract gives bounds, shape and completeness; that every market comes from a record is the lemma `ParseMarketsMembers`.
- Polymarket.ParseMarketsDated: the function's contract gives bounds and shape; membership in both directions is the lemma `ParseMarketsDatedMembers`.
- Passes.Pass1Bookmaker: the function's contract gives the shape of its alerts; which alerts it raises is `Pass1BookmakerMembers`.
- Passes.Pass1Event: the function's contract gives the shape of its alerts; which alerts it raises is `Pass1EventMembers`.
- Passes.Pass1ForMarket: the function's contract gives the shape of its alerts; which alerts it raises is `Pass1ForMarketMembers`.
- Passes.Pass1Alerts: the function's contract gives the shape of its alerts; which alerts it raises is `Pass1AlertsMembers`.
- Passes.Pass1: the function's contract gives the unmatched count and alert shape; which alerts it raises is `Pass1Members`.
- Passes.Pass2Bookmaker: the function's contract gives the shape of its alerts; which alerts it raises is `Pass2BookmakerMembers`.
- Passes.Pass2Event: the function's contract gives the shape of its alerts; which alerts it raises is `Pass2EventMembers`.
- Passes.Pass2Events: the function's contract gives the shape of its alerts; which alerts it raises is `Pass2EventsSound` with `Pass2EventsKeeps`.
- Scan.ScanMarketsAsWritten: the function's contract gives bounds and the filter; membership is `ScanMarketsAsWrittenMembers`.
- Text.SplitSpec: states the shape of the words; that they cover the text's non-whitespace characters in order is `SplitCovers`.

## Findings

| source | as written | input that shows it | evidently intended | confidence | as-written member | corrected member |
|---|---|---|---|---|---|---|
| polymarket.py:27-35 | the parsed market record has no `days_to_end` field, so the horizon filter at app.py:86 drops every market whenever a limit is set | any scan with a horizon limit, e.g. the sidebar default of 30 days (app.py:55-57): zero markets, zero alerts, zero unmatched | the record carries the market's days to resolution, so the filter keeps the markets that resolve within the limit (app.py:123 and app.py:154 read the same field) | high, not executed | Scan.RunScanAsWritten, Scan.HorizonLimitEmptiesScan | Scan.RunScan, Scan.DatedMarketIsScanned |
