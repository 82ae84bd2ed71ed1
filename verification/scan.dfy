/**
 The scan itself (`_run_scan` in app.py) and the display filters applied to its
 result: the horizon filter, the two passes, the ranking by absolute edge, the
 removal of repeated (question, outcome, bookmaker) alerts, and the direction
 and minimum-edge filters of the main view.
 */
module Scan {
  import opened Collections
  import opened Text
  import opened Records
  import opened Polymarket
  import opened Passes

  // ---------------------------------------------------------------------------
  // Horizon filter

  /** The market resolves within `maxDays` days: its horizon is known and lies in `0..maxDays`. */
  predicate WithinDays(m: PolyMarket, maxDays: int) {
    m.daysToEnd.Some? && 0 <= m.daysToEnd.value <= maxDays
  }

  /** The horizon filter: every market when there is no limit, else the markets resolving within it. */
  function DaysFilter(markets: seq<PolyMarket>, maxDays: Option<int>): (r: seq<PolyMarket>)
    ensures maxDays.None? ==> r == markets
    ensures |r| <= |markets|
    ensures maxDays.Some? ==> forall m :: m in r <==> m in markets && WithinDays(m, maxDays.value)
  {
    match maxDays
    case None => markets
    case Some(d) =>
      FilterSpec(markets, (m: PolyMarket) => WithinDays(m, d));
      Filter(markets, (m: PolyMarket) => WithinDays(m, d))
  }

  /** A market with no known horizon never survives a horizon limit. */
  lemma UndatedMarketsDropped(markets: seq<PolyMarket>, d: int)
    requires forall i :: 0 <= i < |markets| ==> markets[i].daysToEnd.None?
    ensures DaysFilter(markets, Some(d)) == []
  {
    FilterNone(markets, (m: PolyMarket) => WithinDays(m, d));
  }

  // ---------------------------------------------------------------------------
  // Ranking: a stable sort by decreasing absolute edge

  /** The absolute edge of an alert, the sort key. */
  function Edge(a: Alert): real {
    Abs(a.delta)
  }

  /** Alerts ordered by non-increasing absolute edge. */
  predicate Ranked(s: seq<Alert>) {
    forall i, j :: 0 <= i < j < |s| ==> Edge(s[i]) >= Edge(s[j])
  }

  /** Selects the alerts whose absolute edge is exactly `v`. */
  function EdgeIs(v: real): Alert -> bool {
    (a: Alert) => Edge(a) == v
  }

  /** Inserts `x` into a ranked list after every alert whose edge is at least as large. */
  function Insert(x: Alert, s: seq<Alert>): (r: seq<Alert>)
    ensures |r| == |s| + 1
    decreases |s|
  {
    if |s| == 0 then [x]
    else if Edge(s[0]) >= Edge(x) then [s[0]] + Insert(x, s[1..])
    else [x] + s
  }

  /** Insertion adds exactly `x`. */
  lemma {:induction false} InsertPermutes(x: Alert, s: seq<Alert>)
    ensures multiset(Insert(x, s)) == multiset(s) + multiset{x}
    decreases |s|
  {
    if |s| > 0 && Edge(s[0]) >= Edge(x) {
      InsertPermutes(x, s[1..]);
      assert s == [s[0]] + s[1..];
    }
  }

  /** Insertion keeps a list ranked. */
  lemma {:induction false} InsertRanked(x: Alert, s: seq<Alert>)
    requires Ranked(s)
    ensures Ranked(Insert(x, s))
    decreases |s|
  {
    if |s| > 0 && Edge(s[0]) >= Edge(x) {
      var rest := Insert(x, s[1..]);
      InsertRanked(x, s[1..]);
      InsertPermutes(x, s[1..]);
      forall k | 0 <= k < |rest|
        ensures Edge(s[0]) >= Edge(rest[k])
      {
        assert rest[k] in multiset(rest);
        assert rest[k] == x || rest[k] in multiset(s[1..]);
      }
      assert Insert(x, s) == [s[0]] + rest;
    }
  }

  /** The alerts of one edge value keep their relative order through an insertion,
      and the inserted alert comes after them. */
  lemma {:induction false} InsertStable(x: Alert, s: seq<Alert>, v: real)
    requires Ranked(s)
    ensures Filter(Insert(x, s), EdgeIs(v)) == Filter(s, EdgeIs(v)) + Filter([x], EdgeIs(v))
    decreases |s|
  {
    if |s| == 0 {
      assert Insert(x, s) == [x];
      assert Filter(s, EdgeIs(v)) == [];
    } else if Edge(s[0]) >= Edge(x) {
      InsertStable(x, s[1..], v);
      InsertStableStep(x, s, v);
    } else {
      InsertStableFront(x, s, v);
    }
  }

  /** The inductive step of `InsertStable`: `x` goes past the head. */
  lemma InsertStableStep(x: Alert, s: seq<Alert>, v: real)
    requires |s| > 0 && Edge(s[0]) >= Edge(x)
    requires Filter(Insert(x, s[1..]), EdgeIs(v)) == Filter(s[1..], EdgeIs(v)) + Filter([x], EdgeIs(v))
    ensures Filter(Insert(x, s), EdgeIs(v)) == Filter(s, EdgeIs(v)) + Filter([x], EdgeIs(v))
  {
    var p := EdgeIs(v);
    var tail := Insert(x, s[1..]);
    var extra := Filter([x], p);
    FilterConsStep(s[0], tail, s[1..], extra, p);
    assert Insert(x, s) == [s[0]] + tail;
    assert s == [s[0]] + s[1..];
  }

  /** The base of `InsertStable`: `x` goes in front of a ranked list of smaller edges. */
  lemma InsertStableFront(x: Alert, s: seq<Alert>, v: real)
    requires Ranked(s) && |s| > 0 && Edge(s[0]) < Edge(x)
    ensures Filter(Insert(x, s), EdgeIs(v)) == Filter(s, EdgeIs(v)) + Filter([x], EdgeIs(v))
  {
    var p := EdgeIs(v);
    assert Insert(x, s) == [x] + s;
    FilterConcat([x], s, p);
    if p(x) {
      NoneSelected(s, p, v);
    } else {
      assert Filter([x], p) == [];
    }
  }

  /** A ranked list whose first edge is below `v` holds no alert of edge `v`. */
  lemma NoneSelected(s: seq<Alert>, p: Alert -> bool, v: real)
    requires Ranked(s) && |s| > 0 && Edge(s[0]) < v
    requires p == EdgeIs(v)
    ensures Filter(s, p) == []
  {
  }

  /** `alerts.sort(key=abs(delta), reverse=True)`: insertion of each alert, in order. */
  function SortByEdge(xs: seq<Alert>): (r: seq<Alert>)
    ensures |r| == |xs|
    ensures Ranked(r)
    ensures multiset(r) == multiset(xs)
    decreases |xs|
  {
    if |xs| == 0 then []
    else
      var n := |xs| - 1;
      assert xs == xs[..n] + [xs[n]];
      InsertRanked(xs[n], SortByEdge(xs[..n]));
      InsertPermutes(xs[n], SortByEdge(xs[..n]));
      Insert(xs[n], SortByEdge(xs[..n]))
  }

  /** The sort is stable: alerts of equal absolute edge keep their original relative order. */
  lemma {:induction false} SortByEdgeStable(xs: seq<Alert>, v: real)
    ensures Filter(SortByEdge(xs), EdgeIs(v)) == Filter(xs, EdgeIs(v))
    decreases |xs|
  {
    if |xs| > 0 {
      var n := |xs| - 1;
      var p := EdgeIs(v);
      var pre := xs[..n];
      var sorted := SortByEdge(pre);
      SortByEdgeStable(pre, v);
      InsertStable(xs[n], sorted, v);
      FilterConcat(pre, [xs[n]], p);
      assert xs == pre + [xs[n]];
      SortByEdgeStep(xs);
    }
  }

  /** Sorting a list is inserting its last alert into its sorted prefix. */
  lemma SortByEdgeStep(xs: seq<Alert>)
    requires |xs| > 0
    ensures SortByEdge(xs) == Insert(xs[|xs| - 1], SortByEdge(xs[..|xs| - 1]))
  {
  }

  // ---------------------------------------------------------------------------
  // Removing repeated (question, outcome, bookmaker) alerts

  /** The keys of the alerts of `s`. */
  function KeysOf(s: seq<Alert>): set<(string, string, string)> {
    set a | a in s :: Key(a)
  }

  /** No two alerts of `s` share a key. */
  predicate UniqueKeys(s: seq<Alert>) {
    forall i, j :: 0 <= i < j < |s| ==> Key(s[i]) != Key(s[j])
  }

  /** Alert `i` is the first of `xs` with its key. */
  predicate FirstOfKey(xs: seq<Alert>, i: nat)
    requires i < |xs|
  {
    forall j :: 0 <= j < i ==> Key(xs[j]) != Key(xs[i])
  }

  /** The de-duplication loop: an alert is kept when no earlier kept alert has its key. */
  function Dedup(xs: seq<Alert>): (r: seq<Alert>)
    ensures |r| <= |xs|
    decreases |xs|
  {
    if |xs| == 0 then []
    else
      var n := |xs| - 1;
      var prev := Dedup(xs[..n]);
      if Key(xs[n]) in KeysOf(prev) then prev else prev + [xs[n]]
  }

  /** Every kept alert comes from the input, first of its key there, and no key is kept twice. */
  lemma {:induction false} DedupSound(xs: seq<Alert>)
    ensures UniqueKeys(Dedup(xs))
    ensures forall k :: 0 <= k < |Dedup(xs)| ==>
              exists i :: 0 <= i < |xs| && xs[i] == Dedup(xs)[k] && FirstOfKey(xs, i)
    decreases |xs|
  {
    if |xs| > 0 {
      var n := |xs| - 1;
      var prev := Dedup(xs[..n]);
      DedupSound(xs[..n]);
      var r := Dedup(xs);
      forall k | 0 <= k < |prev|
        ensures exists i :: 0 <= i < |xs| && xs[i] == prev[k] && FirstOfKey(xs, i)
      {
        var i :| 0 <= i < n && xs[..n][i] == prev[k] && FirstOfKey(xs[..n], i);
        assert xs[i] == prev[k];
        assert FirstOfKey(xs, i) by {
          forall j | 0 <= j < i ensures Key(xs[j]) != Key(xs[i]) {
            assert xs[..n][j] == xs[j];
          }
        }
      }
      if Key(xs[n]) !in KeysOf(prev) {
        assert r == prev + [xs[n]];
        forall j | 0 <= j < n
          ensures Key(xs[j]) != Key(xs[n])
        {
          DedupKeepsKey(xs[..n], j);
          assert xs[..n][j] == xs[j];
        }
        assert FirstOfKey(xs, n);
        forall i | 0 <= i < |prev|
          ensures Key(prev[i]) != Key(xs[n])
        {
          assert prev[i] in prev;
        }
      }
    }
  }

  /** The key of every input alert is kept. */
  lemma {:induction false} DedupKeepsKey(xs: seq<Alert>, i: nat)
    requires i < |xs|
    ensures Key(xs[i]) in KeysOf(Dedup(xs))
    decreases |xs|
  {
    var n := |xs| - 1;
    var prev := Dedup(xs[..n]);
    if i < n {
      DedupKeepsKey(xs[..n], i);
      assert xs[..n][i] == xs[i];
      var a :| a in prev && Key(a) == Key(xs[i]);
      assert a in Dedup(xs);
    } else if Key(xs[n]) !in KeysOf(prev) {
      assert xs[n] in Dedup(xs);
    }
  }

  /** The first alert of each key is kept. */
  lemma DedupKeepsFirst(xs: seq<Alert>, i: nat)
    requires i < |xs| && FirstOfKey(xs, i)
    ensures xs[i] in Dedup(xs)
  {
    DedupKeepsKey(xs, i);
    DedupSound(xs);
    var r := Dedup(xs);
    var a :| a in r && Key(a) == Key(xs[i]);
    var k :| 0 <= k < |r| && r[k] == a;
    var i' :| 0 <= i' < |xs| && xs[i'] == a && FirstOfKey(xs, i');
    FirstOfKeyUnique(xs, i, i');
  }

  /** Two alerts that are each first of their key, with the same key, are the same position. */
  lemma FirstOfKeyUnique(xs: seq<Alert>, i: nat, j: nat)
    requires i < |xs| && j < |xs| && FirstOfKey(xs, i) && FirstOfKey(xs, j)
    requires Key(xs[i]) == Key(xs[j])
    ensures i == j
  {
  }

  /** The de-duplication keeps a ranked list ranked. */
  lemma {:induction false} DedupKeepsRanked(xs: seq<Alert>)
    requires Ranked(xs)
    ensures Ranked(Dedup(xs))
    decreases |xs|
  {
    if |xs| > 0 {
      var n := |xs| - 1;
      var prev := Dedup(xs[..n]);
      assert Ranked(xs[..n]);
      DedupKeepsRanked(xs[..n]);
      DedupSound(xs[..n]);
      forall k | 0 <= k < |prev|
        ensures Edge(prev[k]) >= Edge(xs[n])
      {
        var i :| 0 <= i < n && xs[..n][i] == prev[k] && FirstOfKey(xs[..n], i);
        assert xs[i] == prev[k];
      }
    }
  }

  /**
   The de-duplication loop as written: a `seen` set of keys and the list of kept
   alerts, extended in input order. It computes `Dedup`.
   */
  method DedupLoop(xs: seq<Alert>) returns (unique: seq<Alert>)
    ensures unique == Dedup(xs)
    ensures UniqueKeys(unique) && KeysOf(unique) == KeysOf(xs)
  {
    var seen: set<(string, string, string)> := {};
    unique := [];
    var i := 0;
    while i < |xs|
      invariant 0 <= i <= |xs|
      invariant unique == Dedup(xs[..i])
      invariant seen == KeysOf(unique)
    {
      assert xs[..i + 1][..i] == xs[..i];
      var k := Key(xs[i]);
      if k !in seen {
        seen := seen + {k};
        unique := unique + [xs[i]];
      }
      i := i + 1;
    }
    assert xs[..i] == xs;
    DedupSound(xs);
    DedupKeys(xs);
  }

  /** The kept alerts have exactly the keys of the input. */
  lemma DedupKeys(xs: seq<Alert>)
    ensures KeysOf(Dedup(xs)) == KeysOf(xs)
  {
    DedupSound(xs);
    forall key | key in KeysOf(xs) ensures key in KeysOf(Dedup(xs)) {
      var a :| a in xs && Key(a) == key;
      var i :| 0 <= i < |xs| && xs[i] == a;
      DedupKeepsKey(xs, i);
    }
    forall key | key in KeysOf(Dedup(xs)) ensures key in KeysOf(xs) {
      var r := Dedup(xs);
      var a :| a in r && Key(a) == key;
      var k :| 0 <= k < |r| && r[k] == a;
      var i :| 0 <= i < |xs| && xs[i] == r[k] && FirstOfKey(xs, i);
      assert xs[i] in xs;
    }
  }

  // ---------------------------------------------------------------------------
  // The ranked, de-duplicated alert list

  /** Sort by decreasing absolute edge, then keep the first alert of each key. */
  function RankAndDedup(alerts: seq<Alert>): (r: seq<Alert>)
    ensures |r| <= |alerts|
    ensures Ranked(r) && UniqueKeys(r) && KeysOf(r) == KeysOf(alerts)
    ensures forall a :: a in r ==> a in alerts
  {
    var sorted := SortByEdge(alerts);
    DedupKeepsRanked(sorted);
    DedupSound(sorted);
    DedupKeys(sorted);
    SameMembers(sorted, alerts);
    var r := Dedup(sorted);
    forall a | a in r ensures a in alerts {
      var k :| 0 <= k < |r| && r[k] == a;
      var i :| 0 <= i < |sorted| && sorted[i] == r[k] && FirstOfKey(sorted, i);
      assert sorted[i] in sorted;
    }
    r
  }

  /** Two sequences that are permutations of each other have the same members and keys. */
  lemma SameMembers(s: seq<Alert>, t: seq<Alert>)
    requires multiset(s) == multiset(t)
    ensures forall a :: a in s <==> a in t
    ensures KeysOf(s) == KeysOf(t)
  {
    forall a ensures a in s <==> a in t {
      assert a in s <==> a in multiset(s);
      assert a in t <==> a in multiset(t);
    }
  }

  /** The alert kept for a key has the largest absolute edge among the alerts with that key. */
  lemma SurvivorHasLargestEdge(alerts: seq<Alert>, a: Alert, b: Alert)
    requires a in RankAndDedup(alerts) && b in alerts && Key(b) == Key(a)
    ensures Edge(b) <= Edge(a)
  {
    var sorted := SortByEdge(alerts);
    var r := Dedup(sorted);
    DedupSound(sorted);
    var k :| 0 <= k < |r| && r[k] == a;
    var i :| 0 <= i < |sorted| && sorted[i] == a && FirstOfKey(sorted, i);
    assert b in multiset(sorted) by {
      assert b in multiset(alerts);
    }
    var j :| 0 <= j < |sorted| && sorted[j] == b;
    FirstOfKeyIsLargest(sorted, i, j);
  }

  /** Selects the alerts tied with `a`: same key and same absolute edge. */
  function TiedWith(a: Alert): Alert -> bool {
    (b: Alert) => Key(b) == Key(a) && Edge(b) == Edge(a)
  }

  /** Among the alerts tied with a kept alert, the kept one was emitted first. */
  lemma SurvivorIsEarliestOfTies(alerts: seq<Alert>, a: Alert)
    requires a in RankAndDedup(alerts)
    ensures |Filter(alerts, TiedWith(a))| > 0 && Filter(alerts, TiedWith(a))[0] == a
  {
    var sorted := SortByEdge(alerts);
    var r := Dedup(sorted);
    var tied := TiedWith(a);
    var same := EdgeIs(Edge(a));
    DedupSound(sorted);
    var k :| 0 <= k < |r| && r[k] == a;
    var i :| 0 <= i < |sorted| && sorted[i] == a && FirstOfKey(sorted, i);
    FilterHead(sorted, tied, i);
    SortByEdgeStable(alerts, Edge(a));
    FilterNarrow(sorted, same, tied);
    FilterNarrow(alerts, same, tied);
  }

  /** In a ranked list, the first alert of a key has the largest edge of its key. */
  lemma FirstOfKeyIsLargest(s: seq<Alert>, i: nat, j: nat)
    requires Ranked(s) && i < |s| && j < |s| && FirstOfKey(s, i) && Key(s[j]) == Key(s[i])
    ensures Edge(s[j]) <= Edge(s[i])
  {
    assert i <= j;
  }

  // ---------------------------------------------------------------------------
  // The scan

  /** What `_run_scan` returns, without the timestamp: the alerts, the number of
      prediction markets scanned, and how many of them matched no event. */
  datatype ScanResult = ScanResult(alerts: seq<Alert>, nPoly: nat, nUnmatched: nat)

  /** An alert of either pass: consistent delta and a bookmaker probability in `0..1`. */
  predicate AlertOk(a: Alert) {
    DeltaConsistent(a) && 0.0 <= a.bookieProb <= 1.0
  }

  /** The markets the scan looks at: parsed (with horizons), filtered on
      liquidity/volume with the default volume floor, then on the horizon. */
  function ScanMarkets(raws: seq<RawMarket>, minLiquidity: real, maxDays: Option<int>): (r: seq<PolyMarket>)
    ensures |r| <= |raws|
    ensures forall m :: m in r ==> Polymarket.Passes(m, minLiquidity, DefaultMinVolume)
    ensures maxDays.Some? ==> forall m :: m in r ==> WithinDays(m, maxDays.value)
  {
    DaysFilter(FilterMarkets(ParseMarketsDated(raws), minLiquidity, DefaultMinVolume), maxDays)
  }

  /** The same market selection AS WRITTEN: the parser drops every horizon before the horizon filter. */
  function ScanMarketsAsWritten(raws: seq<RawMarket>, minLiquidity: real, maxDays: Option<int>): (r: seq<PolyMarket>)
    ensures |r| <= |raws|
    ensures forall m :: m in r ==> Polymarket.Passes(m, minLiquidity, DefaultMinVolume)
  {
    DaysFilter(FilterMarkets(ParseMarkets(raws), minLiquidity, DefaultMinVolume), maxDays)
  }

  /** The scanned markets are exactly the accepted records that pass both filters. */
  lemma ScanMarketsMembers(raws: seq<RawMarket>, minLiquidity: real, maxDays: Option<int>, pm: PolyMarket)
    ensures pm in ScanMarkets(raws, minLiquidity, maxDays)
            <==> && (exists j :: 0 <= j < |raws| && ParseMarketDated(raws[j]) == Some(pm))
                 && Polymarket.Passes(pm, minLiquidity, DefaultMinVolume)
                 && (maxDays.Some? ==> WithinDays(pm, maxDays.value))
  {
    ParseMarketsDatedMembers(raws, pm);
  }

  /** As written: with no horizon limit the scanned markets are exactly the
      accepted records that pass the liquidity/volume filter; with one, none is. */
  lemma ScanMarketsAsWrittenMembers(raws: seq<RawMarket>, minLiquidity: real, maxDays: Option<int>, pm: PolyMarket)
    ensures maxDays.None? ==>
              (pm in ScanMarketsAsWritten(raws, minLiquidity, maxDays)
               <==> (exists j :: 0 <= j < |raws| && ParseMarket(raws[j]) == Some(pm))
                    && Polymarket.Passes(pm, minLiquidity, DefaultMinVolume))
    ensures maxDays.Some? ==> pm !in ScanMarketsAsWritten(raws, minLiquidity, maxDays)
  {
    ParseMarketsMembers(raws, pm);
  }

  /** Ranks and de-duplicates the alerts of both passes over `n` markets, `unmatched` of them unmatched. */
  function Assemble(alerts1: seq<Alert>, alerts2: seq<Alert>, n: nat, unmatched: nat): (r: ScanResult)
    requires forall k :: 0 <= k < |alerts1| ==> AlertOk(alerts1[k])
    requires forall k :: 0 <= k < |alerts2| ==> AlertOk(alerts2[k])
    ensures r.nPoly == n && r.nUnmatched == unmatched
    ensures |r.alerts| <= |alerts1| + |alerts2|
    ensures alerts1 == [] && alerts2 == [] ==> r.alerts == []
    ensures Ranked(r.alerts) && UniqueKeys(r.alerts)
    ensures KeysOf(r.alerts) == KeysOf(alerts1 + alerts2)
    ensures forall a :: a in r.alerts ==> AlertOk(a)
  {
    ConcatAlertsOk(alerts1, alerts2);
    ScanResult(RankAndDedup(alerts1 + alerts2), n, unmatched)
  }

  /** Joining the two passes' alerts keeps every alert well formed. */
  lemma ConcatAlertsOk(s1: seq<Alert>, s2: seq<Alert>)
    requires forall k :: 0 <= k < |s1| ==> AlertOk(s1[k])
    requires forall k :: 0 <= k < |s2| ==> AlertOk(s2[k])
    ensures forall a :: a in s1 + s2 ==> AlertOk(a)
  {
    forall a | a in s1 + s2 ensures AlertOk(a) {
      var k :| 0 <= k < |s1 + s2| && (s1 + s2)[k] == a;
      if k < |s1| {
        assert (s1 + s2)[k] == s1[k];
      } else {
        assert (s1 + s2)[k] == s2[k - |s1|];
      }
    }
  }

  /** Both passes over the selected markets, then ranking and de-duplication. */
  function ScanOver(sim: Similarity, markets: seq<PolyMarket>, events: seq<OddsEvent>): (r: ScanResult)
    ensures r.nPoly == |markets| && r.nUnmatched <= r.nPoly
    ensures r.nUnmatched == 0 <==> forall i :: 0 <= i < |markets| ==> !Unmatched(sim, events, markets[i])
    ensures r.nPoly == 0 ==> r.alerts == []
    ensures Ranked(r.alerts) && UniqueKeys(r.alerts)
    ensures forall a :: a in r.alerts ==> AlertOk(a)
    ensures KeysOf(r.alerts) == KeysOf(Pass1(sim, markets, events).0 + Pass2(sim, markets, events))
  {
    var p1 := Pass1(sim, markets, events);
    Assemble(p1.0, Pass2(sim, markets, events), |markets|, p1.1)
  }

  /**
   Every alert either pass raises is represented in the scan's result by an
   alert with the same key and at least its absolute edge.
   */
  lemma ScanKeepsBestOfEachKey(sim: Similarity, markets: seq<PolyMarket>, events: seq<OddsEvent>, b: Alert)
    requires b in Pass1(sim, markets, events).0 + Pass2(sim, markets, events)
    ensures exists a :: a in ScanOver(sim, markets, events).alerts && Key(a) == Key(b) && Edge(b) <= Edge(a)
  {
    var raised := Pass1(sim, markets, events).0 + Pass2(sim, markets, events);
    var r := ScanOver(sim, markets, events);
    assert r.alerts == RankAndDedup(raised);
    assert Key(b) in KeysOf(raised);
    var a :| a in r.alerts && Key(a) == Key(b);
    SurvivorHasLargestEdge(raised, a, b);
  }

  /** `_run_scan` with the horizon carried through: nothing without an odds key. */
  function RunScan(sim: Similarity, oddsKey: string, raws: seq<RawMarket>, minLiquidity: real,
                   maxDays: Option<int>, events: seq<OddsEvent>): (r: ScanResult)
    ensures oddsKey == "" ==> r == ScanResult([], 0, 0)
    ensures r.nUnmatched <= r.nPoly <= |raws|
    ensures oddsKey != "" ==> r.nPoly == |ScanMarkets(raws, minLiquidity, maxDays)|
    ensures Ranked(r.alerts) && UniqueKeys(r.alerts)
    ensures oddsKey != "" ==>
              var markets := ScanMarkets(raws, minLiquidity, maxDays);
              KeysOf(r.alerts) == KeysOf(Pass1(sim, markets, events).0 + Pass2(sim, markets, events))
    ensures forall a :: a in r.alerts ==> AlertOk(a)
  {
    if oddsKey == "" then ScanResult([], 0, 0)
    else ScanOver(sim, ScanMarkets(raws, minLiquidity, maxDays), events)
  }

  /** `_run_scan` AS WRITTEN, over the parser that drops horizons. */
  function RunScanAsWritten(sim: Similarity, oddsKey: string, raws: seq<RawMarket>, minLiquidity: real,
                            maxDays: Option<int>, events: seq<OddsEvent>): (r: ScanResult)
    ensures oddsKey == "" ==> r == ScanResult([], 0, 0)
    ensures r.nUnmatched <= r.nPoly <= |raws|
    ensures oddsKey != "" ==> r.nPoly == |ScanMarketsAsWritten(raws, minLiquidity, maxDays)|
    ensures Ranked(r.alerts) && UniqueKeys(r.alerts)
    ensures oddsKey != "" ==>
              var markets := ScanMarketsAsWritten(raws, minLiquidity, maxDays);
              KeysOf(r.alerts) == KeysOf(Pass1(sim, markets, events).0 + Pass2(sim, markets, events))
    ensures forall a :: a in r.alerts ==> AlertOk(a)
  {
    if oddsKey == "" then ScanResult([], 0, 0)
    else ScanOver(sim, ScanMarketsAsWritten(raws, minLiquidity, maxDays), events)
  }

  /** As written, any horizon limit empties the scan: no market, no alert, nothing unmatched. */
  lemma HorizonLimitEmptiesScan(sim: Similarity, oddsKey: string, raws: seq<RawMarket>, minLiquidity: real,
                                d: int, events: seq<OddsEvent>)
    ensures RunScanAsWritten(sim, oddsKey, raws, minLiquidity, Some(d), events) == ScanResult([], 0, 0)
  {
    var parsed := ParseMarkets(raws);
    var kept := FilterMarkets(parsed, minLiquidity, DefaultMinVolume);
    forall i | 0 <= i < |kept| ensures kept[i].daysToEnd.None? {
      assert kept[i] in kept;
      var j :| 0 <= j < |parsed| && parsed[j] == kept[i];
    }
    UndatedMarketsDropped(kept, d);
  }

  /** With horizons carried through, a dated record that passes both filters is scanned. */
  lemma DatedMarketIsScanned(raws: seq<RawMarket>, minLiquidity: real, d: int, j: nat)
    requires j < |raws| && ParseMarketDated(raws[j]).Some?
    requires Polymarket.Passes(ParseMarketDated(raws[j]).value, minLiquidity, DefaultMinVolume)
    requires WithinDays(ParseMarketDated(raws[j]).value, d)
    ensures ParseMarketDated(raws[j]).value in ScanMarkets(raws, minLiquidity, Some(d))
  {
    ParseMarketsDatedKeeps(raws, j);
  }

  // ---------------------------------------------------------------------------
  // Display filters of the main view

  /** The direction choice: a selection mentioning "Poly > Bookie" keeps positive
      deltas, else one mentioning "Bookie > Poly" keeps negative deltas, else all. */
  predicate DirectionAllows(direction: string, a: Alert) {
    if Contains(direction, "Poly > Bookie") then a.delta > 0.0
    else if Contains(direction, "Bookie > Poly") then a.delta < 0.0
    else true
  }

  /** An alert is shown when the direction allows it and its absolute edge reaches `minDelta`. */
  predicate Shown(direction: string, minDelta: real, a: Alert) {
    DirectionAllows(direction, a) && Edge(a) >= minDelta
  }

  /** Selects the alerts with a positive delta ("Poly > Bookie"). */
  function PolyAbove(): Alert -> bool {
    (a: Alert) => a.delta > 0.0
  }

  /** Selects the alerts with a negative delta ("Bookie > Poly"). */
  function BookieAbove(): Alert -> bool {
    (a: Alert) => a.delta < 0.0
  }

  /** Selects the alerts whose absolute edge reaches `minDelta`. */
  function EdgeAtLeast(minDelta: real): Alert -> bool {
    (a: Alert) => Edge(a) >= minDelta
  }

  /** Selects the alerts the main view shows. */
  function ShownBy(direction: string, minDelta: real): Alert -> bool {
    (a: Alert) => Shown(direction, minDelta, a)
  }

  /** The direction filter followed by the minimum-edge filter. */
  function DisplayFilter(alerts: seq<Alert>, direction: string, minDelta: real): (r: seq<Alert>)
    ensures |r| <= |alerts|
    ensures forall a :: a in r <==> a in alerts && Shown(direction, minDelta, a)
  {
    var byDirection :=
      if Contains(direction, "Poly > Bookie") then Filter(alerts, PolyAbove())
      else if Contains(direction, "Bookie > Poly") then Filter(alerts, BookieAbove())
      else alerts;
    FilterSpec(alerts, PolyAbove());
    FilterSpec(alerts, BookieAbove());
    FilterSpec(byDirection, EdgeAtLeast(minDelta));
    Filter(byDirection, EdgeAtLeast(minDelta))
  }

  /** Filtering keeps a ranked list ranked. */
  lemma {:induction false} FilterKeepsRanked(s: seq<Alert>, p: Alert -> bool)
    requires Ranked(s)
    ensures Ranked(Filter(s, p))
    decreases |s|
  {
    if |s| > 0 {
      FilterKeepsRanked(s[1..], p);
      FilterSpec(s[1..], p);
      var rest := Filter(s[1..], p);
      forall k | 0 <= k < |rest| ensures Edge(s[0]) >= Edge(rest[k]) {
        assert rest[k] in s[1..];
      }
    }
  }

  /** The displayed alerts keep the scan's ranking. */
  lemma DisplayKeepsRanking(alerts: seq<Alert>, direction: string, minDelta: real)
    requires Ranked(alerts)
    ensures Ranked(DisplayFilter(alerts, direction, minDelta))
  {
    var byDirection :=
      if Contains(direction, "Poly > Bookie") then Filter(alerts, PolyAbove())
      else if Contains(direction, "Bookie > Poly") then Filter(alerts, BookieAbove())
      else alerts;
    FilterKeepsRanked(alerts, PolyAbove());
    FilterKeepsRanked(alerts, BookieAbove());
    FilterKeepsRanked(byDirection, EdgeAtLeast(minDelta));
  }

  /** The two display filters act as one order-preserving filter: the shown alerts, in scan order. */
  lemma DisplayIsOneFilter(alerts: seq<Alert>, direction: string, minDelta: real)
    ensures DisplayFilter(alerts, direction, minDelta) == Filter(alerts, ShownBy(direction, minDelta))
  {
    var shown := ShownBy(direction, minDelta);
    var edge := EdgeAtLeast(minDelta);
    if Contains(direction, "Poly > Bookie") {
      FilterBoth(alerts, PolyAbove(), edge, shown);
    } else if Contains(direction, "Bookie > Poly") {
      FilterBoth(alerts, BookieAbove(), edge, shown);
    } else {
      FilterSame(alerts, edge, shown);
    }
  }

  /** With no direction selected, the view shows exactly the alerts reaching the minimum edge, in order. */
  lemma DisplayWithoutDirection(alerts: seq<Alert>, direction: string, minDelta: real)
    requires !Contains(direction, "Poly > Bookie") && !Contains(direction, "Bookie > Poly")
    ensures DisplayFilter(alerts, direction, minDelta) == Filter(alerts, EdgeAtLeast(minDelta))
  {
    DisplayIsOneFilter(alerts, direction, minDelta);
    FilterSame(alerts, EdgeAtLeast(minDelta), ShownBy(direction, minDelta));
  }
}
