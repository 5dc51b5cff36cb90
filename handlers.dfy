/** The chatbot's command handlers (chatbot.py:53-59, 111-167): coin lookup
    and the list, trending, most-sustainable, analyze and recommend replies.
    A reply is a value of `Reply` carrying what the printed text reports;
    the wording and the `:.2f` rendering of scores are not modelled. */
module Handlers {
  import opened Wrappers
  import opened Text
  import opened Ranking
  import opened Scoring

  /** The Python exceptions a handler or the prompt can raise. */
  datatype Exception = KeyError | ValueError | IndexError | TypeError | EOFError

  /** One line of the `handle_analyze` report, in the order printed. */
  datatype ReportLine =
    | Heading(key: string)
    | TrendLine(trend: Option<string>)
    | CapLine(cap: Option<string>)
    | EnergyLine(energy: Option<string>)
    | RawLine(raw: real)
    | ProfitabilityLine(score: real)
    | SustainabilityLine(score: real)
    | CombinedLine(score: real, verdict: string)
    | RiskNote

  /** What the bot prints, one value per `print` call. */
  datatype Reply =
    | TonePrompt                         // "Choose a tone for the bot (...)"
    | ToneDefaulted                      // "Unknown or empty choice - defaulting to 'friendly'."
    | Greeting(prefix: string)           // tone_prefix(tone)
    | HelpHint                           // "Type 'help' to see commands."
    | Farewell                           // "Goodbye!"
    | HelpText(memeTip: bool)            // print_help
    | Available(names: seq<string>)      // handle_list
    | NoRising                           // handle_trending, nothing rising
    | TrendingUp(names: seq<string>)     // handle_trending
    | MostSustainable(name: string, score: real)
    | NoData(query: string)              // handle_analyze, coin not found
    | Analysis(lines: seq<ReportLine>)   // handle_analyze
    | TopPick(name: string, score: real, verdict: string, contender: Option<Scored>)
    | ToneSet(tone: string)
    | CurrentTone(tone: string)
    | NotUnderstood

  // ---------------------------------------------------------------------
  // find_coin_by_name

  /** The canonical key whose lower-case form equals the stripped, lower-cased
      query: the first such key in table order, or None when no key matches. */
  function LookupKey(db: Table, name: string): (k: Option<string>)
    ensures k.None? <==> forall j :: 0 <= j < |db| ==> Lower(db[j].0) != Lower(Strip(name))
    ensures k.Some? ==> exists i :: (0 <= i < |db| && db[i].0 == k.value &&
      Lower(k.value) == Lower(Strip(name)) &&
      forall j :: 0 <= j < i ==> Lower(db[j].0) != Lower(Strip(name)))
  {
    KeyMatching(db, Lower(Strip(name)))
  }

  /** The first key whose lower-case form is `query`. */
  function KeyMatching(db: Table, query: string): (k: Option<string>)
    ensures k.None? <==> forall j :: 0 <= j < |db| ==> Lower(db[j].0) != query
    ensures k.Some? ==> exists i :: (0 <= i < |db| && db[i].0 == k.value &&
      Lower(k.value) == query && forall j :: 0 <= j < i ==> Lower(db[j].0) != query)
  {
    if db == [] then None
    else if Lower(db[0].0) == query then Some(db[0].0)
    else
      var k := KeyMatching(db[1..], query);
      MatchingLater(db, query, k);
      k
  }

  /** What the search of the tail finds, the search of the whole table finds
      when the head does not match. */
  lemma MatchingLater(db: Table, query: string, k: Option<string>)
    requires db != [] && Lower(db[0].0) != query
    requires k.None? <==> forall j :: 0 <= j < |db[1..]| ==> Lower(db[1..][j].0) != query
    requires k.Some? ==> exists i :: (0 <= i < |db[1..]| && db[1..][i].0 == k.value &&
      Lower(k.value) == query && forall j :: 0 <= j < i ==> Lower(db[1..][j].0) != query)
    ensures k.None? <==> forall j :: 0 <= j < |db| ==> Lower(db[j].0) != query
    ensures k.Some? ==> exists i :: (0 <= i < |db| && db[i].0 == k.value &&
      Lower(k.value) == query && forall j :: 0 <= j < i ==> Lower(db[j].0) != query)
  {
    var tail := db[1..];
    assert forall j :: 1 <= j < |db| ==> db[j] == tail[j - 1];
    if k.Some? {
      var i :| 0 <= i < |tail| && tail[i].0 == k.value && Lower(k.value) == query &&
        forall j :: 0 <= j < i ==> Lower(tail[j].0) != query;
      assert db[i + 1].0 == k.value;
    }
  }

  /** `find_coin_by_name`: a linear search that returns at the first key whose
      lower-case form equals the normalised query. */
  method FindCoinByName(db: Table, name: string) returns (key: Option<string>)
    ensures key == LookupKey(db, name)
  {
    var query := Lower(Strip(name));
    var i := 0;
    while i < |db|
      invariant 0 <= i <= |db|
      invariant forall j :: 0 <= j < i ==> Lower(db[j].0) != query
    {
      if Lower(db[i].0) == query {
        MatchingFirst(db, query, i);
        return Some(db[i].0);
      }
      i := i + 1;
    }
    assert KeyMatching(db, query).None?;
    return None;
  }

  /** The first matching index decides what `LookupKey` returns. */
  lemma LookupFirst(db: Table, name: string, i: nat)
    requires i < |db| && Lower(db[i].0) == Lower(Strip(name))
    requires forall j :: 0 <= j < i ==> Lower(db[j].0) != Lower(Strip(name))
    ensures LookupKey(db, name) == Some(db[i].0)
  {
    MatchingFirst(db, Lower(Strip(name)), i);
  }

  lemma {:induction false} MatchingFirst(db: Table, query: string, i: nat)
    requires i < |db| && Lower(db[i].0) == query
    requires forall j :: 0 <= j < i ==> Lower(db[j].0) != query
    ensures KeyMatching(db, query) == Some(db[i].0)
  {
    if i > 0 {
      MatchingFirst(db[1..], query, i - 1);
    }
  }

  /** `crypto_db[key]`: the attributes stored under `key`. */
  function ValueOf(db: Table, key: string): (c: Coin)
    requires exists i :: 0 <= i < |db| && db[i].0 == key
    ensures exists i :: 0 <= i < |db| && db[i] == (key, c)
  {
    if db[0].0 == key then db[0].1
    else
      assert exists i :: 0 <= i < |db[1..]| && db[1..][i].0 == key by {
        var i :| 0 <= i < |db| && db[i].0 == key;
        assert db[1..][i - 1].0 == key;
      }
      var c := ValueOf(db[1..], key);
      assert exists i :: 0 <= i < |db| && db[i] == (key, c) by {
        var i :| 0 <= i < |db[1..]| && db[1..][i] == (key, c);
        assert db[i + 1] == (key, c);
      }
      c
  }

  // ---------------------------------------------------------------------
  // handle_list

  /** `handle_list`: every key of the table, in ascending code-point order. */
  function ListCoins(db: Table): (r: Reply)
    ensures r.Available?
    ensures NamesSorted(r.names)
    ensures multiset(r.names) == multiset(Keys(db))
  {
    Available(SortNames(Keys(db)))
  }

  // ---------------------------------------------------------------------
  // handle_trending

  predicate IsRising(c: Coin) {
    c.priceTrend == Some("rising")
  }

  /** The entries whose trend is exactly "rising", in table order (see
      `RisingCount` for how often each is kept). */
  function RisingCoins(db: Table): (r: Table)
    ensures forall e :: e in r <==> e in db && IsRising(e.1)
    ensures |r| <= |db|
  {
    if db == [] then []
    else
      assert db == [db[0]] + db[1..];
      if IsRising(db[0].1) then [db[0]] + RisingCoins(db[1..])
      else RisingCoins(db[1..])
  }

  /** The filter keeps each rising entry exactly as often as the table holds
      it, and no other entry. */
  lemma {:induction false} RisingCount(db: Table)
    ensures forall e :: multiset(RisingCoins(db))[e] == if IsRising(e.1) then multiset(db)[e] else 0
  {
    if db != [] {
      RisingCount(db[1..]);
      assert db == [db[0]] + db[1..];
      if IsRising(db[0].1) {
        assert RisingCoins(db) == [db[0]] + RisingCoins(db[1..]);
      }
    }
  }

  /** The filter keeps table order: of two rising entries, the one earlier in
      the table is earlier among the rising coins. */
  lemma {:induction false} RisingKeepsOrder(db: Table, a: nat, b: nat)
    requires a < b < |db| && IsRising(db[a].1) && IsRising(db[b].1)
    ensures Before(RisingCoins(db), db[a], db[b])
  {
    var rest := RisingCoins(db[1..]);
    if a == 0 {
      assert db[b] == db[1..][b - 1];
      var q :| 0 <= q < |rest| && rest[q] == db[b];
      assert RisingCoins(db) == [db[0]] + rest;
      assert RisingCoins(db)[0] == db[a] && RisingCoins(db)[q + 1] == db[b];
    } else {
      assert db[a] == db[1..][a - 1] && db[b] == db[1..][b - 1];
      RisingKeepsOrder(db[1..], a - 1, b - 1);
      var p, q :| 0 <= p < q < |rest| && rest[p] == db[a] && rest[q] == db[b];
      if IsRising(db[0].1) {
        assert RisingCoins(db)[p + 1] == db[a] && RisingCoins(db)[q + 1] == db[b];
      }
    }
  }

  /** The sort key of `handle_trending`: `MARKET_CAP_WEIGHT[cap]` with a
      missing cap read as "medium"; a cap string outside the table raises. */
  function CapWeights(rs: Table): (r: Result<seq<Scored>, Exception>)
    ensures r.Failure? <==> exists i :: (0 <= i < |rs| &&
      rs[i].1.marketCap.Some? && rs[i].1.marketCap.value !in MarketCapWeight)
    ensures r.Failure? ==> r.error == KeyError
    ensures r.Success? ==> (|r.value| == |rs| &&
      forall i :: 0 <= i < |rs| ==> r.value[i] == (rs[i].0, CapFactor(rs[i].1)))
  {
    if rs == [] then Success([])
    else if rs[0].1.marketCap.Some? && rs[0].1.marketCap.value !in MarketCapWeight then Failure(KeyError)
    else
      match CapWeights(rs[1..])
      case Failure(e) =>
        assert exists i :: 0 <= i < |rs| && rs[i].1.marketCap.Some? && rs[i].1.marketCap.value !in MarketCapWeight by {
          var i :| 0 <= i < |rs[1..]| && rs[1..][i].1.marketCap.Some? && rs[1..][i].1.marketCap.value !in MarketCapWeight;
          assert rs[i + 1] == rs[1..][i];
        }
        Failure(e)
      case Success(ws) =>
        assert forall i :: 1 <= i < |rs| ==> rs[i] == rs[1..][i - 1];
        Success([(rs[0].0, CapFactor(rs[0].1))] + ws)
  }

  /** `handle_trending`: the rising coins by non-increasing market-cap weight,
      ties in table order (see `TrendingTies`); a fixed reply when nothing
      rises; KeyError when a rising coin has a cap string outside the table. */
  function Trending(db: Table): (r: Result<Reply, Exception>)
    ensures r == Success(NoRising) <==> RisingCoins(db) == []
    ensures r.Failure? <==> RisingCoins(db) != [] && CapWeights(RisingCoins(db)).Failure?
    ensures r.Failure? ==> r.error == KeyError
    ensures RisingCoins(db) != [] && CapWeights(RisingCoins(db)).Success? ==>
      r.Success? && r.value.TrendingUp?
    ensures r.Success? && r.value.TrendingUp? ==>
      CapWeights(RisingCoins(db)).Success? &&
      var ranked := SortDesc(CapWeights(RisingCoins(db)).value);
      r.value.names == Keys(ranked) &&
      SortedDesc(ranked) &&
      multiset(ranked) == multiset(CapWeights(RisingCoins(db)).value) &&
      multiset(r.value.names) == multiset(Keys(RisingCoins(db))) &&
      |r.value.names| == |RisingCoins(db)| > 0
  {
    var rising := RisingCoins(db);
    if rising == [] then Success(NoRising)
    else
      match CapWeights(rising)
      case Failure(e) => Failure(e)
      case Success(keyed) =>
        assert Keys(keyed) == Keys(rising);
        KeysSortDesc(keyed);
        Success(TrendingUp(Keys(SortDesc(keyed))))
  }

  /** Two rising coins with the same market-cap weight are listed in table
      order. */
  lemma TrendingTies(db: Table, a: nat, b: nat)
    requires a < b < |db| && IsRising(db[a].1) && IsRising(db[b].1)
    requires CapWeights(RisingCoins(db)).Success? && CapFactor(db[a].1) == CapFactor(db[b].1)
    ensures Trending(db).Success? && Trending(db).value.TrendingUp?
    ensures Before(Trending(db).value.names, db[a].0, db[b].0)
  {
    var rising := RisingCoins(db);
    var keyed := CapWeights(rising).value;
    var x := (db[a].0, CapFactor(db[a].1));
    var y := (db[b].0, CapFactor(db[b].1));
    RisingKeepsOrder(db, a, b);
    WeightsKeepOrder(rising, db[a], db[b]);
    SortDescKeepsTies(keyed, x, y);
    KeysKeepOrder(SortDesc(keyed), x, y);
  }

  /** Weighing the rising coins keeps their order. */
  lemma WeightsKeepOrder(rs: Table, e: (string, Coin), f: (string, Coin))
    requires CapWeights(rs).Success? && Before(rs, e, f)
    ensures Before(CapWeights(rs).value, (e.0, CapFactor(e.1)), (f.0, CapFactor(f.1)))
  {
    var p, q :| 0 <= p < q < |rs| && rs[p] == e && rs[q] == f;
    assert CapWeights(rs).value[p] == (e.0, CapFactor(e.1));
    assert CapWeights(rs).value[q] == (f.0, CapFactor(f.1));
  }

  /** Taking the names keeps the order. */
  lemma KeysKeepOrder<V>(s: seq<(string, V)>, x: (string, V), y: (string, V))
    requires Before(s, x, y)
    ensures Before(Keys(s), x.0, y.0)
  {
    var p, q :| 0 <= p < q < |s| && s[p] == x && s[q] == y;
    assert Keys(s)[p] == x.0 && Keys(s)[q] == y.0;
  }

  /** Sorting the entries reorders their names: each name as often as before. */
  lemma {:induction false} KeysSortDesc(s: seq<Scored>)
    ensures multiset(Keys(SortDesc(s))) == multiset(Keys(s))
    decreases |s|
  {
    if s != [] {
      var sorted := SortDesc(s[1..]);
      KeysSortDesc(s[1..]);
      KeysInsert(s[0], sorted);
      KeysHead(s);
    }
  }

  lemma {:induction false} KeysInsert(x: Scored, s: seq<Scored>)
    requires SortedDesc(s)
    ensures multiset(Keys(InsertDesc(x, s))) == multiset(Keys(s)) + multiset{x.0}
    decreases |s|
  {
    if s == [] || s[0].1 <= x.1 {
      assert InsertDesc(x, s) == [x] + s;
      KeysConsCount(x, s);
    } else {
      var rest := InsertDesc(x, s[1..]);
      assert InsertDesc(x, s) == [s[0]] + rest;
      KeysConsCount(s[0], rest);
      KeysInsert(x, s[1..]);
      KeysHead(s);
    }
  }

  lemma KeysHead(s: seq<Scored>)
    requires s != []
    ensures multiset(Keys(s)) == multiset{s[0].0} + multiset(Keys(s[1..]))
  {
    assert Keys(s) == [s[0].0] + Keys(s[1..]);
  }

  lemma KeysConsCount(x: Scored, s: seq<Scored>)
    ensures multiset(Keys([x] + s)) == multiset{x.0} + multiset(Keys(s))
  {
    assert Keys([x] + s) == [x.0] + Keys(s) by {
      assert forall i :: 0 <= i < |s| + 1 ==> Keys([x] + s)[i] == ([x.0] + Keys(s))[i];
    }
  }

  // ---------------------------------------------------------------------
  // handle_most_sustainable

  function SustainabilityTable(db: Table): (s: seq<Scored>)
    ensures |s| == |db|
    ensures forall i :: 0 <= i < |db| ==> s[i] == (db[i].0, SustainabilityScore(db[i].1))
  {
    if db == [] then [] else [(db[0].0, SustainabilityScore(db[0].1))] + SustainabilityTable(db[1..])
  }

  /** `handle_most_sustainable`: the first coin, in table order, whose
      sustainability index is maximal; `max` of an empty table raises ValueError. */
  function MostSustainableCoin(db: Table): (r: Result<Reply, Exception>)
    ensures db == [] <==> r == Failure(ValueError)
    ensures db != [] ==> r.Success?
    ensures r.Success? ==> (r.value.MostSustainable? &&
      exists i :: (0 <= i < |db| && r.value == MostSustainable(db[i].0, SustainabilityScore(db[i].1)) &&
        (forall j :: 0 <= j < |db| ==> SustainabilityScore(db[j].1) <= SustainabilityScore(db[i].1)) &&
        (forall j :: 0 <= j < i ==> SustainabilityScore(db[j].1) < SustainabilityScore(db[i].1))))
  {
    if db == [] then Failure(ValueError)
    else
      var table := SustainabilityTable(db);
      var i := FirstArgMax(table);
      Success(MostSustainable(table[i].0, table[i].1))
  }

  // ---------------------------------------------------------------------
  // handle_analyze

  /** The eight report lines every analysis starts with. */
  function ReportLines(key: string, coin: Coin, raw: real): (lines: seq<ReportLine>)
    ensures |lines| == 8 && lines[0] == Heading(key)
    ensures lines[7] == CombinedLine(CombinedScore(coin), RecommendationLabel(CombinedScore(coin)))
  {
    var combined := CombinedScore(coin);
    [ Heading(key),
      TrendLine(coin.priceTrend),
      CapLine(coin.marketCap),
      EnergyLine(coin.energyUse),
      RawLine(raw),
      ProfitabilityLine(ProfitabilityScore(coin)),
      SustainabilityLine(SustainabilityScore(coin)),
      CombinedLine(combined, RecommendationLabel(combined)) ]
  }

  /** Whether the small-cap risk note is added: a low-cap coin whose verdict
      is "Buy" or "Strong Buy". */
  predicate RiskyPick(coin: Coin)
    ensures RiskyPick(coin) <==>
      coin.marketCap == Some("low") && RecommendationLabel(CombinedScore(coin)) in ["Buy", "Strong Buy"]
  {
    coin.marketCap == Some("low") && CombinedScore(coin) >= 0.6
  }

  /** `handle_analyze`. `if not key` also rejects a matched empty key, and
      `float(None)` raises TypeError when the raw sustainability score is
      missing. Its cases are stated by `AnalyzeNoData`, `AnalyzeRaises` and
      `AnalyzeReport`. */
  function Analyze(db: Table, name: string): (r: Result<Reply, Exception>)
    ensures r.Failure? ==> r.error == TypeError
    ensures r.Success? ==> r.value == NoData(name) || r.value.Analysis?
  {
    match LookupKey(db, name)
    case None => Success(NoData(name))
    case Some(key) =>
      if key == "" then Success(NoData(name))
      else
        var coin := ValueOf(db, key);
        match coin.sustainabilityScore
        case None => Failure(TypeError)
        case Some(raw) =>
          var lines := ReportLines(key, coin, raw);
          Success(Analysis(lines + if RiskyPick(coin) then [RiskNote] else []))
  }

  /** The "I don't have data" reply comes exactly when the lookup fails (or,
      because of `if not key`, finds an empty key). */
  lemma AnalyzeNoData(db: Table, name: string)
    ensures Analyze(db, name) == Success(NoData(name)) <==>
      LookupKey(db, name).None? || LookupKey(db, name) == Some("")
  {
  }

  /** A found coin without a raw sustainability score makes the report raise TypeError. */
  lemma AnalyzeRaises(db: Table, name: string)
    ensures Analyze(db, name).Failure? <==>
      (LookupKey(db, name).Some? && LookupKey(db, name) != Some("") &&
       ValueOf(db, LookupKey(db, name).value).sustainabilityScore.None?)
    ensures Analyze(db, name).Failure? ==> Analyze(db, name).error == TypeError
  {
  }

  /** A coin found under a non-empty key with a raw sustainability score gets
      a report about it: its eight lines with its three scores and its
      label, then the risk note exactly for a small-cap coin whose combined
      score is at least 0.6. */
  lemma AnalyzeReport(db: Table, name: string)
    requires LookupKey(db, name).Some? && LookupKey(db, name) != Some("")
    requires ValueOf(db, LookupKey(db, name).value).sustainabilityScore.Some?
    ensures Analyze(db, name).Success? && Analyze(db, name).value.Analysis?
    ensures var key := LookupKey(db, name).value;
      var coin := ValueOf(db, key);
      var lines := Analyze(db, name).value.lines;
      lines[..8] == ReportLines(key, coin, coin.sustainabilityScore.value) &&
      (RiskNote in lines <==> RiskyPick(coin)) &&
      |lines| == (if RiskyPick(coin) then 9 else 8)
  {
    var key := LookupKey(db, name).value;
    var coin := ValueOf(db, key);
    var lines := Analyze(db, name).value.lines;
    var base := ReportLines(key, coin, coin.sustainabilityScore.value);
    assert lines == base + (if RiskyPick(coin) then [RiskNote] else []);
    assert lines[..8] == base;
    assert RiskNote !in base;
  }

  /** `handle_analyze` as written: look the coin up, build the report lines,
      append the risk note when it applies. */
  method HandleAnalyze(db: Table, name: string) returns (r: Result<Reply, Exception>)
    ensures r == Analyze(db, name)
  {
    var key := FindCoinByName(db, name);
    if key.None? || key.value == "" {
      return Success(NoData(name));
    }
    var coin := ValueOf(db, key.value);
    if coin.sustainabilityScore.None? {
      return Failure(TypeError);
    }
    var lines := ReportLines(key.value, coin, coin.sustainabilityScore.value);
    ghost var report := lines;
    if coin.marketCap == Some("low") && CombinedScore(coin) >= 0.6 {
      lines := lines + [RiskNote];
    }
    assert lines == report + if RiskyPick(coin) then [RiskNote] else [];
    return Success(Analysis(lines));
  }

  // ---------------------------------------------------------------------
  // handle_recommendation

  function CombinedTable(db: Table): (s: seq<Scored>)
    ensures |s| == |db|
    ensures forall i :: 0 <= i < |db| ==> s[i] == (db[i].0, CombinedScore(db[i].1))
  {
    if db == [] then [] else [(db[0].0, CombinedScore(db[0].1))] + CombinedTable(db[1..])
  }

  /** A close contender: an entry other than the top pick within 0.05 of it. */
  predicate HasCloseContender(scored: seq<Scored>, top: nat)
    requires top < |scored|
    ensures HasCloseContender(scored, top) ==> |scored| >= 2
    ensures forall j :: 0 <= j < |scored| && j != top && scored[j].1 >= scored[top].1 ==>
      HasCloseContender(scored, top)
  {
    exists j :: 0 <= j < |scored| && j != top && scored[j].1 >= scored[top].1 - 0.05
  }

  /** The reply built from the ranked list: its head, its label and, when the
      second entry is within 0.05 of the head, the second entry. */
  function PickFromRanking(ranked: seq<Scored>): (r: Reply)
    requires ranked != []
    ensures r.TopPick? && r.verdict == RecommendationLabel(r.score)
  {
    var top := ranked[0];
    var contender := if |ranked| > 1 && ranked[1].1 >= top.1 - 0.05 then Some(ranked[1]) else None;
    TopPick(top.0, top.1, RecommendationLabel(top.1), contender)
  }

  /** `handle_recommendation`: ranks the coins by combined score, highest
      first, ties in table order, and reports the head of the ranking.
      `scored_sorted[0]` on an empty table raises IndexError. */
  function Recommend(db: Table): (r: Result<Reply, Exception>)
    ensures db == [] <==> r == Failure(IndexError)
    ensures db != [] ==> r.Success?
    ensures r.Success? ==> r.value.TopPick? && r.value.verdict == RecommendationLabel(r.value.score)
  {
    if db == [] then Failure(IndexError)
    else Success(PickFromRanking(SortDesc(CombinedTable(db))))
  }

  /** On any scored list: the pick is the first entry of maximal score. */
  lemma RankingTopPick(s: seq<Scored>)
    requires s != []
    ensures var i := FirstArgMax(s);
      var pick := PickFromRanking(SortDesc(s));
      (pick.name, pick.score) == s[i] &&
      (forall j :: 0 <= j < |s| ==> s[j].1 <= pick.score) &&
      (forall j :: 0 <= j < i ==> s[j].1 < pick.score)
  {
    SortDescHead(s);
  }

  /** On any scored list: a contender is named exactly when another entry is
      within 0.05 of the pick. */
  lemma RankingContender(s: seq<Scored>)
    requires s != []
    ensures PickFromRanking(SortDesc(s)).contender.Some? <==> HasCloseContender(s, FirstArgMax(s))
  {
    var i := FirstArgMax(s);
    var r := SortDesc(s);
    SortDescHead(s);
    if |s| > 1 {
      SortDescSecond(s);
      if HasCloseContender(s, i) {
        var j :| 0 <= j < |s| && j != i && s[j].1 >= s[i].1 - 0.05;
        assert s[j].1 <= r[1].1;
      }
    }
  }

  /** On any scored list: a named contender is another entry, the best of
      the entries other than the pick and, among those of its score, the
      first in input order. */
  lemma RankingRunnerUp(s: seq<Scored>)
    requires s != []
    ensures var i := FirstArgMax(s);
      var c := PickFromRanking(SortDesc(s)).contender;
      c.Some? ==>
        (exists j :: 0 <= j < |s| && j != i && c.value == s[j] &&
          forall k :: 0 <= k < j && k != i ==> s[k].1 < s[j].1) &&
        forall j :: 0 <= j < |s| && j != i ==> s[j].1 <= c.value.1
  {
    if |s| > 1 {
      SortDescSecond(s);
      SecondIsFirstOfScore(s);
    }
  }

  /** The top pick is the first coin in table order with the maximal combined
      score (`CombinedTable(db)[j]` is coin `j` with its combined score). */
  lemma RecommendTopPick(db: Table)
    requires db != []
    ensures var scored := CombinedTable(db);
      var i := FirstArgMax(scored);
      var pick := Recommend(db).value;
      (pick.name, pick.score) == scored[i] &&
      (forall j :: 0 <= j < |db| ==> scored[j].1 <= pick.score) &&
      (forall j :: 0 <= j < i ==> scored[j].1 < pick.score)
  {
    RankingTopPick(CombinedTable(db));
  }

  /** A runner-up is named exactly when some coin other than the top pick
      scores within 0.05 of it; it is then another coin, scores at least as
      much as every coin other than the top pick, and every other coin before
      it in table order scores strictly less. */
  lemma RecommendContender(db: Table)
    requires db != []
    ensures var scored := CombinedTable(db);
      var i := FirstArgMax(scored);
      var pick := Recommend(db).value;
      (pick.contender.Some? <==> HasCloseContender(scored, i)) &&
      (pick.contender.Some? ==>
        (exists j :: 0 <= j < |scored| && j != i && pick.contender.value == scored[j] &&
          forall k :: 0 <= k < j && k != i ==> scored[k].1 < scored[j].1) &&
        forall j :: 0 <= j < |scored| && j != i ==> scored[j].1 <= pick.contender.value.1)
  {
    var scored := CombinedTable(db);
    RankingContender(scored);
    RankingRunnerUp(scored);
  }
}
