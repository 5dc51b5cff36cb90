/** What the chatbot answers on the table it ships with (chatbot.py:4-8),
    and how it reads a few sample lines. */
module Shipped {
  import opened Wrappers
  import opened Text
  import opened Ranking
  import opened Scoring
  import opened Handlers
  import opened Dispatch

  /** The combined scores of the shipped coins, in table order. */
  lemma ShippedCombined()
    ensures CombinedTable(CryptoDb) == [("Bitcoin", 0.674), ("Ethereum", 0.696), ("Cardano", 0.832)]
  {
    ShippedScores();
  }

  /** Cardano has the highest combined score, labelled Strong Buy, and no
      other coin is within 0.05 of it. */
  lemma ShippedRecommendation()
    ensures Recommend(CryptoDb) == Success(TopPick("Cardano", 0.832, "Strong Buy", None))
  {
    ShippedCombined();
    var scored := CombinedTable(CryptoDb);
    RecommendTopPick(CryptoDb);
    RecommendContender(CryptoDb);
    var i := FirstArgMax(scored);
    assert i == 2 by {
      assert scored[2].1 <= scored[i].1;
    }
    assert !HasCloseContender(scored, 2);
  }

  /** Bitcoin and Cardano rise; Bitcoin's high cap ranks it first. */
  lemma ShippedTrending(db: Table)
    requires db == CryptoDb
    ensures Trending(db) == Success(TrendingUp(["Bitcoin", "Cardano"]))
  {
    ShippedKeyed();
    KeyedFacts();
    TrendingOfSorted(db, [("Bitcoin", 1.0), ("Cardano", 0.7)]);
  }

  lemma KeyedFacts()
    ensures SortedDesc([("Bitcoin", 1.0), ("Cardano", 0.7)])
    ensures Keys([("Bitcoin", 1.0), ("Cardano", 0.7)]) == ["Bitcoin", "Cardano"]
  {
  }

  lemma ShippedKeyed()
    ensures CapWeights(RisingCoins(CryptoDb)) == Success([("Bitcoin", 1.0), ("Cardano", 0.7)])
    ensures RisingCoins(CryptoDb) != []
  {
    ShippedRising();
    ShippedCapWeights();
  }

  lemma TrendingOfSorted(db: Table, keyed: seq<Scored>)
    requires RisingCoins(db) != [] && CapWeights(RisingCoins(db)) == Success(keyed) && SortedDesc(keyed)
    ensures Trending(db) == Success(TrendingUp(Keys(keyed)))
  {
    SortDescOfSorted(keyed);
  }

  lemma ShippedCapWeights()
    ensures CapWeights([CryptoDb[0], CryptoDb[2]]) == Success([("Bitcoin", 1.0), ("Cardano", 0.7)])
  {
    var rs := [CryptoDb[0], CryptoDb[2]];
    assert rs[0].1.marketCap == Some("high") && rs[1].1.marketCap == Some("medium");
    assert "high" in MarketCapWeight && "medium" in MarketCapWeight;
    assert CapFactor(rs[0].1) == 1.0 && CapFactor(rs[1].1) == 0.7;
    var w := CapWeights(rs);
    assert w.value == [w.value[0], w.value[1]];
  }

  lemma ShippedRising()
    ensures RisingCoins(CryptoDb) == [CryptoDb[0], CryptoDb[2]]
  {
    assert CryptoDb[1..][1..] == [CryptoDb[2]];
  }

  /** Cardano has the highest sustainability index. */
  lemma ShippedMostSustainable()
    ensures MostSustainableCoin(CryptoDb) == Success(MostSustainable("Cardano", 0.85))
  {
    ShippedScores();
  }

  /** The keys in code-point order. */
  lemma ShippedList()
    ensures ListCoins(CryptoDb) == Available(["Bitcoin", "Cardano", "Ethereum"])
  {
    var keys := Keys(CryptoDb);
    assert keys == ["Bitcoin", "Ethereum", "Cardano"];
    KeyOrder();
    SortedKeys(keys[0], keys[1], keys[2]);
  }

  lemma SortedKeys(b: string, e: string, c: string)
    requires LexLe(b, c) && !LexLe(e, c)
    ensures SortNames([b, e, c]) == [b, c, e]
  {
    SortTwo(e, c);
    SortCons(b, [e, c]);
    InsertInFront(b, [c, e]);
  }

  lemma SortTwo(x: string, y: string)
    requires !LexLe(x, y)
    ensures SortNames([x, y]) == [y, x]
  {
    SortOne(y);
    assert [x, y][1..] == [y];
    InsertAfterOnly(x, y);
  }

  lemma SortCons(x: string, s: seq<string>)
    ensures SortNames([x] + s) == InsertName(x, SortNames(s))
  {
    assert ([x] + s)[1..] == s;
  }

  lemma SortOne(x: string)
    ensures SortNames([x]) == [x]
  {
    assert [x][1..] == [];
  }

  lemma InsertAfterOnly(x: string, y: string)
    requires !LexLe(x, y)
    ensures InsertName(x, [y]) == [y, x]
  {
    assert [y][1..] == [];
  }

  lemma InsertInFront(x: string, s: seq<string>)
    requires NamesSorted(s) && s != [] && LexLe(x, s[0])
    ensures InsertName(x, s) == [x] + s
  {
  }

  lemma KeyOrder()
    ensures LexLe("Bitcoin", "Cardano") && !LexLe("Ethereum", "Cardano")
  {
  }

  /** Lookup ignores case and surrounding whitespace. */
  lemma ShippedLookupFolds(name: string)
    requires name == "  ETHEREUM\n"
    ensures LookupKey(CryptoDb, name) == Some("Ethereum")
  {
    EthereumStrip(name);
    EthereumFolds();
    LookupSecond(CryptoDb, name);
  }

  lemma EthereumStrip(name: string)
    requires name == "  ETHEREUM\n"
    ensures Strip(name) == "ETHEREUM"
  {
    StripExactly(name, 2, 10);
  }

  lemma EthereumFolds()
    ensures Lower("ETHEREUM") == "ethereum" == Lower(CryptoDb[1].0)
    ensures Lower(CryptoDb[0].0) != "ethereum"
  {
    UpperEthereum();
    assert |Lower(CryptoDb[0].0)| == 7;
  }

  lemma UpperEthereum()
    ensures Lower("ETHEREUM") == "ethereum"
  {
  }

  lemma LookupSecond(db: Table, name: string)
    requires |db| >= 2 && Lower(db[0].0) != Lower(Strip(name)) && Lower(db[1].0) == Lower(Strip(name))
    ensures LookupKey(db, name) == Some(db[1].0)
  {
    LookupFirst(db, name, 1);
  }

  /** Lookup does not match prefixes. */
  lemma ShippedLookupMisses(name: string)
    requires name == "bit"
    ensures LookupKey(CryptoDb, name) == None
  {
    StripExactly(name, 0, 3);
    assert |CryptoDb[0].0| == 7 && |CryptoDb[1].0| == 8 && |CryptoDb[2].0| == 7;
    LengthMisses(CryptoDb, name);
  }

  lemma LengthMisses(db: Table, name: string)
    requires forall j :: 0 <= j < |db| ==> |db[j].0| != |Strip(name)|
    ensures LookupKey(db, name) == None
  {
    forall j | 0 <= j < |db|
      ensures Lower(db[j].0) != Lower(Strip(name))
    {
      assert |Lower(db[j].0)| != |Lower(Strip(name))|;
    }
  }

  /** No handler raises on the shipped table. */
  lemma ShippedNeverRaises()
    ensures NeverRaises(CryptoDb)
  {
  }

  /** The first test that holds wins: a line asking to analyze a coin called
      "green" goes to the sustainability handler. */
  lemma AnalyzeGreen(line: string)
    requires line == "analyze green"
    ensures Classify(line) == SustainableCmd
  {
    AnalyzeGreenNormal(line);
    AnalyzeGreenMentions(line);
  }

  lemma AnalyzeGreenNormal(line: string)
    requires line == "analyze green"
    ensures Strip(line) == line && Lower(line) == line
  {
    StripExactly(line, 0, |line|);
    LowerUnchanged(line);
  }

  lemma AnalyzeGreenMentions(line: string)
    requires line == "analyze green"
    ensures !Contains(line, "trend") && !Contains(line, "trending") && !Contains(line, "rising")
    ensures Contains(line, "green")
  {
    LacksTrendWords(line);
    LacksRising(line);
    HasGreen(line);
  }

  lemma LacksTrendWords(line: string)
    requires line == "analyze green"
    ensures !Contains(line, "trend") && !Contains(line, "trending")
  {
    MissingCharNeverContains(line, "trend", 0);
    MissingCharNeverContains(line, "trending", 0);
  }

  lemma LacksRising(line: string)
    requires line == "analyze green"
    ensures !Contains(line, "rising")
  {
    MissingCharNeverContains(line, "rising", 1);
  }

  lemma HasGreen(line: string)
    requires line == "analyze green"
    ensures Contains(line, "green")
  {
    ContainsIff(line, "green");
    assert OccursAt(line, "green", 8);
  }

  /** A line mentioning both trends and sustainability goes to the trending
      handler. */
  lemma TrendingAndGreen(line: string)
    requires line == "trending green"
    ensures Classify(line) == TrendingCmd
  {
    TrendingAndGreenNormal(line);
    assert StartsWith(line, "trend");
  }

  lemma TrendingAndGreenNormal(line: string)
    requires line == "trending green"
    ensures Strip(line) == line && Lower(line) == line
  {
    StripExactly(line, 0, |line|);
    LowerUnchanged(line);
  }
}
