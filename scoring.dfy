/** The chatbot's knowledge base and scoring engine (chatbot.py:4-108):
    a fixed table of coins, three weight tables, three clamped weighted
    scores and the score-to-label classifier. Scores are exact reals. */
module Scoring {
  import opened Wrappers

  /** One coin's attributes. Every attribute may be missing from the
      record, which the scores treat differently from an unknown value. */
  datatype Coin = Coin(
    priceTrend: Option<string>,
    marketCap: Option<string>,
    energyUse: Option<string>,
    sustainabilityScore: Option<real>)

  /** The knowledge base: coin name to attributes, in the order of the
      dictionary literal, which decides ties in `max` and `sorted`. */
  type Table = seq<(string, Coin)>

  /** The names of a table or of a list of scored names, in order. */
  function Keys<V>(db: seq<(string, V)>): (ks: seq<string>)
    ensures |ks| == |db|
    ensures forall i :: 0 <= i < |db| ==> ks[i] == db[i].0
  {
    if db == [] then [] else [db[0].0] + Keys(db[1..])
  }

  /** `crypto_db` as shipped. */
  const CryptoDb: Table := [
    ("Bitcoin", Coin(Some("rising"), Some("high"), Some("high"), Some(0.3))),
    ("Ethereum", Coin(Some("stable"), Some("high"), Some("medium"), Some(0.6))),
    ("Cardano", Coin(Some("rising"), Some("medium"), Some("low"), Some(0.8)))
  ]

  const MarketCapWeight: map<string, real> := map["high" := 1.0, "medium" := 0.7, "low" := 0.4]
  const TrendWeight: map<string, real> :=
    map["rising" := 0.9, "stable" := 0.6, "falling" := 0.2, "declining" := 0.2]
  const EnergyPreference: map<string, real> := map["low" := 1.0, "medium" := 0.6, "high" := 0.2]

  /** `table.get(key, default)`. */
  function Weight(table: map<string, real>, key: string, default: real): real {
    if key in table then table[key] else default
  }

  /** `max(0.0, min(1.0, x))`. */
  function Clamp01(x: real): (r: real)
    ensures 0.0 <= r <= 1.0
    ensures 0.0 <= x <= 1.0 ==> r == x
    ensures x < 0.0 ==> r == 0.0
    ensures x > 1.0 ==> r == 1.0
  {
    if x < 0.0 then 0.0 else if x > 1.0 then 1.0 else x
  }

  /** The trend weight: a missing trend reads as "stable", an unrecognised one gets 0.5. */
  function TrendFactor(c: Coin): (t: real)
    ensures c.priceTrend.None? ==> t == 0.6
    ensures c.priceTrend.Some? && c.priceTrend.value !in TrendWeight ==> t == 0.5
    ensures c.priceTrend.Some? && c.priceTrend.value in TrendWeight ==> t == TrendWeight[c.priceTrend.value]
    ensures 0.2 <= t <= 0.9
  {
    Weight(TrendWeight, c.priceTrend.GetOr("stable"), 0.5)
  }

  /** The market-cap weight: missing reads as "medium", unknown gets 0.7 as well. */
  function CapFactor(c: Coin): (w: real)
    ensures c.marketCap.None? || c.marketCap.value !in MarketCapWeight ==> w == 0.7
    ensures c.marketCap.Some? && c.marketCap.value in MarketCapWeight ==> w == MarketCapWeight[c.marketCap.value]
    ensures 0.4 <= w <= 1.0
  {
    Weight(MarketCapWeight, c.marketCap.GetOr("medium"), 0.7)
  }

  /** The energy preference: missing reads as "medium", unknown gets 0.6 as well. */
  function EnergyFactor(c: Coin): (e: real)
    ensures c.energyUse.None? || c.energyUse.value !in EnergyPreference ==> e == 0.6
    ensures c.energyUse.Some? && c.energyUse.value in EnergyPreference ==> e == EnergyPreference[c.energyUse.value]
    ensures 0.2 <= e <= 1.0
  {
    Weight(EnergyPreference, c.energyUse.GetOr("medium"), 0.6)
  }

  /** `compute_profitability_score`: 60% trend, 40% market cap. The weights
      keep the sum inside [0.28, 0.94], so the clamp never changes it. */
  function ProfitabilityScore(c: Coin): (p: real)
    ensures 0.0 <= p <= 1.0
    ensures p == 0.6 * TrendFactor(c) + 0.4 * CapFactor(c)
    ensures 0.28 <= p <= 0.94
  {
    Clamp01(0.6 * TrendFactor(c) + 0.4 * CapFactor(c))
  }

  /** `compute_sustainability_score`: 75% raw score (0.0 when missing), 25%
      energy preference, clamped. The clamp only bites when the raw score
      lies outside [0, 1]. */
  function SustainabilityScore(c: Coin): (s: real)
    ensures 0.0 <= s <= 1.0
    ensures var raw := c.sustainabilityScore.GetOr(0.0);
      0.0 <= raw <= 1.0 ==> s == 0.75 * raw + 0.25 * EnergyFactor(c)
    ensures c.sustainabilityScore.None? ==> s == 0.25 * EnergyFactor(c)
  {
    Clamp01(0.75 * c.sustainabilityScore.GetOr(0.0) + 0.25 * EnergyFactor(c))
  }

  /** `combined_investment_score`: 60% profitability, 40% sustainability.
      Both parts lie in [0, 1], so the clamp never changes the blend. */
  function CombinedScore(c: Coin): (r: real)
    ensures 0.0 <= r <= 1.0
    ensures r == 0.6 * ProfitabilityScore(c) + 0.4 * SustainabilityScore(c)
  {
    Clamp01(0.6 * ProfitabilityScore(c) + 0.4 * SustainabilityScore(c))
  }

  /** `recommendation_label`: bands with inclusive lower bounds. */
  function RecommendationLabel(score: real): (verdict: string)
    ensures verdict == "Strong Buy" <==> score >= 0.8
    ensures verdict == "Buy" <==> 0.6 <= score < 0.8
    ensures verdict == "Hold" <==> 0.45 <= score < 0.6
    ensures verdict == "Sell" <==> 0.25 <= score < 0.45
    ensures verdict == "Strong Sell" <==> score < 0.25
  {
    if score >= 0.8 then "Strong Buy"
    else if score >= 0.6 then "Buy"
    else if score >= 0.45 then "Hold"
    else if score >= 0.25 then "Sell"
    else "Strong Sell"
  }

  /** Position of a label on the scale from "Strong Sell" (0) to "Strong Buy" (4). */
  function LabelRank(verdict: string): nat {
    if verdict == "Strong Buy" then 4
    else if verdict == "Buy" then 3
    else if verdict == "Hold" then 2
    else if verdict == "Sell" then 1
    else 0
  }

  /** A higher score never gets a lower recommendation. */
  lemma LabelMonotone(a: real, b: real)
    requires a <= b
    ensures LabelRank(RecommendationLabel(a)) <= LabelRank(RecommendationLabel(b))
  {
  }

  /** The band edges: each lower bound belongs to the higher band. */
  lemma LabelBoundaries()
    ensures RecommendationLabel(0.8) == "Strong Buy" && RecommendationLabel(0.79) == "Buy"
    ensures RecommendationLabel(0.6) == "Buy" && RecommendationLabel(0.59) == "Hold"
    ensures RecommendationLabel(0.45) == "Hold" && RecommendationLabel(0.44) == "Sell"
    ensures RecommendationLabel(0.25) == "Sell" && RecommendationLabel(0.24) == "Strong Sell"
  {
  }

  /** Missing and unrecognised attributes are not the same: a missing trend
      scores as "stable", an unknown trend string scores lower. */
  lemma MissingTrendBeatsUnknownTrend(c: Coin, t: string)
    requires c.priceTrend.None? && t !in TrendWeight
    ensures ProfitabilityScore(c.(priceTrend := Some(t))) < ProfitabilityScore(c)
    ensures ProfitabilityScore(c.(priceTrend := Some("stable"))) == ProfitabilityScore(c)
  {
  }

  /** The exact scores of the shipped table. */
  lemma ShippedScores()
    ensures ProfitabilityScore(CryptoDb[0].1) == 0.94 && SustainabilityScore(CryptoDb[0].1) == 0.275
    ensures ProfitabilityScore(CryptoDb[1].1) == 0.76 && SustainabilityScore(CryptoDb[1].1) == 0.6
    ensures ProfitabilityScore(CryptoDb[2].1) == 0.82 && SustainabilityScore(CryptoDb[2].1) == 0.85
    ensures CombinedScore(CryptoDb[0].1) == 0.674
    ensures CombinedScore(CryptoDb[1].1) == 0.696
    ensures CombinedScore(CryptoDb[2].1) == 0.832
  {
  }
}
