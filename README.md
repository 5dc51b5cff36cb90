# Crypto advisor chatbot, phone classes and discount rule — a Dafny model

This project models three parts of a small Python repository.

- `chatbot.py`, a rule-based crypto advisor. It has a fixed table of three
  coins and three weight tables. It computes clamped weighted scores for
  profitability, sustainability and their combination, and maps a score to a
  label from "Strong Sell" to "Strong Buy". Five handlers answer the
  questions (list, trending, most sustainable, analyze, recommend). A console
  loop sorts each free-text line into one of these commands; its only state
  is the bot's tone.
- `classes.py`, a `Smartphone` whose battery life is charged in place, and a
  `GamingSmartphone` that also drains it by playing.
- `functions.py`, `calculate_discount`: a discount applies only above
  20 percent.

Layout, one module per file:

| file | module | models |
|---|---|---|
| `wrappers.dfy` | `Wrappers` | `Option` (for `dict.get` and lookups) and `Result` (a value or a Python exception) |
| `text.dfy` | `Text` | `str.strip`, ASCII `str.lower`, `str.split`, `in` / `startswith` on strings, code-point order of strings, decimal rendering of integers |
| `ranking.dfy` | `Ranking` | `sorted` on names, the stable `sorted(..., reverse=True)` on scores, `max(..., key=...)` |
| `scoring.dfy` | `Scoring` | `crypto_db`, the weight tables, the three scores, `recommendation_label` |
| `handlers.dfy` | `Handlers` | `find_coin_by_name` and the five `handle_*` functions |
| `dispatch.dfy` | `Dispatch` | `choose_tone_interactive`, `tone_prefix`, the command classifier and the `run_chatbot` loop |
| `phones.dfy` | `Phones` | `Smartphone` and `GamingSmartphone` |
| `discount.dfy` | `Discount` | `calculate_discount` |
| `shipped.dfy` | `Shipped` | what the bot answers on the table it ships with |

Modelling choices:

- The coin table is a sequence of `(name, Coin)` pairs in the order of the
  dictionary literal. That order decides ties in `max` and in the stable
  `sorted`. Every coin attribute is an `Option`, so a missing attribute and
  an unrecognised one are told apart the way `.get(key, default)` does.
- Scores are exact reals.
- A reply is a value of the `Reply` datatype that carries what the printed
  text reports (names, scores, labels, report lines). It is not the text
  itself.
- A Python exception that a handler lets escape is `Failure(e)`. In the
  loop it ends the conversation with `Crashed(e)`, because `run_chatbot`
  catches only `KeyboardInterrupt` and `EOFError` around `input`.
- The console input is a sequence of lines. The first line answers the tone
  prompt. Running out of lines stands for end-of-input or an interrupt at
  the `You:` prompt. `RunChatbot` is the loop as a method, with the tone as
  its mutable variable. It is proved equal to the functional `Run`, and the
  properties of the conversation are proved about `Run`.
- The two phone classes are one Dafny class. `coolingSystem` is `Some` for
  exactly the gaming edition, and `PlayGame` requires it.

## Model

| member | source | states |
|---|---|---|
| `Scoring.Keys` | chatbot.py:112 | the names of a table or of a ranking, one per entry, in order |
| `Scoring.Clamp01` | chatbot.py:74 | `max(0.0, min(1.0, x))` lies in [0, 1], is `x` inside it, 0 below it and 1 above it |
| `Scoring.TrendFactor` | chatbot.py:68-70 | a missing trend weighs 0.6 (read as "stable"), an unknown trend string 0.5, a known one its table weight; always in [0.2, 0.9] |
| `Scoring.CapFactor` | chatbot.py:69-71 | a missing or unknown market cap weighs 0.7, a known one its table weight; always in [0.4, 1.0] |
| `Scoring.EnergyFactor` | chatbot.py:83-84 | a missing or unknown energy use weighs 0.6, a known one its table weight; always in [0.2, 1.0] |
| `Scoring.ProfitabilityScore` | chatbot.py:61-74 | the score lies in [0, 1], is exactly 60% trend weight plus 40% cap weight, and lies in [0.28, 0.94], so the clamp never changes it |
| `Scoring.SustainabilityScore` | chatbot.py:77-87 | the score lies in [0, 1]; it is 75% raw score plus 25% energy preference whenever the raw score lies in [0, 1]; a missing raw score counts as 0 |
| `Scoring.CombinedScore` | chatbot.py:90-95 | the score lies in [0, 1] and is exactly 60% profitability plus 40% sustainability |
| `Scoring.RecommendationLabel` | chatbot.py:98-108 | each of the five labels is returned exactly when the score lies in its band, with inclusive lower bounds 0.8, 0.6, 0.45 and 0.25 |
| `Scoring.LabelMonotone` | chatbot.py:98-108 | a higher score never gets a lower label |
| `Scoring.LabelBoundaries` | chatbot.py:100-107 | each band's lower bound belongs to that band, and a value just below it to the band beneath |
| `Scoring.MissingTrendBeatsUnknownTrend` | chatbot.py:68-70 | a coin with no trend scores strictly higher than the same coin with an unknown trend string, and the same as with "stable" |
| `Scoring.ShippedScores` | chatbot.py:4-23 | on the shipped table, profitability is 0.94, 0.76 and 0.82, sustainability 0.275, 0.6 and 0.85, and combined 0.674, 0.696 and 0.832 for Bitcoin, Ethereum and Cardano |
| `Text.LeadingSpaces` | chatbot.py:55 | the number of leading whitespace characters: all of them are whitespace and the next one is not |
| `Text.TrailingSpaces` | chatbot.py:55 | the number of trailing whitespace characters: all of them are whitespace and the one before is not |
| `Text.Strip` | chatbot.py:55 | `str.strip()`: a slice of the input with only whitespace cut on either side, starting and ending with a non-space character; empty exactly when the input is all whitespace |
| `Text.StripExactly` | chatbot.py:55 | any slice whose two cut-off ends are all whitespace and whose own ends are not is the result of `Strip` |
| `Text.StripIdempotent` | chatbot.py:220 | stripping twice is stripping once |
| `Text.Lower` | chatbot.py:57 | `str.lower()` on ASCII: same length, each character lower-cased |
| `Text.LowerUnchanged` | chatbot.py:203 | a string without upper-case letters is its own lower-case form |
| `Text.StartsWith` | chatbot.py:219 | `s.startswith(p)` holds exactly when `p` is no longer than `s` and agrees with it at every index of `p` |
| `Text.Contains` | chatbot.py:213 | `p in s` never holds for a `p` longer than `s`, and always for the empty `p` |
| `Text.ContainsIff` | chatbot.py:213 | `p in s` holds exactly when `p` occurs at some index of `s` |
| `Text.MissingCharNeverContains` | chatbot.py:213 | a string lacking one of `p`'s characters does not contain `p` |
| `Text.ShorterNeverContains` | chatbot.py:213 | a string shorter than `p` does not contain `p` |
| `Text.ContainsTransitive` | chatbot.py:213 | containment is transitive |
| `Text.WordLength` | chatbot.py:228 | the length of the leading run of non-whitespace characters |
| `Text.Words` | chatbot.py:228 | `str.split()`: every word is non-empty and holds no whitespace, and there are no words exactly when the string is all whitespace |
| `Text.WordsSkipsSpaces` | chatbot.py:228 | leading whitespace does not change the words |
| `Text.WordsCons` | chatbot.py:228 | a word followed by nothing or by whitespace is the first word, followed by the words of the rest |
| `Text.TwoWords` | chatbot.py:228-229 | two words separated by a run of whitespace and followed only by whitespace split into exactly those two words |
| `Text.LexLeTotal` | chatbot.py:112 | any two strings are ordered one way or the other by code point |
| `Text.LexLe` | chatbot.py:112 | a prefix of a string comes no later than the string |
| `Text.LexLeTransitive` | chatbot.py:112 | the code-point order is transitive |
| `Text.LexLeAntisymmetric` | chatbot.py:112 | two strings ordered both ways are equal |
| `Text.Digit` | classes.py:13 | the decimal digit character of a number below ten |
| `Text.NatToString` | classes.py:13 | the decimal rendering of a natural number: digits only, no leading zero |
| `Text.ParseNatToString` | classes.py:13 | reading the rendering of a natural number back gives the number |
| `Text.IntToString` | classes.py:13 | the rendering of an integer starts with `-` exactly when it is negative |
| `Text.ParseIntToString` | classes.py:13 | the rendering of an integer is a numeral that reads back as the integer |
| `Ranking.InsertName` | chatbot.py:112 | inserting a name into an ascending list keeps it ascending and adds exactly that name |
| `Ranking.NamesCons` | chatbot.py:112 | a name no greater than the head of an ascending list can go in front of it |
| `Ranking.SortNames` | chatbot.py:112 | `sorted(names)`: an ascending permutation of the names |
| `Ranking.WithScore` | chatbot.py:120 | the entries with a given score, all taken from the list |
| `Ranking.InsertDesc` | chatbot.py:120 | inserting an entry into a non-increasing list keeps it non-increasing and adds exactly that entry |
| `Ranking.SortedCons` | chatbot.py:120 | an entry scoring at least the head of a non-increasing list can go in front of it |
| `Ranking.SortDesc` | chatbot.py:120 | `sorted(..., reverse=True)` on the score: a permutation with non-increasing scores |
| `Ranking.SortDescOfSorted` | chatbot.py:120 | sorting an already non-increasing list changes nothing |
| `Ranking.WithScoreInsert` | chatbot.py:158 | inserting an entry puts it first among the entries of its score |
| `Ranking.SortDescStable` | chatbot.py:158 | stability: the entries of equal score keep their input order |
| `Ranking.SortDescKeepsTies` | chatbot.py:120 | two entries of equal score keep their relative order through the descending sort |
| `Ranking.FirstArgMax` | chatbot.py:125 | `max(..., key=...)`: an index of maximal score, with every earlier entry strictly lower |
| `Ranking.WithScoreAtFirst` | chatbot.py:158 | the first entry of a score heads the entries of that score |
| `Ranking.SortDescHeadScore` | chatbot.py:158-159 | the head of the sorted list has the maximal score |
| `Ranking.FirstOfScore` | chatbot.py:158-159 | a list that keeps the order of equal scores and starts with the top score starts with the first entry of that score |
| `Ranking.SortDescHead` | chatbot.py:158-159 | the head of the stable descending sort is the entry `max` picks |
| `Ranking.SortDescSecond` | chatbot.py:165 | the second entry of the sorted list is another entry, and no other entry scores more |
| `Ranking.FirstWithScore` | chatbot.py:165 | the first index holding a given score |
| `Ranking.SecondIsFirstOfScore` | chatbot.py:165 | the second entry of the sorted list is another entry than the pick, and the first of its score in input order after the pick |
| `Ranking.SecondOfSorted` | chatbot.py:165 | in a non-increasing permutation headed by entry `i`, the second entry comes from another index and bounds all the others |
| `Handlers.LookupKey` | chatbot.py:53-59 | `find_coin_by_name`: None exactly when no key's lower-case form equals the stripped, lower-cased query; otherwise the first such key in table order |
| `Handlers.KeyMatching` | chatbot.py:56-59 | the first key whose lower-case form is the query, or None exactly when there is none |
| `Handlers.MatchingLater` | chatbot.py:56-58 | when the first key does not match, the search of the rest is the search of the whole table |
| `Handlers.FindCoinByName` | chatbot.py:53-59 | the linear search with early return computes `LookupKey` |
| `Handlers.LookupFirst` | chatbot.py:56-58 | the first matching index decides the key found |
| `Handlers.MatchingFirst` | chatbot.py:56-58 | the first index whose key matches gives the key returned |
| `Handlers.ValueOf` | chatbot.py:134 | `crypto_db[key]`: the attributes stored under the key |
| `Handlers.ListCoins` | chatbot.py:111-112 | `handle_list`: every key of the table, each as often as it occurs, in ascending code-point order |
| `Handlers.RisingCoins` | chatbot.py:116 | the entries whose trend is exactly "rising", and no others |
| `Handlers.RisingCount` | chatbot.py:116 | each rising entry is kept exactly as often as the table holds it, every other entry never |
| `Handlers.RisingKeepsOrder` | chatbot.py:116 | the rising coins keep their table order |
| `Handlers.CapWeights` | chatbot.py:120 | the sort key of every rising coin, with a missing cap read as "medium"; KeyError exactly when some cap is a string outside the table |
| `Handlers.Trending` | chatbot.py:115-121 | `handle_trending`: the fixed reply exactly when nothing rises; KeyError exactly when a rising coin has an unknown cap; otherwise a trending list by non-increasing cap weight whose names are those of the rising coins, each as often as it occurs among them |
| `Handlers.TrendingTies` | chatbot.py:115-121 | two rising coins with the same cap weight are listed in table order |
| `Handlers.WeightsKeepOrder` | chatbot.py:120 | the sort keys keep the order of the rising coins |
| `Handlers.KeysKeepOrder` | chatbot.py:121 | taking the names keeps the order of the entries |
| `Handlers.KeysSortDesc` | chatbot.py:120-121 | sorting by weight reorders the names and neither adds, drops nor repeats one |
| `Handlers.KeysInsert` | chatbot.py:120-121 | inserting an entry into a sorted list adds exactly its name |
| `Handlers.SustainabilityTable` | chatbot.py:125 | each coin paired with its sustainability index, in table order |
| `Handlers.MostSustainableCoin` | chatbot.py:124-127 | `handle_most_sustainable`: ValueError exactly on an empty table and an answer on every other; it names the first coin in table order of maximal sustainability index, with that index |
| `Handlers.ReportLines` | chatbot.py:140-149 | the eight report lines, headed by the key and ending with the combined score and its label |
| `Handlers.AnalyzeNoData` | chatbot.py:131-133 | the "no data" reply comes exactly when the lookup fails or finds an empty key |
| `Handlers.Analyze` | chatbot.py:130-153 | `handle_analyze`: the only exception is TypeError, and an answer is the "no data" reply for the name typed or a report |
| `Handlers.AnalyzeRaises` | chatbot.py:134-145 | the report raises exactly when the coin found has no raw sustainability score, and then raises TypeError |
| `Handlers.AnalyzeReport` | chatbot.py:130-153 | when a non-empty key is found and its coin has a raw sustainability score, the answer is a report about that coin: its eight lines, then the risk note exactly when the cap is "low" and the combined score is at least 0.6 |
| `Handlers.HandleAnalyze` | chatbot.py:130-153 | building the lines and appending the note computes `Analyze` |
| `Handlers.RiskyPick` | chatbot.py:151 | the risk note goes exactly with a low-cap coin whose verdict is "Buy" or "Strong Buy" |
| `Handlers.CombinedTable` | chatbot.py:157 | each coin paired with its combined score, in table order |
| `Handlers.HasCloseContender` | chatbot.py:165 | a contender needs at least two entries, and any other entry scoring at least as much as the pick is one |
| `Handlers.PickFromRanking` | chatbot.py:159-167 | the reply names a pick whose label is the label of its score |
| `Handlers.Recommend` | chatbot.py:156-167 | `handle_recommendation`: IndexError exactly on an empty table and an answer on every other; a top pick labelled by its score |
| `Handlers.RankingTopPick` | chatbot.py:158-160 | on any scored list, the pick is the first entry of maximal score |
| `Handlers.RankingContender` | chatbot.py:165-166 | on any scored list, a contender is named exactly when another entry scores within 0.05 of the pick |
| `Handlers.RankingRunnerUp` | chatbot.py:165-166 | a named contender is another entry, no entry other than the pick scores more, and every other entry before it in input order scores strictly less |
| `Handlers.RecommendTopPick` | chatbot.py:156-160 | the top pick is the first coin in table order with the maximal combined score |
| `Handlers.RecommendContender` | chatbot.py:164-166 | a contender is named exactly when another coin scores within 0.05 of the pick; it is then the best of the other coins and the first of its score in table order after the pick |
| `Dispatch.ChooseTone` | chatbot.py:28-35 | the tone is always available: the stripped, lower-cased choice when it names a tone, "friendly" otherwise |
| `Dispatch.TonePrefix` | chatbot.py:38-45 | any string other than "professional" and "meme" gets the friendly greeting |
| `Dispatch.TonePrefixes` | chatbot.py:38-45 | the three tones get three different greetings, and a string that is not a tone gets the friendly one |
| `Dispatch.Classify` | chatbot.py:195-206 | a line is skipped exactly when it is all whitespace, and stops the loop exactly when it reads "exit" or "quit" once stripped and lower-cased |
| `Dispatch.Route` | chatbot.py:203-236 | the tests after the blank check never yield a blank command, and give quit, help and list exactly for their words; `AnalyzeWins`, `RecommendWins`, `ToneWins` and the lemmas beside them state which later test wins |
| `Dispatch.MentionsTrend` | chatbot.py:213 | the trending test holds exactly when "trend" or "rising" occurs, and never on a line shorter than five characters |
| `Dispatch.MentionsSustain` | chatbot.py:216 | the sustainability test holds exactly when "sustain" or "green" occurs, and never on a line shorter than five characters |
| `Dispatch.MentionsRecommend` | chatbot.py:223 | the recommend test never holds on a line shorter than six characters |
| `Dispatch.ExactCommands` | chatbot.py:207-212 | help is chosen exactly for "help" or "?", and list exactly for "list" or "show", once stripped and lower-cased |
| `Dispatch.TrendingWins` | chatbot.py:213-215 | a line mentioning "trend" or "rising" goes to the trending handler, whatever else it says |
| `Dispatch.RedundantKeywords` | chatbot.py:213-218 | the "trending" and "sustainable" tests never decide anything: "trend" and "sustain" already match |
| `Dispatch.SustainableWins` | chatbot.py:216-218 | a line mentioning "sustain" or "green" and none of the trending words goes to the sustainability handler |
| `Dispatch.AnalyzeWins` | chatbot.py:219-222 | a line starting with "analyze " that mentions none of the trending and sustainability words analyzes the rest of the stripped line, stripped again with its case kept |
| `Dispatch.RecommendWins` | chatbot.py:223-225 | a recommend keyword goes to the recommendation handler unless a trending or sustainability word or the analyze prefix comes first |
| `Dispatch.ToneWins` | chatbot.py:226-228 | a line starting with "tone" and matching no earlier test is a tone command on the lower-cased line |
| `Dispatch.OtherwiseUnrecognised` | chatbot.py:236 | a non-blank line that passes every test is not understood |
| `Dispatch.Respond` | chatbot.py:200-236 | only the four handler commands can raise; a blank line, and only it, prints nothing and keeps the tone |
| `Dispatch.RespondTone` | chatbot.py:226-233 | the tone changes only through `tone <name>` with an available tone as its second word, and becomes that word |
| `Dispatch.ToneSwitch` | chatbot.py:226-231 | `tone <name>` with any whitespace between and after the words switches to an available tone and confirms it |
| `Dispatch.RespondStops` | chatbot.py:204-206 | only exit/quit leaves the loop, and it says goodbye |
| `Dispatch.RespondNeverCrashes` | chatbot.py:188-236 | when no handler raises, no line ends the loop with an exception |
| `Dispatch.NeverRaisesSafe` | chatbot.py:115-167 | on a non-empty table whose coins all have a raw sustainability score and whose rising coins have a known or missing cap, no handler raises |
| `Dispatch.TrendingNeverRaises` | chatbot.py:115-121 | on such a table `handle_trending` answers |
| `Dispatch.AnalyzeNeverRaises` | chatbot.py:130-153 | on such a table `handle_analyze` answers for every name |
| `Dispatch.Converse` | chatbot.py:192-236 | the loop reads at most the lines it is given |
| `Dispatch.ConverseContinues` | chatbot.py:192-236 | a turn that goes on prints its reply and hands the next tone to the rest of the loop |
| `Dispatch.ConverseLeaves` | chatbot.py:204-206 | a turn that leaves prints the farewell, or nothing when a handler raised |
| `Dispatch.ConverseToneValid` | chatbot.py:226-233 | the tone stays one of the available tones |
| `Dispatch.ConverseQuitNow` | chatbot.py:204-206 | an exit/quit line ends the loop at once with the farewell |
| `Dispatch.ConverseStopsAtFirstQuit` | chatbot.py:204-206 | when no handler raises, the loop stops right after the first exit/quit line, with the farewell last |
| `Dispatch.ConverseReadsAll` | chatbot.py:192-198 | when no handler raises and no line quits, the loop reads every line and says goodbye at the end of input |
| `Dispatch.ConverseEndsWithFarewell` | chatbot.py:192-236 | when no handler raises, the loop never crashes, says goodbye last, and exits exactly when some line quits |
| `Dispatch.Commands` | chatbot.py:195-203 | one command per input line |
| `Dispatch.CommandsAt` | chatbot.py:195-203 | each command is the classification of the line at the same index |
| `Dispatch.Run` | chatbot.py:188-236 | `run_chatbot` over the whole input; its tone is always an available one |
| `Dispatch.RunWith` | chatbot.py:188-198 | the run with the handlers' answers computed; the tone prompt is always printed first, and no input at all raises EOFError at that prompt after printing only it |
| `Dispatch.Intro` | chatbot.py:189-191 | the tone prompt of `choose_tone_interactive` comes first; the notice of a defaulted tone follows exactly when the answer names no tone; then the greeting of the chosen tone, and the hint to type `help` last |
| `Dispatch.RunEndsWithFarewell` | chatbot.py:188-236 | when no handler raises, a run whose tone prompt is answered never crashes, says goodbye last, and exits exactly when some later line quits |
| `Dispatch.FirstQuit` | chatbot.py:204-206 | a list in which every exit/quit has an earlier one has none |
| `Dispatch.RunAnswered` | chatbot.py:189-191 | after the tone prompt the run is the intro followed by the loop from the chosen tone |
| `Dispatch.ConverseExhausted` | chatbot.py:196-198 | on exhausted input the loop says goodbye and stops |
| `Dispatch.AfterAdvances` | chatbot.py:192-236 | one turn of the loop, seen from the lines already handled |
| `Dispatch.HandleLine` | chatbot.py:200-236 | one pass of the loop body computes `Respond` on the table's answers |
| `Dispatch.RunChatbot` | chatbot.py:188-236 | the loop that reassigns the tone computes `Run`, and ends with an available tone |
| `Shipped.ShippedCombined` | chatbot.py:4-23 | the combined scores of the shipped coins are 0.674, 0.696 and 0.832 |
| `Shipped.ShippedRecommendation` | chatbot.py:156-167 | on the shipped table the pick is Cardano at 0.832, "Strong Buy", with no contender |
| `Shipped.ShippedTrending` | chatbot.py:115-121 | on the shipped table Bitcoin and Cardano rise, Bitcoin first |
| `Shipped.TrendingOfSorted` | chatbot.py:120-121 | when the sort keys are already in order, the trending reply lists them as they are |
| `Shipped.ShippedMostSustainable` | chatbot.py:124-127 | on the shipped table the most sustainable coin is Cardano at 0.85 |
| `Shipped.ShippedList` | chatbot.py:111-112 | on the shipped table the list is Bitcoin, Cardano, Ethereum |
| `Shipped.ShippedLookupFolds` | chatbot.py:53-59 | "  ETHEREUM\n" finds Ethereum: case and surrounding whitespace are ignored |
| `Shipped.ShippedLookupMisses` | chatbot.py:53-59 | "bit" finds nothing: there is no prefix matching |
| `Shipped.ShippedNeverRaises` | chatbot.py:4-23 | no handler raises on the shipped table |
| `Shipped.AnalyzeGreen` | chatbot.py:216-222 | "analyze green" goes to the most-sustainable handler, because that test comes first |
| `Shipped.TrendingAndGreen` | chatbot.py:213-218 | "trending green" goes to the trending handler, because that test comes first |
| `Phones.Smartphone.constructor` | classes.py:3-6 | brand, model and battery life are stored as given; the phone is not the gaming edition |
| `Phones.Smartphone.Gaming` | classes.py:20-22 | the base fields are stored as given, and the cooling system too |
| `Phones.Smartphone.Call` | classes.py:8-9 | the message names the phone and the contact; nothing changes |
| `Phones.Smartphone.Charge` | classes.py:11-13 | battery life goes up by exactly `hours` and nothing else changes; the message reports the new battery life |
| `Phones.Smartphone.PlayGame` | classes.py:24-26 | battery life goes down by exactly twice `hours`, with no lower bound, and nothing else changes; the message reports the new battery life |
| `Phones.Smartphone.ToString` | classes.py:15-29 | the text starts with the phone's name and ends with its battery life in hours (followed by `)` on a plain phone) |
| `Phones.ChargeThenPlay` | classes.py:11-26 | charging `h` hours then playing `h` hours lowers battery life by exactly `h` and leaves the other fields alone |
| `Phones.PlayPastEmpty` | classes.py:24-26 | playing for more than half the battery life leaves it negative |
| `Discount.CalculateDiscount` | functions.py:1-5 | up to and including 20 percent the price is returned unchanged; above it the price less that percentage of it |
| `Discount.DiscountInRange` | functions.py:2-4 | between 20 (exclusive) and 100 percent a non-negative price stays in [0, price], strictly below a positive price |
| `Discount.DiscountOverHundred` | functions.py:2-4 | above 100 percent a positive price turns negative: nothing clamps the result |
| `Discount.DiscountJumpsAtThreshold` | functions.py:2-5 | 20 percent leaves the price unchanged, anything above it takes off more than a fifth |

## Left out

- Console I/O: `input` and `print` are not modelled. The input is a
  sequence of lines; the output is the sequence of `Reply` values printed,
  one per `print` call. The prompt strings that `input` itself writes
  ("Tone: " and "You: ") are not part of that output.
- `print_help` (chatbot.py:170-185) is the `HelpText` reply, which records
  only whether the meme tip is added (exactly for the "meme" tone).
- The wording of the replies, the `:.2f` rendering of scores and the emoji
  in `tone_prefix` and `print_help`: replies carry their data, not their
  text. The two emoji greetings are written with the emoji, not their
  mis-encoded bytes.
- Floating point: scores are exact reals, so rounding at a label boundary
  is not modelled.
- `str.lower` is ASCII only; `str.strip` and `str.split` use Python's
  full set of whitespace characters.
- `KeyboardInterrupt` is modelled only as the end of the input at the
  `You:` prompt; an interrupt at the tone prompt is the same as no input.
- `Dispatch.RunWith`: on no input at all the run prints the tone prompt
  and crashes with EOFError before any tone is chosen; the tone recorded
  in that transcript means nothing.
- Duplicate keys: a `Table` may repeat a key, which a Python dict literal
  cannot. `ValueOf` then takes the first entry under the key. Every
  property is stated for all tables, so tables with distinct keys, the
  ones a dict can hold, are covered as a special case.
- `Dispatch.RunEndsWithFarewell` is stated for any handler answers with
  no exception (`Safe`) rather than for a table; `NeverRaisesSafe` gives
  `Safe(AnswersOf(db))` for every table satisfying `NeverRaises`, and
  `Run(db, input)` is `RunWith(AnswersOf(db), input)` by definition.
- The handlers' answers on the table are computed once (`AnswersOf`),
  since the table never changes while the loop runs.
- `GamingSmartphone` is not a subclass: both classes are one class whose
  `coolingSystem` is present exactly for the gaming edition, and
  `PlayGame` requires the gaming edition instead of being absent from the
  plain phone.
- Battery life and hours are integers. Python would also accept floats
  and render them differently.
- `Phones.Smartphone.ToString` states how the text starts and ends, not
  the words in between.
- `calculate_discount` is modelled over reals; the console lines of
  functions.py:8-11 that read and parse the two numbers are not modelled.
- The other scripts of the repository (CORD19.py, irisdata.py, ubuntu.py,
  file.py) are not part of this model: they are library calls, plotting,
  and file and network I/O.
- Two behaviours of the code: `handle_analyze` tests `if not key`, so a
  matched empty key gets the "no data" reply (`AnalyzeNoData`); and the handlers do raise on tables
  other than the shipped one (KeyError, ValueError, IndexError, TypeError),
  which the model reports as failures.
