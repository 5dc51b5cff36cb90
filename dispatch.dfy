/** The console front end of the chatbot (chatbot.py:25-45, 170-236): the
    tone chosen at startup, the free-text command classifier with its fixed
    priority order, and the read-eval-print loop whose only state is the
    tone. Input is a sequence of lines; running out of lines stands for
    end-of-input or an interrupt. */
module Dispatch {
  import opened Wrappers
  import opened Text
  import opened Scoring
  import opened Handlers

  /** `AVAILABLE_TONES`. */
  const AvailableTones: seq<string> := ["friendly", "professional", "meme"]

  /** `choose_tone_interactive` on the line typed at the prompt: the
      normalised choice when it names a tone, "friendly" otherwise. */
  function ChooseTone(choice: string): (tone: string)
    ensures tone in AvailableTones
    ensures Lower(Strip(choice)) in AvailableTones ==> tone == Lower(Strip(choice))
    ensures Lower(Strip(choice)) !in AvailableTones ==> tone == "friendly"
  {
    var c := Lower(Strip(choice));
    if c in AvailableTones then c else "friendly"
  }

  /** `tone_prefix`: one greeting per tone; any other string gets the
      friendly one. (The emoji in two of them are written as Unicode escapes.) */
  function TonePrefix(tone: string): (prefix: string)
    ensures tone != "professional" && tone != "meme" ==>
      prefix == "Hey there! Let's find you a green and growing crypto \U{1F331}"
  {
    if tone == "professional" then "Hello. Here's an objective summary:"
    else if tone == "meme" then "Yo! LFG \U{1F680} \U{2014} memeing aside, here's the tea:"
    else "Hey there! Let's find you a green and growing crypto \U{1F331}"
  }

  /** The three tones get three different greetings, and every string that
      is not a tone gets the friendly one. */
  lemma TonePrefixes(other: string)
    requires other !in AvailableTones
    ensures TonePrefix(other) == TonePrefix("friendly")
    ensures |{TonePrefix("friendly"), TonePrefix("professional"), TonePrefix("meme")}| == 3
  {
  }

  /** What one input line asks for. */
  datatype Command =
    | Blank                        // nothing but whitespace: skipped silently
    | Quit                         // exit / quit
    | Help                         // help / ?
    | ListCmd                      // list / show
    | TrendingCmd                  // mentions trend / trending / rising
    | SustainableCmd               // mentions sustain / sustainable / green
    | AnalyzeCmd(name: string)     // starts with "analyze "
    | RecommendCmd                 // mentions recommend / what should i buy / advice
    | ToneCmd(text: string)        // starts with "tone"; the lower-cased line
    | Unrecognised

  /** The if-chain of `run_chatbot`: exact matches first, then substring
      tests, then prefixes, in a fixed order; the first test that holds wins. */
  function Classify(line: string): (c: Command)
    ensures c == Blank <==> AllSpace(line)
    ensures c == Quit <==> Lower(Strip(line)) in ["exit", "quit"]
  {
    var user := Strip(line);
    if user == [] then Blank
    else
      Route(user, Lower(user))
  }

  /** The tests after the blank check, on the stripped line `user` and its
      lower-cased copy `u`: the name after "analyze " keeps its case. */
  function Route(user: string, u: string): (c: Command)
    requires |u| == |user|
    ensures c != Blank
    ensures c == Quit <==> u in ["exit", "quit"]
    ensures c == Help <==> u in ["help", "?"]
    ensures c == ListCmd <==> u in ["list", "show"]
  {
    if u == "exit" || u == "quit" then Quit
    else if u == "help" || u == "?" then Help
    else if u == "list" || u == "show" then ListCmd
    else if MentionsTrend(u) then TrendingCmd
    else if MentionsSustain(u) then SustainableCmd
    else if StartsWith(u, "analyze ") then AnalyzeCmd(Strip(user[|"analyze "|..]))
    else if MentionsRecommend(u) then RecommendCmd
    else if StartsWith(u, "tone") then ToneCmd(u)
    else Unrecognised
  }

  /** Help and list are recognised exactly when the stripped, lower-cased
      line is one of their words. */
  lemma ExactCommands(line: string)
    ensures Classify(line) == Help <==> Lower(Strip(line)) in ["help", "?"]
    ensures Classify(line) == ListCmd <==> Lower(Strip(line)) in ["list", "show"]
  {
  }

  /** The substring test of the trending branch. "trending" adds nothing to
      "trend"; no line shorter than the shortest keyword passes. */
  predicate MentionsTrend(u: string)
    ensures MentionsTrend(u) <==> Contains(u, "trend") || Contains(u, "rising")
    ensures MentionsTrend(u) ==> |u| >= 5
  {
    RedundantKeywords(u);
    Contains(u, "trend") || Contains(u, "trending") || Contains(u, "rising")
  }

  /** The substring test of the sustainable branch. "sustainable" adds
      nothing to "sustain". */
  predicate MentionsSustain(u: string)
    ensures MentionsSustain(u) <==> Contains(u, "sustain") || Contains(u, "green")
    ensures MentionsSustain(u) ==> |u| >= 5
  {
    RedundantKeywords(u);
    Contains(u, "sustain") || Contains(u, "sustainable") || Contains(u, "green")
  }

  /** The substring test of the recommend branch; "advice" is its shortest
      keyword. */
  predicate MentionsRecommend(u: string)
    ensures MentionsRecommend(u) ==> |u| >= 6
  {
    Contains(u, "recommend") || Contains(u, "what should i buy") || Contains(u, "advice")
  }

  /** A line that mentions one of the keywords is not one of the exact
      commands, which are all shorter than every keyword. */
  lemma KeywordNotExact(line: string, w: string)
    requires 5 <= |w| && Contains(Lower(Strip(line)), w)
    ensures var u := Lower(Strip(line));
      |Strip(line)| >= 5 && u !in ["exit", "quit", "help", "?", "list", "show"]
  {
  }

  /** Any line mentioning "trend" or "rising" goes to the trending handler,
      whatever else it mentions: no exact command contains those words and
      the trending test comes before all the others. */
  lemma TrendingWins(line: string)
    requires var u := Lower(Strip(line)); Contains(u, "trend") || Contains(u, "rising")
    ensures Classify(line) == TrendingCmd
  {
    if Contains(Lower(Strip(line)), "trend") {
      KeywordNotExact(line, "trend");
    } else {
      KeywordNotExact(line, "rising");
    }
  }

  /** A line that mentions "sustain" or "green" and none of the trending
      words goes to the sustainable handler. */
  lemma SustainableWins(line: string)
    requires var u := Lower(Strip(line));
      (Contains(u, "sustain") || Contains(u, "green")) && !Contains(u, "trend") && !Contains(u, "rising")
    ensures Classify(line) == SustainableCmd
  {
    var u := Lower(Strip(line));
    if Contains(u, "sustain") {
      KeywordNotExact(line, "sustain");
    } else {
      KeywordNotExact(line, "green");
    }
    RedundantKeywords(u);
  }

  /** `analyze <coin>` is recognised only after the trending and sustainable
      tests have failed; the name is the rest of the stripped line, stripped
      again and with its case kept. */
  lemma AnalyzeWins(line: string)
    requires var u := Lower(Strip(line));
      StartsWith(u, "analyze ") && !MentionsTrend(u) && !MentionsSustain(u)
    ensures Classify(line) == AnalyzeCmd(Strip(Strip(line)[8..]))
  {
    RouteAnalyze(Strip(line), Lower(Strip(line)));
  }

  lemma RouteAnalyze(user: string, u: string)
    requires |u| == |user|
    requires StartsWith(u, "analyze ") && !MentionsTrend(u) && !MentionsSustain(u)
    ensures |user| >= 8 && Route(user, u) == AnalyzeCmd(Strip(user[8..]))
  {
    assert |u| >= 8 && u !in ["exit", "quit", "help", "?", "list", "show"] by {
      assert u[0] == 'a';
    }
    assert Route(user, u).AnalyzeCmd?;
  }

  /** The recommend test comes after the trending, sustainable and analyze
      tests and before the tone test. */
  lemma RecommendWins(line: string)
    requires var u := Lower(Strip(line));
      MentionsRecommend(u) && !MentionsTrend(u) && !MentionsSustain(u) && !StartsWith(u, "analyze ")
    ensures Classify(line) == RecommendCmd
  {
    RouteRecommend(Strip(line), Lower(Strip(line)));
  }

  lemma RouteRecommend(user: string, u: string)
    requires |u| == |user|
    requires MentionsRecommend(u) && !MentionsTrend(u) && !MentionsSustain(u) && !StartsWith(u, "analyze ")
    ensures user != [] && Route(user, u) == RecommendCmd
  {
    assert |u| >= 6;
  }

  /** A line starting with "tone" that matches no earlier test is a tone
      command carrying the lower-cased line. */
  lemma ToneWins(line: string)
    requires var u := Lower(Strip(line));
      StartsWith(u, "tone") && !MentionsTrend(u) && !MentionsSustain(u) && !MentionsRecommend(u)
    ensures Classify(line) == ToneCmd(Lower(Strip(line)))
  {
    RouteTone(Strip(line), Lower(Strip(line)));
  }

  lemma RouteTone(user: string, u: string)
    requires |u| == |user|
    requires StartsWith(u, "tone") && !MentionsTrend(u) && !MentionsSustain(u) && !MentionsRecommend(u)
    ensures user != [] && Route(user, u) == ToneCmd(u)
  {
    assert u !in ["exit", "quit", "help", "?", "list", "show"] && !StartsWith(u, "analyze ") by {
      assert u[0] == 't';
    }
    assert Route(user, u).ToneCmd?;
  }

  /** Everything else that is not blank is not understood. */
  lemma OtherwiseUnrecognised(line: string)
    requires var u := Lower(Strip(line));
      !AllSpace(line) && u !in ["exit", "quit", "help", "?", "list", "show"] &&
      !MentionsTrend(u) && !MentionsSustain(u) && !MentionsRecommend(u) &&
      !StartsWith(u, "analyze ") && !StartsWith(u, "tone")
    ensures Classify(line) == Unrecognised
  {
  }

  /** The longer keywords are redundant: "trending" contains "trend" and
      "sustainable" contains "sustain", so those two tests never decide anything. */
  lemma RedundantKeywords(u: string)
    ensures Contains(u, "trending") ==> Contains(u, "trend")
    ensures Contains(u, "sustainable") ==> Contains(u, "sustain")
  {
    assert Contains("trending", "trend");
    assert Contains("sustainable", "sustain");
    if Contains(u, "trending") { ContainsTransitive(u, "trending", "trend"); }
    if Contains(u, "sustainable") { ContainsTransitive(u, "sustainable", "sustain"); }
  }

  /** What the handlers answer on the table. The table never changes while
      the loop runs, so each handler answers the same every time it is
      called; `analyze` still depends on the name typed. */
  datatype Answers = Answers(
    list: Reply,
    trending: Result<Reply, Exception>,
    sustainable: Result<Reply, Exception>,
    analyze: string -> Result<Reply, Exception>,
    recommend: Result<Reply, Exception>)

  function AnswersOf(db: Table): Answers {
    Answers(ListCoins(db), Trending(db), MostSustainableCoin(db), name => Analyze(db, name), Recommend(db))
  }

  /** What one line does to the conversation. */
  datatype Step =
    | Continue(out: Option<Reply>, tone: string)  // keep reading, maybe with a new tone
    | Stop(last: Reply)                           // exit / quit: print and leave the loop
    | Crash(exc: Exception)                       // a handler raised; nothing catches it

  function Outcome(r: Result<Reply, Exception>, tone: string): Step {
    match r
    case Success(reply) => Continue(Some(reply), tone)
    case Failure(e) => Crash(e)
  }

  /** One iteration of the `while True` body of `run_chatbot`, once the line
      has been classified. */
  function Respond(ans: Answers, tone: string, cmd: Command): (step: Step)
    ensures step.Crash? ==> cmd.TrendingCmd? || cmd.SustainableCmd? || cmd.AnalyzeCmd? || cmd.RecommendCmd?
    ensures cmd == Blank <==> step == Continue(None, tone)
    ensures step.Continue? && step.out.None? ==> cmd == Blank
  {
    match cmd
    case Blank => Continue(None, tone)
    case Quit => Stop(Farewell)
    case Help => Continue(Some(HelpText(tone == "meme")), tone)
    case ListCmd => Continue(Some(ans.list), tone)
    case TrendingCmd => Outcome(ans.trending, tone)
    case SustainableCmd => Outcome(ans.sustainable, tone)
    case AnalyzeCmd(name) => Outcome(ans.analyze(name), tone)
    case RecommendCmd => Outcome(ans.recommend, tone)
    case ToneCmd(text) =>
      var words := Words(text);
      if |words| >= 2 && words[1] in AvailableTones then Continue(Some(ToneSet(words[1])), words[1])
      else Continue(Some(CurrentTone(tone)), tone)
    case Unrecognised => Continue(Some(NotUnderstood), tone)
  }

  /** The tone changes only through a `tone <name>` command whose second word
      names an available tone, and then becomes that word. */
  lemma RespondTone(ans: Answers, tone: string, cmd: Command)
    ensures Respond(ans, tone, cmd).Continue? && Respond(ans, tone, cmd).tone != tone ==>
      cmd.ToneCmd? && |Words(cmd.text)| >= 2 && Words(cmd.text)[1] == Respond(ans, tone, cmd).tone &&
      Respond(ans, tone, cmd).tone in AvailableTones
  {
  }

  /** `tone <name>` followed by nothing but whitespace, with the words
      separated by any run of whitespace, switches to an available tone and
      confirms it. */
  lemma ToneSwitch(ans: Answers, tone: string, sp: string, name: string, tail: string)
    requires sp != [] && AllSpace(sp) && AllSpace(tail) && name in AvailableTones
    ensures Respond(ans, tone, ToneCmd("tone" + sp + name + tail)) == Continue(Some(ToneSet(name)), name)
  {
    assert IsWord("tone") && IsWord(name);
    TwoWords("tone", sp, name, tail);
  }

  /** Only exit/quit stops the loop, and it says goodbye. */
  lemma RespondStops(ans: Answers, tone: string, cmd: Command)
    ensures Respond(ans, tone, cmd).Stop? <==> cmd == Quit
    ensures Respond(ans, tone, cmd).Stop? ==> Respond(ans, tone, cmd).last == Farewell
  {
  }

  /** Answers none of which is an exception. */
  ghost predicate Safe(ans: Answers) {
    ans.trending.Success? && ans.sustainable.Success? && ans.recommend.Success? &&
    forall name :: ans.analyze(name).Success?
  }

  lemma RespondNeverCrashes(ans: Answers, tone: string, cmd: Command)
    requires Safe(ans)
    ensures !Respond(ans, tone, cmd).Crash?
  {
  }

  /** The tables on which no handler raises: a non-empty table, a raw
      sustainability score for every coin, and a known (or missing) market
      cap for every rising coin. */
  predicate NeverRaises(db: Table) {
    db != [] &&
    (forall i :: 0 <= i < |db| ==> db[i].1.sustainabilityScore.Some?) &&
    (forall i :: 0 <= i < |db| && IsRising(db[i].1) ==>
      db[i].1.marketCap.None? || db[i].1.marketCap.value in MarketCapWeight)
  }

  /** On such a table every handler answers. */
  lemma NeverRaisesSafe(db: Table)
    requires NeverRaises(db)
    ensures Safe(AnswersOf(db))
  {
    TrendingNeverRaises(db);
    forall name ensures Analyze(db, name).Success? {
      AnalyzeNeverRaises(db, name);
    }
  }

  lemma TrendingNeverRaises(db: Table)
    requires NeverRaises(db)
    ensures Trending(db).Success?
  {
    var rs := RisingCoins(db);
    forall i | 0 <= i < |rs|
      ensures !(rs[i].1.marketCap.Some? && rs[i].1.marketCap.value !in MarketCapWeight)
    {
      assert rs[i] in db;
    }
  }

  lemma AnalyzeNeverRaises(db: Table, name: string)
    requires NeverRaises(db)
    ensures Analyze(db, name).Success?
  {
    AnalyzeRaises(db, name);
    var key := LookupKey(db, name);
    if key.Some? && key != Some("") {
      var c := ValueOf(db, key.value);
      var i :| 0 <= i < |db| && db[i] == (key.value, c);
    }
  }

  /** How a conversation ended. */
  datatype Ending = Exited | InputExhausted | Crashed(exc: Exception)

  /** What the loop printed, the tone it ended with, how it ended and how
      many input lines it read. */
  datatype Transcript = Transcript(replies: seq<Reply>, tone: string, ending: Ending, consumed: nat)

  function Emitted(out: Option<Reply>): seq<Reply> {
    match out
    case None => []
    case Some(r) => [r]
  }

  /** The `while True` loop of `run_chatbot` from a given tone over the
      commands of the remaining input lines. */
  function Converse(ans: Answers, tone: string, cmds: seq<Command>): (t: Transcript)
    ensures t.consumed <= |cmds|
    decreases |cmds|
  {
    if cmds == [] then Transcript([Farewell], tone, InputExhausted, 0)
    else
      match Respond(ans, tone, cmds[0])
      case Stop(last) => Transcript([last], tone, Exited, 1)
      case Crash(e) => Transcript([], tone, Crashed(e), 1)
      case Continue(out, next) =>
        var rest := Converse(ans, next, cmds[1..]);
        Transcript(Emitted(out) + rest.replies, rest.tone, rest.ending, 1 + rest.consumed)
  }

  /** One turn of the loop that keeps going: its reply, then the rest. */
  lemma ConverseContinues(ans: Answers, tone: string, cmds: seq<Command>)
    requires cmds != [] && Respond(ans, tone, cmds[0]).Continue?
    ensures var step := Respond(ans, tone, cmds[0]);
      var rest := Converse(ans, step.tone, cmds[1..]);
      Converse(ans, tone, cmds) ==
        Transcript(Emitted(step.out) + rest.replies, rest.tone, rest.ending, 1 + rest.consumed)
  {
  }

  /** One turn of the loop that leaves it: exit/quit or an exception. */
  lemma ConverseLeaves(ans: Answers, tone: string, cmds: seq<Command>)
    requires cmds != [] && !Respond(ans, tone, cmds[0]).Continue?
    ensures var step := Respond(ans, tone, cmds[0]);
      Converse(ans, tone, cmds) ==
        if step.Stop? then Transcript([step.last], tone, Exited, 1)
        else Transcript([], tone, Crashed(step.exc), 1)
  {
  }

  /** The tone is always one of the available tones. */
  lemma {:induction false} ConverseToneValid(ans: Answers, tone: string, cmds: seq<Command>)
    requires tone in AvailableTones
    ensures Converse(ans, tone, cmds).tone in AvailableTones
    decreases |cmds|
  {
    if cmds != [] {
      RespondTone(ans, tone, cmds[0]);
      if Respond(ans, tone, cmds[0]).Continue? {
        ConverseToneValid(ans, Respond(ans, tone, cmds[0]).tone, cmds[1..]);
      }
    }
  }

  lemma ConverseQuitNow(ans: Answers, tone: string, cmds: seq<Command>)
    requires cmds != [] && cmds[0] == Quit
    ensures Converse(ans, tone, cmds) == Transcript([Farewell], tone, Exited, 1)
  {
    RespondStops(ans, tone, cmds[0]);
  }

  /** When no handler raises, the loop stops right after the first exit/quit
      line, printing the farewell last. */
  lemma {:induction false} ConverseStopsAtFirstQuit(ans: Answers, tone: string, cmds: seq<Command>, k: nat)
    requires Safe(ans)
    requires k < |cmds| && cmds[k] == Quit
    requires forall j :: 0 <= j < k ==> cmds[j] != Quit
    ensures var t := Converse(ans, tone, cmds);
      t.ending == Exited && t.consumed == k + 1 && t.replies != [] && t.replies[|t.replies| - 1] == Farewell
    decreases k
  {
    if k == 0 {
      ConverseQuitNow(ans, tone, cmds);
    } else {
      RespondNeverCrashes(ans, tone, cmds[0]);
      RespondStops(ans, tone, cmds[0]);
      var step := Respond(ans, tone, cmds[0]);
      var tail := cmds[1..];
      forall j | 0 <= j < k - 1
        ensures tail[j] != Quit
      {
        assert tail[j] == cmds[j + 1];
      }
      ConverseStopsAtFirstQuit(ans, step.tone, tail, k - 1);
      ConverseContinues(ans, tone, cmds);
    }
  }

  /** When no handler raises and no line is exit/quit, the loop reads every
      line and says goodbye when the input runs out. */
  lemma {:induction false} ConverseReadsAll(ans: Answers, tone: string, cmds: seq<Command>)
    requires Safe(ans)
    requires forall j :: 0 <= j < |cmds| ==> cmds[j] != Quit
    ensures var t := Converse(ans, tone, cmds);
      t.ending == InputExhausted && t.consumed == |cmds| && t.replies != [] && t.replies[|t.replies| - 1] == Farewell
    decreases |cmds|
  {
    if cmds != [] {
      RespondNeverCrashes(ans, tone, cmds[0]);
      RespondStops(ans, tone, cmds[0]);
      var step := Respond(ans, tone, cmds[0]);
      var tail := cmds[1..];
      forall j | 0 <= j < |tail|
        ensures tail[j] != Quit
      {
        assert tail[j] == cmds[j + 1];
      }
      ConverseReadsAll(ans, step.tone, tail);
      ConverseContinues(ans, tone, cmds);
    }
  }

  /** The command of every line. Classifying a line does not depend on the
      tone or on earlier lines, so the lines can be classified up front. */
  function Commands(lines: seq<string>): (cmds: seq<Command>)
    ensures |cmds| == |lines|
  {
    MapSeq(Classify, lines)
  }

  function MapSeq<A, B>(f: A -> B, s: seq<A>): (r: seq<B>)
    ensures |r| == |s|
  {
    if s == [] then [] else [f(s[0])] + MapSeq(f, s[1..])
  }

  /** Each command is the classification of the line at the same index. */
  lemma CommandsAt(lines: seq<string>, i: nat)
    requires i < |lines|
    ensures Commands(lines)[i] == Classify(lines[i])
  {
    MapSeqAt(Classify, lines, i);
  }

  lemma {:induction false} MapSeqAt<A, B>(f: A -> B, s: seq<A>, i: nat)
    requires i < |s|
    ensures MapSeq(f, s)[i] == f(s[i])
  {
    if i > 0 {
      MapSeqAt(f, s[1..], i - 1);
    }
  }

  /** `run_chatbot` over the whole input: the tone prompt is printed first,
      and the first line answers it; reading that line is outside the `try`,
      so no input at all raises EOFError (the tone field of that transcript
      is then meaningless). */
  function Run(db: Table, input: seq<string>): (t: Transcript)
    ensures t.tone in AvailableTones
  {
    RunWith(AnswersOf(db), input)
  }

  /** `Run` with the handlers' answers for the table already computed. */
  function RunWith(ans: Answers, input: seq<string>): (t: Transcript)
    ensures t.tone in AvailableTones
    ensures t.replies != [] && t.replies[0] == TonePrompt
    ensures input == [] ==> t.replies == [TonePrompt] && t.ending == Crashed(EOFError) && t.consumed == 0
  {
    if input == [] then Transcript([TonePrompt], "friendly", Crashed(EOFError), 0)
    else
      ConverseToneValid(ans, ChooseTone(input[0]), Commands(input)[1..]);
      After(Intro(input[0]), 1, Converse(ans, ChooseTone(input[0]), Commands(input)[1..]))
  }

  /** What is printed before the loop, given the answer to the tone prompt. */
  function Intro(answer: string): (intro: seq<Reply>)
    ensures |intro| >= 3 && intro[0] == TonePrompt && intro[|intro| - 1] == HelpHint
    ensures intro[1] == ToneDefaulted <==> Lower(Strip(answer)) !in AvailableTones
    ensures intro[|intro| - 2] == Greeting(TonePrefix(ChooseTone(answer)))
  {
    [TonePrompt] + (if Lower(Strip(answer)) in AvailableTones then [] else [ToneDefaulted]) +
    [Greeting(TonePrefix(ChooseTone(answer))), HelpHint]
  }

  /** When no handler raises, the loop ends at the first exit/quit or when
      the input runs out, never with an exception, and says goodbye last. */
  lemma ConverseEndsWithFarewell(ans: Answers, tone: string, cmds: seq<Command>)
    requires Safe(ans)
    ensures var t := Converse(ans, tone, cmds);
      !t.ending.Crashed? && t.replies != [] && t.replies[|t.replies| - 1] == Farewell &&
      (t.ending == Exited <==> Quit in cmds)
  {
    if k :| 0 <= k < |cmds| && cmds[k] == Quit && forall j :: 0 <= j < k ==> cmds[j] != Quit {
      ConverseStopsAtFirstQuit(ans, tone, cmds, k);
    } else {
      FirstQuit(cmds);
      ConverseReadsAll(ans, tone, cmds);
    }
  }

  /** When no handler raises (`NeverRaisesSafe` gives this for a table
      satisfying `NeverRaises`, and `Run(db, input)` is
      `RunWith(AnswersOf(db), input)`), a run whose tone prompt is answered
      ends at the first exit/quit line or when the input runs out, never
      with an exception, and the farewell is always its last reply. */
  lemma RunEndsWithFarewell(ans: Answers, input: seq<string>)
    requires Safe(ans) && input != []
    ensures var t := RunWith(ans, input);
      !t.ending.Crashed? && t.replies != [] && t.replies[|t.replies| - 1] == Farewell &&
      (t.ending == Exited <==> Quit in Commands(input)[1..])
  {
    RunAnswered(ans, input);
    ConverseEndsWithFarewell(ans, ChooseTone(input[0]), Commands(input)[1..]);
  }

  /** A list in which every exit/quit has an earlier one has none at all. */
  lemma FirstQuit(cmds: seq<Command>)
    requires forall k :: 0 <= k < |cmds| && cmds[k] == Quit ==>
      exists j :: 0 <= j < k && cmds[j] == Quit
    ensures forall j :: 0 <= j < |cmds| ==> cmds[j] != Quit
  {
    forall j | 0 <= j < |cmds| ensures cmds[j] != Quit {
      NoQuitBelow(cmds, j);
    }
  }

  lemma {:induction false} NoQuitBelow(cmds: seq<Command>, n: nat)
    requires n < |cmds|
    requires forall k :: 0 <= k < |cmds| && cmds[k] == Quit ==>
      exists j :: 0 <= j < k && cmds[j] == Quit
    ensures forall j :: 0 <= j <= n ==> cmds[j] != Quit
    decreases n
  {
    if n > 0 {
      NoQuitBelow(cmds, n - 1);
    }
  }

  /** The conversation once the tone prompt has been answered. */
  lemma RunAnswered(ans: Answers, input: seq<string>)
    requires input != []
    ensures RunWith(ans, input) == After(Intro(input[0]), 1, Converse(ans, ChooseTone(input[0]), Commands(input)[1..]))
  {
  }

  /** The loop on exhausted input. */
  lemma ConverseExhausted(ans: Answers, tone: string)
    ensures Converse(ans, tone, []) == Transcript([Farewell], tone, InputExhausted, 0)
  {
  }

  /** The transcript of a run that has printed `replies` and read `read`
      lines before handing the rest of the input to the loop. */
  function After(replies: seq<Reply>, read: nat, rest: Transcript): Transcript {
    Transcript(replies + rest.replies, rest.tone, rest.ending, read + rest.consumed)
  }

  /** One turn of the loop, seen from the lines already handled. */
  lemma AfterAdvances(ans: Answers, cmds: seq<Command>, i: nat, tone: string, replies: seq<Reply>)
    requires i < |cmds|
    ensures var whole := After(replies, i, Converse(ans, tone, cmds[i..]));
      match Respond(ans, tone, cmds[i])
      case Continue(out, next) =>
        whole == After(replies + Emitted(out), i + 1, Converse(ans, next, cmds[i + 1..]))
      case Stop(last) => whole == Transcript(replies + [last], tone, Exited, i + 1)
      case Crash(e) => whole == Transcript(replies, tone, Crashed(e), i + 1)
  {
    var rest := cmds[i..];
    assert rest[0] == cmds[i] && rest[1..] == cmds[i + 1..];
    var step := Respond(ans, tone, cmds[i]);
    if step.Continue? {
      ConverseContinues(ans, tone, rest);
      var later := Converse(ans, step.tone, rest[1..]);
      assert replies + (Emitted(step.out) + later.replies) == (replies + Emitted(step.out)) + later.replies;
    } else {
      ConverseLeaves(ans, tone, rest);
    }
  }

  /** One pass of the loop body: call the handler of the line's command. */
  method HandleLine(db: Table, tone: string, cmd: Command) returns (step: Step)
    ensures step == Respond(AnswersOf(db), tone, cmd)
  {
    match cmd {
      case Blank =>
        step := Continue(None, tone);
      case Quit =>
        step := Stop(Farewell);
      case Help =>
        step := Continue(Some(HelpText(tone == "meme")), tone);
      case ListCmd =>
        step := Continue(Some(ListCoins(db)), tone);
      case TrendingCmd =>
        step := Outcome(Trending(db), tone);
      case SustainableCmd =>
        step := Outcome(MostSustainableCoin(db), tone);
      case AnalyzeCmd(name) =>
        var r := HandleAnalyze(db, name);
        step := Outcome(r, tone);
      case RecommendCmd =>
        step := Outcome(Recommend(db), tone);
      case ToneCmd(text) =>
        var words := Words(text);
        if |words| >= 2 && words[1] in AvailableTones {
          step := Continue(Some(ToneSet(words[1])), words[1]);
        } else {
          step := Continue(Some(CurrentTone(tone)), tone);
        }
      case Unrecognised =>
        step := Continue(Some(NotUnderstood), tone);
    }
  }

  /** `run_chatbot`: the loop, with the tone as its only mutable state. */
  method RunChatbot(db: Table, input: seq<string>) returns (t: Transcript)
    ensures t == Run(db, input)
    ensures t.tone in AvailableTones
  {
    if |input| == 0 {
      return Transcript([TonePrompt], "friendly", Crashed(EOFError), 0);
    }
    var tone := ChooseTone(input[0]);
    var replies := Intro(input[0]);
    ghost var ans := AnswersOf(db);
    RunAnswered(ans, input);
    ghost var cmds := Commands(input);
    assert cmds[1..] == cmds[1..][0..];
    var i := 1;
    while true
      invariant 1 <= i <= |input|
      invariant RunWith(ans, input) == After(replies, i, Converse(ans, tone, cmds[i..]))
      decreases |input| - i
    {
      if i == |input| {
        ConverseExhausted(ans, tone);
        return Transcript(replies + [Farewell], tone, InputExhausted, i);
      }
      var step := HandleLine(db, tone, Classify(input[i]));
      CommandsAt(input, i);
      AfterAdvances(ans, cmds, i, tone, replies);
      i := i + 1;
      match step {
        case Stop(last) =>
          return Transcript(replies + [last], tone, Exited, i);
        case Crash(e) =>
          return Transcript(replies, tone, Crashed(e), i);
        case Continue(out, next) =>
          tone := next;
          replies := replies + Emitted(out);
      }
    }
  }
}
