/** The chat session (src/session.py, `ChatSession`): conversation history, the exchange counter and
    what one input line does to them. Terminal output, the spinner, signal handling and the log
    file's timestamps are not modelled. Each input line comes with the reply the backend would send
    if the line were sent to it. The log file becomes a ghost list of entries. */
module Session {
  import opened Wrappers
  import opened Text
  import opened Stream

  datatype Role = User | Assistant

  /** One `{"role": …, "content": …}` entry of the history. */
  datatype Message = Message(role: Role, content: string)

  /** What the logger records: one exchange, or the end of the session with its exchange count. */
  datatype LogEntry = Exchange(user: string, assistant: string) | SessionEnded(exchanges: nat)

  /** The session's observable state: `messages`, `msg_count` and the log written so far. */
  datatype State = State(messages: seq<Message>, msgCount: nat, log: seq<LogEntry>)

  /** What handling one line leads to: the new state, whether the main loop ends, and the token count
      printed after the exchange (`None` when nothing is printed). */
  datatype Next = Next(state: State, stop: bool, shownTokens: Option<int>)

  /** An input line with the reply the backend gives if the line is sent to it. */
  datatype Turn = Turn(line: string, reply: Reply)

  /** `_stream_response`'s result: the whole reply text and its token count. */
  datatype Response = Response(text: string, tokenCount: int)

  // ---------------------------------------------------------------------------------------------
  // The specification of one input line

  /** The lines the main loop hands to `_handle_command`: they start with `/` or are exactly `exit`. */
  predicate IsCommandLine(line: string) {
    StartsWith(line, "/") || line == "exit"
  }

  /** The commands `_handle_command` tells apart, after stripping surrounding whitespace. */
  datatype Command = Exit | Clear | ShowModel | Help | Unknown

  function CommandOf(cmd: string): Command {
    var c := Strip(cmd);
    if c == "/exit" || c == "exit" then Exit
    else if c == "/clear" then Clear
    else if c == "/model" then ShowModel
    else if c == "/help" then Help
    else Unknown
  }

  /** How the `run` loop treats a line: skipped, handled as a command, or sent to the model. */
  datatype LineKind = BlankLine | CommandLine(command: Command) | ChatLine

  /** Blank means `not line.strip()`. */
  function KindOf(line: string): LineKind {
    if IsBlank(line) then BlankLine
    else if IsCommandLine(line) then CommandLine(CommandOf(line))
    else ChatLine
  }

  /** `_handle_command(cmd)` on a state: `Exit` ends the loop, `Clear` empties the history, every
      other command changes nothing. */
  function ApplyCommand(s: State, command: Command): Next {
    match command
    case Exit => Next(s, true, None)
    case Clear => Next(s.(messages := []), false, None)
    case _ => Next(s, false, None)
  }

  /** An exchange: the history and the log gain the user's line and the reply, unless the request
      fails, in which case nothing changes. */
  function Converse(s: State, line: string, outcome: Result<seq<Item>, OllamaError>): Next {
    match outcome
    case Failure(_) => Next(s, false, None)
    case Success(items) =>
      var text := Chunks(items);
      var tokens := TokenCount(items);
      Next(State(s.messages + [Message(User, line), Message(Assistant, text)],
                 s.msgCount + 1,
                 s.log + [Exchange(line, text)]),
           false,
           if tokens != 0 then Some(tokens) else None)
  }

  /** One pass of the `run` loop body. */
  function Step(s: State, line: string, reply: Reply): Next {
    match KindOf(line)
    case BlankLine => Next(s, false, None)
    case CommandLine(command) => ApplyCommand(s, command)
    case ChatLine => Converse(s, line, StreamChat(reply))
  }

  /** The `run` loop over the lines read before end of input, up to the line that ends it. */
  function RunLines(s: State, turns: seq<Turn>): State
    decreases |turns|
  {
    if turns == [] then s
    else
      var next := Step(s, turns[0].line, turns[0].reply);
      if next.stop then next.state else RunLines(next.state, turns[1..])
  }

  /** `run` as a whole: the loop, then the closing log entry. */
  function RunSession(s: State, turns: seq<Turn>): State {
    var t := RunLines(s, turns);
    t.(log := t.log + [SessionEnded(t.msgCount)])
  }

  // ---------------------------------------------------------------------------------------------
  // Invariants of the session

  /** The history alternates user and assistant turns, starting with the user, and every user turn
      has its answer. */
  predicate Alternating(messages: seq<Message>) {
    |messages| % 2 == 0
    && forall i :: 0 <= i < |messages| ==> messages[i].role == (if i % 2 == 0 then User else Assistant)
  }

  function ExchangeCount(log: seq<LogEntry>): nat {
    if log == [] then 0
    else ExchangeCount(log[..|log| - 1]) + (if log[|log| - 1].Exchange? then 1 else 0)
  }

  /** What holds between two lines: the history alternates, and `msg_count` is the number of
      exchanges logged. */
  predicate Consistent(s: State) {
    Alternating(s.messages) && s.msgCount == ExchangeCount(s.log)
  }

  // ---------------------------------------------------------------------------------------------
  // The session object

  class ChatSession {
    const model: string
    var messages: seq<Message>
    var msgCount: nat
    ghost var log: seq<LogEntry>

    ghost function Snapshot(): State
      reads this
    {
      State(messages, msgCount, log)
    }

    ghost predicate Valid()
      reads this
    {
      Consistent(Snapshot())
    }

    constructor(model: string)
      ensures this.model == model
      ensures Snapshot() == State([], 0, []) && Valid()
    {
      this.model := model;
      messages := [];
      msgCount := 0;
      log := [];
    }

    /** `_handle_command(cmd)`: returns whether the main loop goes on. */
    method HandleCommand(cmd: string) returns (continues: bool)
      requires Valid()
      modifies this
      ensures Valid()
      ensures ApplyCommand(old(Snapshot()), CommandOf(cmd)) == Next(Snapshot(), !continues, None)
    {
      var c := Strip(cmd);
      continues := true;
      if c == "/exit" || c == "exit" {
        continues := false;
      } else if c == "/clear" {
        messages := [];
      } else if c == "/model" {
        // shows the model name
      } else if c == "/help" {
        // shows the list of commands
      } else {
        // reports an unknown command
      }
    }

    /** `_stream_response()`: raises the stream's error, or accumulates every chunk and keeps the token
        count of the item carrying metadata. */
    method StreamResponse(reply: Reply) returns (outcome: Result<Response, OllamaError>)
      ensures outcome.Failure? <==> StreamChat(reply).Failure?
      ensures outcome.Failure? ==> outcome.error == StreamChat(reply).error
      ensures outcome.Success? ==>
        var items := StreamChat(reply).value;
        outcome.value == Response(Chunks(items), TokenCount(items))
    {
      var stream := StreamChat(reply);
      if stream.Failure? {
        return Failure(stream.error);
      }
      var items := stream.value;
      var fullResponse := "";
      var tokenCount := 0;
      for i := 0 to |items|
        invariant fullResponse == Chunks(items[..i])
        invariant tokenCount == TokenCount(items[..i])
      {
        var item := items[i];
        assert items[..i + 1][..i] == items[..i];
        fullResponse := fullResponse + item.chunk;
        if item.meta.Some? {
          tokenCount := item.meta.value.evalCount.GetOr(0);
        }
      }
      assert items[..|items|] == items;
      return Success(Response(fullResponse, tokenCount));
    }

    /** The body of the `run` loop for one line: returns whether the loop ends and the token count it
        prints. */
    method HandleLine(userInput: string, reply: Reply) returns (stop: bool, shownTokens: Option<int>)
      requires Valid()
      modifies this
      ensures Valid()
      ensures Step(old(Snapshot()), userInput, reply) == Next(Snapshot(), stop, shownTokens)
    {
      ghost var s0 := Snapshot();
      stop, shownTokens := false, None;
      if Strip(userInput) == [] {
        BlankLineChangesNothing(s0, userInput, reply);
        return;
      }
      if StartsWith(userInput, "/") || userInput == "exit" {
        CommandStep(s0, userInput, reply);
        var continues := HandleCommand(userInput);
        stop := !continues;
        return;
      }
      ChatStep(s0, userInput, reply);
      shownTokens := Chat(userInput, reply);
    }

    /** An exchange (the rest of the loop body): append the user turn, stream the reply, and either
        pop the user turn again on failure or append the reply, log it and count it. */
    method Chat(userInput: string, reply: Reply) returns (shownTokens: Option<int>)
      requires Valid()
      modifies this
      ensures Valid()
      ensures Converse(old(Snapshot()), userInput, StreamChat(reply)) == Next(Snapshot(), false, shownTokens)
    {
      ghost var s0 := Snapshot();
      ConverseKeepsConsistent(s0, userInput, StreamChat(reply));
      shownTokens := None;
      messages := messages + [Message(User, userInput)];
      var outcome := StreamResponse(reply);
      if outcome.Failure? {
        messages := messages[..|messages| - 1];
        assert messages == s0.messages;
        return;
      }
      var fullResponse, tokenCount := outcome.value.text, outcome.value.tokenCount;
      messages := messages + [Message(Assistant, fullResponse)];
      log := log + [Exchange(userInput, fullResponse)];
      msgCount := msgCount + 1;
      if tokenCount != 0 {
        shownTokens := Some(tokenCount);
      }
    }

    /** `run()`: handles the lines until one ends the loop or the input runs out, then logs the end
        of the session. */
    method Run(turns: seq<Turn>)
      requires Valid()
      modifies this
      ensures Valid()
      ensures Snapshot() == RunSession(old(Snapshot()), turns)
    {
      var i := 0;
      while i < |turns|
        invariant i <= |turns|
        invariant Valid()
        invariant RunLines(old(Snapshot()), turns) == RunLines(Snapshot(), turns[i..])
      {
        assert turns[i..][1..] == turns[i + 1..];
        var stop, _ := HandleLine(turns[i].line, turns[i].reply);
        if stop {
          break;
        }
        i := i + 1;
      }
      if i == |turns| {
        assert turns[i..] == [];
      }
      log := log + [SessionEnded(msgCount)];
      assert ExchangeCount(log) == ExchangeCount(log[..|log| - 1]);
    }
  }

  // ---------------------------------------------------------------------------------------------
  // How lines are classified

  /** A line is skipped exactly when it is blank. */
  lemma {:induction false} BlankLinesSkipped(line: string)
    ensures KindOf(line) == BlankLine <==> IsBlank(line)
  {
  }

  /** The loop ends exactly on `exit` and on `/exit` with any trailing whitespace. */
  lemma {:induction false} ExitLines(line: string)
    ensures KindOf(line) == CommandLine(Exit) <==>
      line == "exit" || (StartsWith(line, "/") && Strip(line) == "/exit")
  {
    if line == "exit" {
      assert !IsSpace(line[0]) && !IsSpace(line[3]);
    } else if StartsWith(line, "/") {
      assert line[0] == line[..1][0] == '/';
      assert Strip(line) != [] && Strip(line)[0] == '/';
    }
  }

  /** `exit` with trailing whitespace is not a command: it is sent to the model. */
  lemma {:induction false} PaddedExitIsChat()
    ensures KindOf("exit ") == ChatLine
  {
    var t := "exit ";
    assert !IsSpace(t[0]) && t[0] != '/';
    assert t != "exit" by { assert |t| == 5; }
  }

  /** Nor is `/exit` with leading whitespace. */
  lemma {:induction false} IndentedExitIsChat()
    ensures KindOf(" /exit") == ChatLine
  {
    var t := " /exit";
    assert !IsSpace(t[5]) && t[0] != '/';
    assert t != "exit" by { assert |t| == 6; }
  }

  /** `/exit` with trailing whitespace ends the session. */
  lemma {:induction false} TrailingSpaceExitEnds()
    ensures KindOf("/exit ") == CommandLine(Exit)
  {
    var t := "/exit ";
    assert !IsSpace(t[0]) && IsSpace(t[5]) && !IsSpace(t[4]);
    assert TrimStart(t) == t;
    assert TrimEnd(t) == TrimEnd(t[..5]) && t[..5] == "/exit";
  }

  // ---------------------------------------------------------------------------------------------
  // Properties of one line

  /** A blank line changes nothing and the loop goes on. */
  lemma {:induction false} BlankLineChangesNothing(s: State, line: string, reply: Reply)
    requires IsBlank(line)
    ensures Step(s, line, reply) == Next(s, false, None)
  {
  }

  /** A command line is never blank, so `_handle_command` decides what it does. */
  lemma {:induction false} CommandStep(s: State, line: string, reply: Reply)
    requires IsCommandLine(line)
    ensures Step(s, line, reply) == ApplyCommand(s, CommandOf(line))
  {
    assert !IsBlank(line) by {
      assert line[0] == '/' || line[0] == 'e';
      assert !IsSpace(line[0]);
    }
  }

  /** A line that is neither blank nor a command is sent to the model. */
  lemma {:induction false} ChatStep(s: State, line: string, reply: Reply)
    requires !IsBlank(line) && !IsCommandLine(line)
    ensures Step(s, line, reply) == Converse(s, line, StreamChat(reply))
  {
  }

  /** A command never reaches the history: the counter and the log stay, and the history either stays
      or is emptied. */
  lemma {:induction false} CommandsNeverReachHistory(s: State, line: string, reply: Reply)
    requires IsCommandLine(line)
    ensures var t := Step(s, line, reply).state;
      t.msgCount == s.msgCount && t.log == s.log && (t.messages == s.messages || t.messages == [])
    ensures Step(s, line, reply).shownTokens.None?
  {
    CommandStep(s, line, reply);
  }

  /** `/clear` (trailing whitespace allowed) empties the history and keeps the counter; the loop goes
      on. */
  lemma {:induction false} ClearEmptiesHistory(s: State, line: string, reply: Reply)
    requires StartsWith(line, "/") && Strip(line) == "/clear"
    ensures Step(s, line, reply) == Next(State([], s.msgCount, s.log), false, None)
  {
  }

  /** `/model`, `/help` and unknown commands change nothing, and the loop goes on. */
  lemma {:induction false} OtherCommandsChangeNothing(s: State, line: string, reply: Reply)
    requires IsCommandLine(line)
    requires Strip(line) != "/exit" && Strip(line) != "exit" && Strip(line) != "/clear"
    ensures Step(s, line, reply) == Next(s, false, None)
  {
  }

  /** The loop ends exactly on an exit command, and ending it changes nothing. */
  lemma {:induction false} ExitEndsSession(s: State, line: string, reply: Reply)
    ensures Step(s, line, reply).stop <==> KindOf(line) == CommandLine(Exit)
    ensures Step(s, line, reply).stop ==> Step(s, line, reply).state == s
  {
  }

  /** A failed request rolls the history back: the state is as before the line. */
  lemma {:induction false} FailedExchangeRollsBack(s: State, line: string, reply: Reply)
    requires KindOf(line) == ChatLine && StreamChat(reply).Failure?
    ensures Step(s, line, reply) == Next(s, false, None)
  {
  }

  /** A successful exchange appends the user turn and then the reply, which is every chunk of the
      stream in order, counts one exchange and logs it. */
  lemma {:induction false} SuccessfulExchange(s: State, line: string, reply: Reply)
    requires KindOf(line) == ChatLine && reply.Reply? && !IsErrorStatus(reply.status)
    ensures var t := Step(s, line, reply).state;
      var text := Chunks(ItemsOf(RecordsIn(UpToDone(reply.lines))));
      && t.messages == s.messages + [Message(User, line), Message(Assistant, text)]
      && t.msgCount == s.msgCount + 1
      && t.log == s.log + [Exchange(line, text)]
    ensures !Step(s, line, reply).stop
  {
    ItemsAreRecordsUpToDone(reply.lines);
  }

  /** The token count is printed only after a successful exchange and only when it is not zero; it is
      the `eval_count` of the first done record, 0 when missing. */
  lemma {:induction false} TokensShownWhenNonZero(s: State, line: string, reply: Reply)
    ensures var n := Step(s, line, reply);
      n.shownTokens.Some? <==>
        KindOf(line) == ChatLine && StreamChat(reply).Success?
        && TokenCount(StreamChat(reply).value) != 0
    ensures var n := Step(s, line, reply);
      forall k :: (n.shownTokens.Some? && 0 <= k < |reply.lines| && IsDone(reply.lines[k])
        && !HasDone(reply.lines[..k])) ==> n.shownTokens.value == reply.lines[k].evalCount.GetOr(0)
  {
    if StreamChat(reply).Success? {
      TokenCountFromDoneRecord(reply.lines);
    }
  }

  /** The log only grows. */
  lemma {:induction false} LogOnlyGrows(s: State, line: string, reply: Reply)
    ensures s.log <= Step(s, line, reply).state.log
  {
  }

  // ---------------------------------------------------------------------------------------------
  // Properties of a whole session

  lemma {:induction false} ExchangeCountAppend(log: seq<LogEntry>, e: LogEntry)
    ensures ExchangeCount(log + [e]) == ExchangeCount(log) + (if e.Exchange? then 1 else 0)
  {
    assert (log + [e])[..|log|] == log;
  }

  /** Every line keeps the history alternating and the counter equal to the exchanges logged. */
  lemma {:induction false} StepKeepsConsistent(s: State, line: string, reply: Reply)
    requires Consistent(s)
    ensures Consistent(Step(s, line, reply).state)
  {
    if KindOf(line) == ChatLine {
      ConverseKeepsConsistent(s, line, StreamChat(reply));
    }
  }

  lemma {:induction false} ConverseKeepsConsistent(s: State, line: string, outcome: Result<seq<Item>, OllamaError>)
    requires Consistent(s)
    ensures Consistent(Converse(s, line, outcome).state)
  {
    if outcome.Success? {
      ExchangeKeepsConsistent(s, line, Chunks(outcome.value));
    }
  }

  lemma {:induction false} ExchangeKeepsConsistent(s: State, line: string, text: string)
    requires Consistent(s)
    ensures Consistent(State(s.messages + [Message(User, line), Message(Assistant, text)],
                             s.msgCount + 1, s.log + [Exchange(line, text)]))
  {
    var m := s.messages + [Message(User, line), Message(Assistant, text)];
    ExchangeCountAppend(s.log, Exchange(line, text));
    forall i | 0 <= i < |m| ensures m[i].role == (if i % 2 == 0 then User else Assistant) {
      if i >= |s.messages| {
        assert i == |s.messages| || i == |s.messages| + 1;
      }
    }
  }

  /** A whole session keeps the invariant, ending entry included. */
  lemma {:induction false} RunKeepsConsistent(s: State, turns: seq<Turn>)
    requires Consistent(s)
    decreases |turns|
    ensures Consistent(RunLines(s, turns))
    ensures Consistent(RunSession(s, turns))
  {
    if turns != [] {
      StepKeepsConsistent(s, turns[0].line, turns[0].reply);
      RunKeepsConsistent(Step(s, turns[0].line, turns[0].reply).state, turns[1..]);
    }
    var t := RunLines(s, turns);
    ExchangeCountAppend(t.log, SessionEnded(t.msgCount));
  }

  /** A line that empties the history. */
  predicate IsClear(line: string) {
    KindOf(line) == CommandLine(Clear)
  }

  /** Without `/clear`, a line adds two messages when it completes an exchange and none otherwise,
      and never drops any. */
  lemma {:induction false} StepWithoutClear(s: State, line: string, reply: Reply)
    requires !IsClear(line)
    ensures var t := Step(s, line, reply).state;
      t.msgCount >= s.msgCount && |t.messages| == |s.messages| + 2 * (t.msgCount - s.msgCount)
      && s.messages <= t.messages
  {
  }

  /** Without `/clear`, each successful exchange adds exactly two messages and nothing else does. */
  lemma {:induction false} TwoMessagesPerExchange(s: State, turns: seq<Turn>)
    requires forall k :: 0 <= k < |turns| ==> !IsClear(turns[k].line)
    ensures var t := RunLines(s, turns);
      t.msgCount >= s.msgCount && |t.messages| == |s.messages| + 2 * (t.msgCount - s.msgCount)
      && s.messages <= t.messages
    decreases |turns|
  {
    if turns != [] {
      var n := Step(s, turns[0].line, turns[0].reply);
      StepWithoutClear(s, turns[0].line, turns[0].reply);
      if !n.stop {
        forall k | 0 <= k < |turns[1..]| ensures !IsClear(turns[1..][k].line) {
          assert turns[1..][k] == turns[k + 1];
        }
        TwoMessagesPerExchange(n.state, turns[1..]);
      }
    }
  }

  /** A fresh session that never sees `/clear` ends with `2N` messages after `N` exchanges, user and
      assistant turns alternating. */
  lemma {:induction false} FreshSessionHistory(turns: seq<Turn>)
    requires forall k :: 0 <= k < |turns| ==> !IsClear(turns[k].line)
    ensures var t := RunSession(State([], 0, []), turns);
      |t.messages| == 2 * t.msgCount && Alternating(t.messages)
      && t.msgCount == ExchangeCount(t.log)
  {
    TwoMessagesPerExchange(State([], 0, []), turns);
    RunKeepsConsistent(State([], 0, []), turns);
  }
}
