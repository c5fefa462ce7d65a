/** The agent's tool loop over a chat-completions wire: what it sends, and what it runs. */
module ToolLoop {
  import opened Prelude
  import opened Conversation
  import opened ContextFit

  type Input = string

  /** The arguments of one tool_calls entry, as json.loads leaves them. */
  datatype Arguments = NoArguments | NotJson | NotAnObject | AnObject(input: Input)

  /** One tool_calls entry of a response; an empty id is one the server left out. */
  datatype RawCall = RawCall(id: string, name: string, arguments: Arguments)

  datatype ToolCall = ToolCall(id: string, name: string, input: Input, inputError: string)
  datatype ToolResult = ToolResult(toolId: string, content: Content, isError: bool)

  /** What the provider answers one request with; and the call, if any, in which the run's time is up, should that call wait. */
  datatype Reply = Completion(text: string, calls: seq<RawCall>, promptTokens: Option<int>, stop: Option<nat>) | ProviderError

  datatype Verdict = Verdict(allowed: bool, reason: string)
  type Gate = (string, Input) -> Verdict

  datatype Execution = Execution(name: string, input: Input)
  datatype Output = Output(content: Content, isError: bool)

  /** What running a tool gives, after the tools run before it. */
  type Tools = (seq<Execution>, Execution) -> Output

  function DecodeCall(raw: RawCall, index: nat): (call: ToolCall)
    ensures call.id != "" && (raw.id != "" ==> call.id == raw.id)
    ensures call.inputError == "" <==> raw.arguments.AnObject? || raw.arguments.NoArguments?
  {
    var id := if raw.id != "" then raw.id else "call_" + Decimal(index);
    match raw.arguments
    case AnObject(input) => ToolCall(id, raw.name, input, "")
    case NoArguments => ToolCall(id, raw.name, "{}", "")
    case NotJson => ToolCall(id, raw.name, "{}", "tool call arguments are not valid JSON")
    case NotAnObject => ToolCall(id, raw.name, "{}", "tool call arguments must be a JSON object")
  }

  function EntryOf(call: ToolCall): ToolEntry {
    ToolEntry(call.id, call.name)
  }

  function Entries(calls: seq<ToolCall>): (entries: seq<ToolEntry>)
    ensures |entries| == |calls| && forall i | 0 <= i < |calls| :: entries[i] == EntryOf(calls[i])
  {
    seq(|calls|, i requires 0 <= i < |calls| => EntryOf(calls[i]))
  }

  function DecodeCalls(raws: seq<RawCall>): (calls: seq<ToolCall>)
    ensures |calls| == |raws| && forall i | 0 <= i < |raws| :: calls[i] == DecodeCall(raws[i], i)
  {
    seq(|raws|, i requires 0 <= i < |raws| => DecodeCall(raws[i], i))
  }

  // ---- The wire -----------------------------------------------------------

  datatype Turn = Turn(calls: seq<ToolCall>, message: Message)

  /** The result of one turn call: what went out on the wire, if anything, and what came back. */
  datatype Sent = TooLong | Failed(request: seq<Message>) | Answered(request: seq<Message>, turn: Turn)

  /** A request is its conversation cut at the first allowed point that fits the window, by the ratio of the moment; for an
      unknown window it is the conversation itself. */
  ghost predicate Fitted(chars: RequestChars, ratio: real, window: nat, messages: seq<Message>, request: seq<Message>) {
    if window == 0 then request == messages
    else exists cut: nat :: FirstFit(chars, ratio, window, messages, cut) && request == Cut(messages, cut, window)
  }

  /** No allowed cut of the conversation fits. */
  ghost predicate Unfit(chars: RequestChars, ratio: real, window: nat, messages: seq<Message>) {
    window > 0 && forall cut: nat | Allowed(messages, cut) :: !Fits(chars, ratio, window, Cut(messages, cut, window))
  }

  /** The ratio after a request was answered: recalibrated when the window is known and the answer counts its tokens. */
  function NextRatio(chars: RequestChars, window: nat, ratio: real, request: seq<Message>, reply: Reply): real {
    if window > 0 && reply.Completion? && reply.promptTokens.Some?
    then CalibratedRatio(reply.promptTokens.value, chars(request), ratio) else ratio
  }

  class Wire {
    const window: nat
    const chars: RequestChars
    var tokensPerChar: real

    constructor (window: nat, chars: RequestChars)
      ensures this.window == window && this.chars == chars && SafeRatio(tokensPerChar)
    {
      this.window, this.chars, tokensPerChar := window, chars, DEFAULT_TOKENS_PER_CHAR;
    }

    /** One round trip. A window of 0 is an unknown one: the request is not fitted. */
    method TakeTurn(messages: seq<Message>, reply: Reply) returns (r: Sent)
      requires SafeRatio(tokensPerChar)
      modifies this
      ensures SafeRatio(tokensPerChar)
      ensures r.TooLong? <==> Unfit(chars, old(tokensPerChar), window, messages)
      ensures r.TooLong? ==> tokensPerChar == old(tokensPerChar)
      ensures !r.TooLong? ==>
                && Fitted(chars, old(tokensPerChar), window, messages, r.request)
                && tokensPerChar == NextRatio(chars, window, old(tokensPerChar), r.request, reply)
                && (r.Failed? <==> reply.ProviderError?)
      ensures r.Answered? ==>
                reply.Completion? && r.turn.calls == DecodeCalls(reply.calls)
                && r.turn.message == Assistant(Text(reply.text), Entries(r.turn.calls))
    {
      var request := messages;
      if window > 0 {
        var fitted := FitMessages(chars, messages, window, tokensPerChar);
        if fitted.None? {
          return TooLong;
        }
        request := fitted.value;
      }
      match reply
      case ProviderError =>
        r := Failed(request);
      case Completion(text, raws, promptTokens, _) =>
        if window > 0 && promptTokens.Some? {
          tokensPerChar := CalibratedRatio(promptTokens.value, chars(request), tokensPerChar);
        }
        var calls := DecodeCalls(raws);
        r := Answered(request, Turn(calls, Assistant(Text(text), Entries(calls))));
    }
  }

  /** A tool's content as the text of a tool message. */
  function ResultText(r: ToolResult): string {
    (if r.isError then "Error: " else "") + (if r.content.Text? then r.content.text else r.content.dump)
  }

  function ResultMessages(results: seq<ToolResult>): (msgs: seq<Message>)
    ensures |msgs| == |results|
    ensures forall i | 0 <= i < |results| :: msgs[i] == Tool(results[i].toolId, Text(ResultText(results[i])))
  {
    seq(|results|, i requires 0 <= i < |results| => Tool(results[i].toolId, Text(ResultText(results[i]))))
  }

  // ---- One turn's calls ---------------------------------------------------

  predicate Executable(gate: Gate, call: ToolCall) {
    call.inputError == "" && gate(call.name, call.input).allowed
  }

  /** The executions some calls lead to: the decodable, allowed ones, in order. */
  function Executions(gate: Gate, calls: seq<ToolCall>): seq<Execution> {
    if calls == [] then [] else
      var last := calls[|calls| - 1];
      Executions(gate, calls[..|calls| - 1])
      + (if Executable(gate, last) then [Execution(last.name, last.input)] else [])
  }

  lemma {:induction false} ExecutionsAppend(gate: Gate, a: seq<ToolCall>, b: seq<ToolCall>)
    ensures Executions(gate, a + b) == Executions(gate, a) + Executions(gate, b)
  {
    hide *;
    if b == [] {
      NoExecutions(gate);
      assert a + b == a;
    } else {
      var init, last := b[..|b| - 1], b[|b| - 1];
      ExecutionsAppend(gate, a, init);
      ExecutionsMore(gate, init, last);
      ExecutionsMore(gate, a + init, last);
      assert b == init + [last] && a + b == (a + init) + [last];
    }
  }

  lemma NoExecutions(gate: Gate)
    ensures Executions(gate, []) == []
  {
  }

  lemma ExecutionsMore(gate: Gate, calls: seq<ToolCall>, last: ToolCall)
    ensures Executions(gate, calls + [last])
         == Executions(gate, calls) + if Executable(gate, last) then [Execution(last.name, last.input)] else []
  {
    hide Executable;
    assert (calls + [last])[..|calls|] == calls;
  }

  /** Nothing that did not decode or was denied is ever run, and everything else asked for is. */
  lemma {:induction false} ExecutionsExact(gate: Gate, calls: seq<ToolCall>, e: Execution)
    ensures e in Executions(gate, calls)
       <==> exists i :: 0 <= i < |calls| && Executable(gate, calls[i]) && e == Execution(calls[i].name, calls[i].input)
  {
    hide Executable;
    if calls != [] {
      var n := |calls| - 1;
      var init, last := calls[..n], calls[n];
      ExecutionsExact(gate, init, e);
      assert e in Executions(gate, calls)
        <==> e in Executions(gate, init) || (Executable(gate, last) && e == Execution(last.name, last.input));
      hide Executions;
      assert forall i | 0 <= i < n :: calls[i] == init[i];
    }
  }

  /** What a call is answered with: its decoding error, its denial, or what running it gives after the ones before it. */
  function ResultOf(gate: Gate, tools: Tools, call: ToolCall, before: seq<Execution>): ToolResult {
    if call.inputError != "" then ToolResult(call.id, Text(call.inputError), true)
    else if !Executable(gate, call) then ToolResult(call.id, Text(gate(call.name, call.input).reason), true)
    else
      var output := tools(before, Execution(call.name, call.input));
      ToolResult(call.id, output.content, output.isError)
  }

  /** The results of a turn's calls, in call order. */
  function Results(gate: Gate, tools: Tools, calls: seq<ToolCall>, before: seq<Execution>): (results: seq<ToolResult>)
    ensures |results| == |calls|
    ensures forall i | 0 <= i < |calls| ::
              results[i].toolId == calls[i].id
              && results[i] == ResultOf(gate, tools, calls[i], before + Executions(gate, calls[..i]))
  {
    seq(|calls|, i requires 0 <= i < |calls| => ResultOf(gate, tools, calls[i], before + Executions(gate, calls[..i])))
  }

  /** How often a name is called, and how often calls are denied under a key: the gate's reason, or the name without one. */
  function TimesCalled(calls: seq<ToolCall>, name: string): nat {
    if calls == [] then 0 else TimesCalled(calls[..|calls| - 1], name) + (if calls[|calls| - 1].name == name then 1 else 0)
  }

  predicate DeniedAs(gate: Gate, call: ToolCall, key: string) {
    var verdict := gate(call.name, call.input);
    call.inputError == "" && !verdict.allowed && key == if verdict.reason != "" then verdict.reason else call.name
  }

  function TimesDenied(gate: Gate, calls: seq<ToolCall>, key: string): nat {
    if calls == [] then 0 else
      TimesDenied(gate, calls[..|calls| - 1], key) + (if DeniedAs(gate, calls[|calls| - 1], key) then 1 else 0)
  }

  function CountOf(counts: map<string, nat>, key: string): nat {
    if key in counts then counts[key] else 0
  }

  ghost predicate Counted(gate: Gate, calls: seq<ToolCall>, called: map<string, nat>, denied: map<string, nat>) {
    && (forall name :: CountOf(called, name) == TimesCalled(calls, name))
    && (forall key :: CountOf(denied, key) == TimesDenied(gate, calls, key))
  }

  lemma CountedStep(gate: Gate, calls: seq<ToolCall>, called: map<string, nat>, denied: map<string, nat>, call: ToolCall,
                    called': map<string, nat>, denied': map<string, nat>)
    requires Counted(gate, calls, called, denied)
    requires called' == called[call.name := CountOf(called, call.name) + 1]
    requires var verdict := gate(call.name, call.input);
             var key := if verdict.reason != "" then verdict.reason else call.name;
             denied' == if call.inputError == "" && !verdict.allowed then denied[key := CountOf(denied, key) + 1] else denied
    ensures Counted(gate, calls + [call], called', denied')
  {
    assert (calls + [call])[..|calls|] == calls;
  }

  const MCP_TOOL_PREFIX := "mcp__"

  /** Only a call that an MCP server runs waits, so only in such a call can the run's time run out. */
  predicate Waits(gate: Gate, call: ToolCall) {
    Executable(gate, call) && MCP_TOOL_PREFIX <= call.name
  }

  predicate BreaksOff(gate: Gate, calls: seq<ToolCall>, stop: Option<nat>) {
    stop.Some? && stop.value < |calls| && Waits(gate, calls[stop.value])
  }

  /** The calls of one turn; asked are the calls of the turns before it. Time runs out in the call at stop, if that waits. */
  method RunCalls(gate: Gate, tools: Tools, calls: seq<ToolCall>, stop: Option<nat>, before: seq<Execution>,
                  called: map<string, nat>, denied: map<string, nat>, ghost asked: seq<ToolCall>)
      returns (results: seq<ToolResult>, timedOut: bool, executed: seq<Execution>, called': map<string, nat>,
               denied': map<string, nat>)
    requires Counted(gate, asked, called, denied)
    ensures timedOut <==> BreaksOff(gate, calls, stop)
    ensures var begun := if timedOut then calls[..stop.value + 1] else calls;
            && results == Results(gate, tools, if timedOut then calls[..stop.value] else calls, before)
            && executed == before + Executions(gate, begun) && Counted(gate, asked + begun, called', denied')
  {
    hide Counted, ResultOf, Results, Executions, DeniedAs, CountOf, Executable;
    results, executed, called', denied' := [], before, called, denied;
    RunCallsStart(gate, tools, calls, before, asked);
    for i := 0 to |calls|
      invariant BreaksOff(gate, calls, stop) ==> i <= stop.value
      invariant results == Results(gate, tools, calls[..i], before)
      invariant executed == before + Executions(gate, calls[..i])
      invariant Counted(gate, asked + calls[..i], called', denied')
    {
      var call := calls[i];
      RunCallsStep(gate, tools, calls, before, asked, i);
      ghost var was, wasDenied := called', denied';
      called' := called'[call.name := CountOf(called', call.name) + 1];
      if call.inputError == "" && !gate(call.name, call.input).allowed {
        var reason := gate(call.name, call.input).reason;
        var key := if reason != "" then reason else call.name;
        denied' := denied'[key := CountOf(denied', key) + 1];
      }
      CountedStep(gate, asked + calls[..i], was, wasDenied, call, called', denied');
      if stop == Some(i) && Waits(gate, call) {
        return results, true, executed + [Execution(call.name, call.input)], called', denied';
      }
      var result;
      result, executed := RunCall(gate, tools, call, executed);
      results := results + [result];
    }
    assert calls[..|calls|] == calls;
    timedOut := false;
  }

  lemma RunCallsStart(gate: Gate, tools: Tools, calls: seq<ToolCall>, before: seq<Execution>, asked: seq<ToolCall>)
    ensures Results(gate, tools, calls[..0], before) == [] && before + Executions(gate, calls[..0]) == before
    ensures asked + calls[..0] == asked
  {
  }

  lemma RunCallsStep(gate: Gate, tools: Tools, calls: seq<ToolCall>, before: seq<Execution>, asked: seq<ToolCall>, i: nat)
    requires i < |calls|
    ensures Results(gate, tools, calls[..i + 1], before)
         == Results(gate, tools, calls[..i], before) + [ResultOf(gate, tools, calls[i], before + Executions(gate, calls[..i]))]
    ensures before + Executions(gate, calls[..i + 1])
         == before + Executions(gate, calls[..i])
            + if Executable(gate, calls[i]) then [Execution(calls[i].name, calls[i].input)] else []
    ensures asked + calls[..i + 1] == (asked + calls[..i]) + [calls[i]]
  {
    hide ResultOf, Executable, Executions, Results;
    ExecutionsNext(gate, calls, i);
    ResultsAppend(gate, tools, calls[..i], calls[i], before);
    assert calls[..i + 1] == calls[..i] + [calls[i]];
  }

  lemma ExecutionsNext(gate: Gate, calls: seq<ToolCall>, i: nat)
    requires i < |calls|
    ensures Executions(gate, calls[..i + 1])
         == Executions(gate, calls[..i]) + if Executable(gate, calls[i]) then [Execution(calls[i].name, calls[i].input)] else []
  {
    hide *;
    assert calls[..i + 1] == calls[..i] + [calls[i]];
    ExecutionsMore(gate, calls[..i], calls[i]);
  }

  lemma ResultsAppend(gate: Gate, tools: Tools, calls: seq<ToolCall>, call: ToolCall, before: seq<Execution>)
    ensures Results(gate, tools, calls + [call], before)
         == Results(gate, tools, calls, before) + [ResultOf(gate, tools, call, before + Executions(gate, calls))]
  {
    hide ResultOf, Executable, Executions, Results;
    var now := calls + [call];
    assert now[..|calls|] == calls;
    forall j | 0 <= j < |calls|
      ensures Results(gate, tools, now, before)[j] == Results(gate, tools, calls, before)[j]
    {
      assert now[..j] == calls[..j];
    }
  }

  /** One call: answered with the decoding error, or with the denial, or executed. */
  method RunCall(gate: Gate, tools: Tools, call: ToolCall, before: seq<Execution>)
      returns (result: ToolResult, executed: seq<Execution>)
    ensures result == ResultOf(gate, tools, call, before)
    ensures executed == before + if Executable(gate, call) then [Execution(call.name, call.input)] else []
  {
    if call.inputError != "" {
      return ToolResult(call.id, Text(call.inputError), true), before;
    }
    var verdict := gate(call.name, call.input);
    if !verdict.allowed {
      return ToolResult(call.id, Text(verdict.reason), true), before;
    }
    var output := tools(before, Execution(call.name, call.input));
    return ToolResult(call.id, output.content, output.isError), before + [Execution(call.name, call.input)];
  }

  // ---- The run ------------------------------------------------------------

  datatype Outcome = Finished | Capped | WindowExceeded | ProviderFailed | TimedOut

  /** A request is the start of the run followed by whole exchanges, whatever was elided to fit it. */
  predicate WellFormed(start: seq<Message>, request: seq<Message>) {
    |start| <= |request| && SameShapes(start, request[..|start|]) && Paired(request[|start|..])
  }

  /** Each request carries every message of the one before it, and more. */
  predicate Extends(shorter: seq<Message>, longer: seq<Message>) {
    |shorter| < |longer| && SameShapes(shorter, longer[..|shorter|])
  }

  /** Every call the provider asked for in some answers, turn by turn. */
  function Asked(replies: seq<Reply>): seq<ToolCall> {
    if replies == [] then [] else
      var last := replies[|replies| - 1];
      Asked(replies[..|replies| - 1]) + (if last.Completion? then DecodeCalls(last.calls) else [])
  }

  /** The answer's turn is cut short: the time runs out in the call at its stop. */
  predicate IsCutShort(gate: Gate, reply: Reply) {
    reply.Completion? && BreaksOff(gate, DecodeCalls(reply.calls), reply.stop)
  }

  /** The answer asks for tools, and all its calls are answered in time. */
  predicate AsksForTools(gate: Gate, reply: Reply) {
    reply.Completion? && reply.calls != [] && !IsCutShort(gate, reply)
  }

  /** The conversation after some answers that ask for tools, with nothing elided. */
  function Transcript(start: seq<Message>, replies: seq<Reply>, gate: Gate, tools: Tools): seq<Message>
    requires forall i | 0 <= i < |replies| :: AsksForTools(gate, replies[i])
  {
    if replies == [] then start else
      var init, last := replies[..|replies| - 1], replies[|replies| - 1];
      assert AsksForTools(gate, last);
      var calls := DecodeCalls(last.calls);
      Transcript(start, init, gate, tools)
      + [Assistant(Text(last.text), Entries(calls))] + ResultMessages(Results(gate, tools, calls, Executions(gate, Asked(init))))
  }

  /** The ratio request k is fitted by: the first one, recalibrated on every request sent and answered before. */
  function RatioAt(chars: RequestChars, window: nat, ratio: real, replies: seq<Reply>, sent: seq<seq<Message>>, k: nat): real
    requires k <= |sent| && |sent| <= |replies|
  {
    if k == 0 then ratio
    else NextRatio(chars, window, RatioAt(chars, window, ratio, replies, sent, k - 1), sent[k - 1], replies[k - 1])
  }

  /** Request k is the conversation after the first k answers, cut at the first point that fits by the ratio of its turn. */
  ghost predicate SentFrom(start: seq<Message>, replies: seq<Reply>, gate: Gate, tools: Tools, chars: RequestChars, window: nat,
                           ratio: real, sent: seq<seq<Message>>)
    requires |sent| <= |replies| && forall i | 0 <= i < |sent| - 1 :: AsksForTools(gate, replies[i])
  {
    forall k | 0 <= k < |sent| ::
      Fitted(chars, RatioAt(chars, window, ratio, replies, sent, k), window, Transcript(start, replies[..k], gate, tools), sent[k])
  }

  lemma {:induction false} TranscriptPaired(start: seq<Message>, replies: seq<Reply>, gate: Gate, tools: Tools)
    requires forall i | 0 <= i < |replies| :: AsksForTools(gate, replies[i])
    ensures var all := Transcript(start, replies, gate, tools);
            start <= all && Paired(all[|start|..])
  {
    if replies == [] {
      assert start[|start|..] == [];
    } else {
      hide Paired, Transcript, Asked, Executions;
      var init := replies[..|replies| - 1];
      TranscriptPaired(start, init, gate, tools);
      TurnStep(start, replies, gate, tools, |init|);
      assert replies[..|init| + 1] == replies;
      ExchangePaired(start, Transcript(start, init, gate, tools), replies[|init|], gate, tools, Executions(gate, Asked(init)));
    }
  }

  lemma ExchangePaired(start: seq<Message>, messages: seq<Message>, reply: Reply, gate: Gate, tools: Tools, before: seq<Execution>)
    requires start <= messages && Paired(messages[|start|..]) && AsksForTools(gate, reply)
    ensures var calls := DecodeCalls(reply.calls);
            var all := messages + [Assistant(Text(reply.text), Entries(calls))] + ResultMessages(Results(gate, tools, calls, before));
            start <= all && Paired(all[|start|..])
  {
    hide Paired, Answers;
    var calls := DecodeCalls(reply.calls);
    var turn, results := Assistant(Text(reply.text), Entries(calls)), ResultMessages(Results(gate, tools, calls, before));
    ResultsAnswer(gate, tools, calls, before);
    PairedAppend(messages[|start|..], turn, results);
    assert (messages + [turn] + results)[|start|..] == messages[|start|..] + [turn] + results;
  }

  lemma ResultsAnswer(gate: Gate, tools: Tools, calls: seq<ToolCall>, before: seq<Execution>)
    ensures var results := ResultMessages(Results(gate, tools, calls, before));
            |results| == |calls| && Answers(Entries(calls), results)
  {
  }

  lemma {:induction false} TranscriptGrows(start: seq<Message>, replies: seq<Reply>, gate: Gate, tools: Tools, i: nat)
    requires i < |replies| && forall i | 0 <= i < |replies| :: AsksForTools(gate, replies[i])
    ensures Transcript(start, replies[..i], gate, tools) < Transcript(start, replies, gate, tools)
  {
    hide Transcript, Asked, Executions;
    var n := |replies| - 1;
    TurnStep(start, replies, gate, tools, n);
    assert replies[..n + 1] == replies;
    if i < n {
      TranscriptGrows(start, replies[..n], gate, tools, i);
      assert replies[..n][..i] == replies[..i];
    }
  }

  lemma FittedShapes(start: seq<Message>, messages: seq<Message>, request: seq<Message>, chars: RequestChars, window: nat, ratio: real)
    requires start <= messages && Paired(messages[|start|..]) && Fitted(chars, ratio, window, messages, request)
    ensures WellFormed(start, request) && SameShapes(messages, request)
  {
    if window > 0 {
      var cut: nat :| FirstFit(chars, ratio, window, messages, cut) && request == Cut(messages, cut, window);
      CutShapes(messages, cut, window);
    }
    ShapesDrop(messages, request, |start|);
    PairedShape(messages[|start|..], request[|start|..]);
  }

  lemma PrefixExtends(shorter: seq<Message>, longer: seq<Message>, a: seq<Message>, b: seq<Message>)
    requires shorter < longer && SameShapes(shorter, a) && SameShapes(longer, b)
    ensures Extends(a, b)
  {
    forall i | 0 <= i < |a|
      ensures SameShape(a[i], b[..|a|][i])
    {
      assert SameShape(shorter[i], a[i]) && SameShape(longer[i], b[i]) && shorter[i] == longer[i];
    }
  }

  /** Whatever was elided to fit them, all the requests of a run are well formed, and each carries everything the ones
      before it carried. */
  lemma SentSound(start: seq<Message>, replies: seq<Reply>, gate: Gate, tools: Tools, chars: RequestChars, window: nat, ratio: real,
                  sent: seq<seq<Message>>)
    requires |sent| <= |replies| && forall i | 0 <= i < |sent| - 1 :: AsksForTools(gate, replies[i])
    requires SentFrom(start, replies, gate, tools, chars, window, ratio, sent)
    ensures forall i | 0 <= i < |sent| :: WellFormed(start, sent[i])
    ensures forall i, j | 0 <= i < j < |sent| :: Extends(sent[i], sent[j])
  {
    hide Paired, WellFormed, Extends, Transcript, Fitted, SameShapes, RatioAt;
    forall i | 0 <= i < |sent|
      ensures WellFormed(start, sent[i]) && SameShapes(Transcript(start, replies[..i], gate, tools), sent[i])
    {
      TranscriptPaired(start, replies[..i], gate, tools);
      FittedShapes(start, Transcript(start, replies[..i], gate, tools), sent[i], chars, window,
                   RatioAt(chars, window, ratio, replies, sent, i));
    }
    forall i, j | 0 <= i < j < |sent|
      ensures Extends(sent[i], sent[j])
    {
      TranscriptGrows(start, replies[..j], gate, tools, i);
      assert replies[..j][..i] == replies[..i];
      PrefixExtends(Transcript(start, replies[..i], gate, tools), Transcript(start, replies[..j], gate, tools), sent[i], sent[j]);
    }
  }

  lemma {:induction false} RatioStaysSafe(chars: RequestChars, window: nat, ratio: real, replies: seq<Reply>,
                                          sent: seq<seq<Message>>, k: nat)
    requires k <= |sent| && |sent| <= |replies| && SafeRatio(ratio)
    ensures SafeRatio(RatioAt(chars, window, ratio, replies, sent, k))
  {
    if k > 0 {
      RatioStaysSafe(chars, window, ratio, replies, sent, k - 1);
    }
  }

  /** Every request of a run with a known window fits it by the ratio of its turn, with room for the answer; and as that
      ratio stays safe, is no longer than the window allows at half the default one. */
  lemma SentFits(start: seq<Message>, replies: seq<Reply>, gate: Gate, tools: Tools, chars: RequestChars, window: nat, ratio: real,
                 sent: seq<seq<Message>>, k: nat)
    requires |sent| <= |replies| && forall i | 0 <= i < |sent| - 1 :: AsksForTools(gate, replies[i])
    requires SentFrom(start, replies, gate, tools, chars, window, ratio, sent)
    requires SafeRatio(ratio) && window > 0 && k < |sent|
    ensures Estimate(chars, RatioAt(chars, window, ratio, replies, sent, k), sent[k]) + AnswerReserve(window) <= window
    ensures chars(sent[k]) as real * (DEFAULT_TOKENS_PER_CHAR / 2.0) < (window - AnswerReserve(window) + 1) as real
  {
    hide Transcript, RatioAt;
    RatioStaysSafe(chars, window, ratio, replies, sent, k);
    assert Fitted(chars, RatioAt(chars, window, ratio, replies, sent, k), window, Transcript(start, replies[..k], gate, tools), sent[k]);
    FitBoundsChars(chars, RatioAt(chars, window, ratio, replies, sent, k), window, sent[k]);
  }

  lemma {:induction false} RatioPrefix(chars: RequestChars, window: nat, ratio: real, replies: seq<Reply>, sent: seq<seq<Message>>,
                                       request: seq<Message>, k: nat)
    requires k <= |sent| && |sent| < |replies|
    ensures RatioAt(chars, window, ratio, replies, sent + [request], k) == RatioAt(chars, window, ratio, replies, sent, k)
  {
    if k > 0 {
      RatioPrefix(chars, window, ratio, replies, sent, request, k - 1);
    }
  }

  lemma SentMore(start: seq<Message>, replies: seq<Reply>, gate: Gate, tools: Tools, chars: RequestChars, window: nat, ratio: real,
                 sent: seq<seq<Message>>, request: seq<Message>)
    requires |sent| < |replies| && forall i | 0 <= i < |sent| :: AsksForTools(gate, replies[i])
    requires SentFrom(start, replies, gate, tools, chars, window, ratio, sent)
    requires Fitted(chars, RatioAt(chars, window, ratio, replies, sent, |sent|), window,
                    Transcript(start, replies[..|sent|], gate, tools), request)
    ensures SentFrom(start, replies, gate, tools, chars, window, ratio, sent + [request])
    ensures RatioAt(chars, window, ratio, replies, sent + [request], |sent| + 1)
         == NextRatio(chars, window, RatioAt(chars, window, ratio, replies, sent, |sent|), request, replies[|sent|])
  {
    hide Transcript, Fitted, NextRatio;
    forall k | 0 <= k <= |sent|
      ensures RatioAt(chars, window, ratio, replies, sent + [request], k) == RatioAt(chars, window, ratio, replies, sent, k)
    {
      RatioPrefix(chars, window, ratio, replies, sent, request, k);
    }
    hide RatioAt;
  }

  /** How a run ends, whatever it was asked: with every turn used; without an answer, or in a call that waits; with a
      conversation no cut of which fits; with the provider's error; or with an answer that asks for no tool. */
  ghost predicate EndsAs(outcome: Outcome, turns: nat, maxTurns: nat, replies: seq<Reply>, gate: Gate, unfit: bool) {
    match outcome
    case Capped => turns == maxTurns
    case TimedOut => turns < maxTurns && (turns == |replies| || (turns < |replies| && !unfit && IsCutShort(gate, replies[turns])))
    case WindowExceeded => turns < maxTurns && turns < |replies| && unfit
    case ProviderFailed => turns < maxTurns && turns < |replies| && !unfit && replies[turns].ProviderError?
    case Finished => turns < maxTurns && turns < |replies| && !unfit && replies[turns].Completion? && replies[turns].calls == []
  }

  /** The calls begun in a run: those of its whole turns, and of a turn that was cut short those up to the one that waits. */
  function Begun(outcome: Outcome, turns: nat, replies: seq<Reply>): seq<ToolCall>
    requires turns <= |replies|
  {
    Asked(replies[..turns])
    + if outcome.TimedOut? && turns < |replies| && replies[turns].Completion? && replies[turns].stop.Some?
         && replies[turns].stop.value < |replies[turns].calls|
      then DecodeCalls(replies[turns].calls)[..replies[turns].stop.value + 1] else []
  }

  datatype TurnEnd = NotSent | ErrorAnswer | NoCalls | CutShort | GoesOn

  /** The calls one answered turn begins. */
  function BegunIn(end: TurnEnd, reply: Reply): seq<ToolCall> {
    if reply.ProviderError? then []
    else if end.GoesOn? then DecodeCalls(reply.calls)
    else if end.CutShort? && reply.stop.Some? && reply.stop.value < |reply.calls| then DecodeCalls(reply.calls)[..reply.stop.value + 1]
    else []
  }

  /** One turn: the request, and the calls of its answer. */
  method RunTurn(wire: Wire, messages: seq<Message>, reply: Reply, gate: Gate, tools: Tools, before: seq<Execution>,
                 called: map<string, nat>, denied: map<string, nat>, ghost asked: seq<ToolCall>)
      returns (end: TurnEnd, request: seq<Message>, messages': seq<Message>, executed: seq<Execution>, called': map<string, nat>,
               denied': map<string, nat>)
    requires SafeRatio(wire.tokensPerChar) && Counted(gate, asked, called, denied)
    modifies wire
    ensures SafeRatio(wire.tokensPerChar)
    ensures end.NotSent? <==> Unfit(wire.chars, old(wire.tokensPerChar), wire.window, messages)
    ensures end.NotSent? ==> wire.tokensPerChar == old(wire.tokensPerChar)
    ensures !end.NotSent? ==>
              && Fitted(wire.chars, old(wire.tokensPerChar), wire.window, messages, request)
              && wire.tokensPerChar == NextRatio(wire.chars, wire.window, old(wire.tokensPerChar), request, reply)
              && (end.ErrorAnswer? <==> reply.ProviderError?)
              && (end.NoCalls? <==> reply.Completion? && reply.calls == [])
              && (end.CutShort? <==> IsCutShort(gate, reply))
    ensures executed == before + Executions(gate, BegunIn(end, reply)) && Counted(gate, asked + BegunIn(end, reply), called', denied')
    ensures end.GoesOn? ==>
              var calls := DecodeCalls(reply.calls);
              messages' == messages + [Assistant(Text(reply.text), Entries(calls))] + ResultMessages(Results(gate, tools, calls, before))
  {
    hide Counted, Executions, Fitted, Unfit, Results, ResultMessages, NextRatio, SafeRatio, BreaksOff;
    request, messages', executed, called', denied' := [], messages, before, called, denied;
    NothingBegun(gate, before, asked);
    var taken := wire.TakeTurn(messages, reply);
    if taken.TooLong? {
      return NotSent, request, messages', executed, called', denied';
    }
    request := taken.request;
    if taken.Failed? {
      return ErrorAnswer, request, messages', executed, called', denied';
    }
    var turn := taken.turn;
    BreaksIn(gate, turn.calls, reply.stop);
    if turn.calls == [] {
      return NoCalls, request, messages', executed, called', denied';
    }
    var results, timedOut;
    results, timedOut, executed, called', denied' := RunCalls(gate, tools, turn.calls, reply.stop, before, called, denied, asked);
    messages' := messages + [turn.message] + ResultMessages(results);
    end := if timedOut then CutShort else GoesOn;
  }

  lemma NothingBegun(gate: Gate, before: seq<Execution>, asked: seq<ToolCall>)
    ensures before + Executions(gate, []) == before && asked + [] == asked
  {
  }

  lemma BreaksIn(gate: Gate, calls: seq<ToolCall>, stop: Option<nat>)
    ensures BreaksOff(gate, calls, stop) ==> stop.Some? && stop.value < |calls|
  {
  }

  /** The loop: replies are the provider's answers in order, and running out of them is running out of time. */
  method RunToolLoop(wire: Wire, start: seq<Message>, maxTurns: nat, replies: seq<Reply>, gate: Gate, tools: Tools)
      returns (outcome: Outcome, sent: seq<seq<Message>>, executed: seq<Execution>, called: map<string, nat>,
               denied: map<string, nat>, turns: nat)
    requires SafeRatio(wire.tokensPerChar)
    modifies wire
    ensures turns <= maxTurns && turns <= |replies| && forall i | 0 <= i < turns :: AsksForTools(gate, replies[i])
    ensures |sent| == turns + (if outcome.Finished? || outcome.ProviderFailed? || (outcome.TimedOut? && turns < |replies|) then 1 else 0)
    ensures |sent| <= |replies| && SentFrom(start, replies, gate, tools, wire.chars, wire.window, old(wire.tokensPerChar), sent)
    ensures var ratio := RatioAt(wire.chars, wire.window, old(wire.tokensPerChar), replies, sent, turns);
            var unfit := Unfit(wire.chars, ratio, wire.window, Transcript(start, replies[..turns], gate, tools));
            EndsAs(outcome, turns, maxTurns, replies, gate, unfit)
    ensures executed == Executions(gate, Begun(outcome, turns, replies))
    ensures Counted(gate, Begun(outcome, turns, replies), called, denied)
    ensures wire.tokensPerChar == RatioAt(wire.chars, wire.window, old(wire.tokensPerChar), replies, sent, |sent|)
    ensures SafeRatio(wire.tokensPerChar)
  {
    hide Counted, Transcript, Executions, Asked, Fitted, Unfit, Results, ResultMessages, SentFrom, NextRatio, SafeRatio, Begun, BegunIn,
      BreaksOff;
    var messages := start;
    ghost var ratio := wire.tokensPerChar;
    sent, executed, called, denied, turns := [], [], map[], map[], 0;
    RunStart(start, replies, gate, tools, wire.chars, wire.window, ratio);
    while turns < maxTurns
      invariant SafeRatio(wire.tokensPerChar)
      invariant |sent| == turns <= maxTurns && turns <= |replies|
      invariant forall i | 0 <= i < turns :: AsksForTools(gate, replies[i])
      invariant messages == Transcript(start, replies[..turns], gate, tools)
      invariant SentFrom(start, replies, gate, tools, wire.chars, wire.window, ratio, sent)
      invariant wire.tokensPerChar == RatioAt(wire.chars, wire.window, ratio, replies, sent, turns)
      invariant executed == Executions(gate, Asked(replies[..turns]))
      invariant Counted(gate, Asked(replies[..turns]), called, denied)
    {
      WholeTurns(gate, replies, turns);
      if turns == |replies| {
        outcome := TimedOut;
        return;
      }
      var end, request;
      end, request, messages, executed, called, denied :=
        RunTurn(wire, messages, replies[turns], gate, tools, executed, called, denied, Asked(replies[..turns]));
      TurnBegun(gate, replies, turns, end);
      if end.NotSent? {
        outcome := WindowExceeded;
        return;
      }
      SentMore(start, replies, gate, tools, wire.chars, wire.window, ratio, sent, request);
      RatioPrefix(wire.chars, wire.window, ratio, replies, sent, request, turns);
      sent := sent + [request];
      if !end.GoesOn? {
        outcome := if end.ErrorAnswer? then ProviderFailed else if end.NoCalls? then Finished else TimedOut;
        return;
      }
      TurnStep(start, replies, gate, tools, turns);
      turns := turns + 1;
    }
    WholeTurns(gate, replies, turns);
    outcome := Capped;
  }

  /** What a turn begins is what the run has begun, should it end there. */
  lemma TurnBegun(gate: Gate, replies: seq<Reply>, turns: nat, end: TurnEnd)
    requires turns < |replies|
    ensures forall outcome: Outcome | !end.GoesOn? && (outcome.TimedOut? <==> end.CutShort?) ::
              Begun(outcome, turns, replies) == Asked(replies[..turns]) + BegunIn(end, replies[turns])
    ensures Executions(gate, Asked(replies[..turns]) + BegunIn(end, replies[turns]))
         == Executions(gate, Asked(replies[..turns])) + Executions(gate, BegunIn(end, replies[turns]))
    ensures end.GoesOn? && replies[turns].Completion? ==> BegunIn(end, replies[turns]) == DecodeCalls(replies[turns].calls)
  {
    hide Asked, Executions;
    ExecutionsAppend(gate, Asked(replies[..turns]), BegunIn(end, replies[turns]));
  }

  lemma WholeTurns(gate: Gate, replies: seq<Reply>, turns: nat)
    requires turns <= |replies|
    ensures forall outcome: Outcome | !outcome.TimedOut? || turns == |replies| :: Begun(outcome, turns, replies) == Asked(replies[..turns])
  {
    hide Asked;
  }

  lemma RunStart(start: seq<Message>, replies: seq<Reply>, gate: Gate, tools: Tools, chars: RequestChars, window: nat, ratio: real)
    ensures Transcript(start, replies[..0], gate, tools) == start
    ensures Executions(gate, Asked(replies[..0])) == [] && Counted(gate, Asked(replies[..0]), map[], map[])
    ensures SentFrom(start, replies, gate, tools, chars, window, ratio, [])
  {
  }

  lemma TurnStep(start: seq<Message>, replies: seq<Reply>, gate: Gate, tools: Tools, turns: nat)
    requires turns < |replies| && AsksForTools(gate, replies[turns]) && forall i | 0 <= i < turns :: AsksForTools(gate, replies[i])
    ensures var init, calls := replies[..turns], DecodeCalls(replies[turns].calls);
            && Asked(replies[..turns + 1]) == Asked(init) + calls
            && Executions(gate, Asked(replies[..turns + 1])) == Executions(gate, Asked(init)) + Executions(gate, calls)
            && Transcript(start, replies[..turns + 1], gate, tools)
               == Transcript(start, init, gate, tools) + [Assistant(Text(replies[turns].text), Entries(calls))]
                  + ResultMessages(Results(gate, tools, calls, Executions(gate, Asked(init))))
  {
    hide Executions, Results, ResultMessages;
    assert replies[..turns + 1][..turns] == replies[..turns];
    ExecutionsAppend(gate, Asked(replies[..turns]), DecodeCalls(replies[turns].calls));
  }
}
