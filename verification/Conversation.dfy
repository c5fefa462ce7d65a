/** The messages of a chat-completions conversation, and joining a replayed transcript's turns. */
module Conversation {
  /** A message's content: plain text, or anything else with the JSON it dumps to. */
  datatype Content = Text(text: string) | Blocks(dump: string)

  datatype ToolEntry = ToolEntry(id: string, name: string)

  datatype Message =
    | User(content: Content)
    | Assistant(content: Content, calls: seq<ToolEntry>)
    | Tool(callId: string, content: Content)

  predicate SameRole(a: Message, b: Message) {
    (a.User? && b.User?) || (a.Assistant? && b.Assistant?) || (a.Tool? && b.Tool?)
  }

  /** Same role, same calls, same call answered: only the content may differ. */
  predicate SameShape(a: Message, b: Message) {
    match (a, b)
    case (User(_), User(_)) => true
    case (Assistant(_, calls), Assistant(_, calls')) => calls == calls'
    case (Tool(id, _), Tool(id', _)) => id == id'
    case _ => false
  }

  predicate SameShapes(a: seq<Message>, b: seq<Message>) {
    |a| == |b| && forall i | 0 <= i < |a| :: SameShape(a[i], b[i])
  }

  // ---- Pairing ------------------------------------------------------------

  /** The n messages from the start of msgs answer calls 0..n, in order, each with its id. */
  predicate Answers(calls: seq<ToolEntry>, msgs: seq<Message>) {
    |calls| <= |msgs| && forall i | 0 <= i < |calls| :: msgs[i].Tool? && msgs[i].callId == calls[i].id
  }

  /** The conversation is nothing but tool-calling assistant turns, each followed by exactly its own results. */
  predicate Paired(msgs: seq<Message>)
    decreases |msgs|
  {
    msgs == [] ||
    (msgs[0].Assistant? && msgs[0].calls != [] && Answers(msgs[0].calls, msgs[1..]) && Paired(msgs[1 + |msgs[0].calls|..]))
  }

  lemma {:induction false} PairedAppend(msgs: seq<Message>, turn: Message, results: seq<Message>)
    requires Paired(msgs) && turn.Assistant? && turn.calls != [] && Answers(turn.calls, results) && |results| == |turn.calls|
    ensures Paired(msgs + [turn] + results)
    decreases |msgs|
  {
    hide Answers;
    if msgs == [] {
      LoneExchange(turn, results);
      assert msgs + [turn] + results == [turn] + results;
    } else {
      var first := msgs[0];
      var n := 1 + |first.calls|;
      AnswersGrow(first.calls, msgs[1..], [turn] + results);
      PairedAppend(msgs[n..], turn, results);
      assert msgs[n..] + [turn] + results == msgs[n..] + ([turn] + results);
      assert msgs + [turn] + results == msgs + ([turn] + results);
      ExchangeFirst(first, msgs, msgs + [turn] + results, [turn] + results);
    }
  }

  lemma AnswersGrow(calls: seq<ToolEntry>, msgs: seq<Message>, more: seq<Message>)
    requires Answers(calls, msgs)
    ensures |calls| <= |msgs| && Answers(calls, msgs + more)
  {
  }

  lemma LoneExchange(turn: Message, results: seq<Message>)
    requires turn.Assistant? && turn.calls != [] && Answers(turn.calls, results) && |results| == |turn.calls|
    ensures Paired([turn] + results)
  {
    hide Answers;
    var all := [turn] + results;
    assert all[1..] == results && all[1 + |turn.calls|..] == [];
  }

  lemma ExchangeFirst(first: Message, msgs: seq<Message>, all: seq<Message>, more: seq<Message>)
    requires msgs != [] && first == msgs[0] && first.Assistant? && first.calls != [] && |first.calls| < |msgs| && all == msgs + more
    requires Answers(first.calls, msgs[1..] + more) && Paired(msgs[1 + |first.calls|..] + more)
    ensures Paired(all)
  {
    hide Answers;
    assert all[1..] == msgs[1..] + more && all[1 + |first.calls|..] == msgs[1 + |first.calls|..] + more;
  }

  lemma ShapesDrop(a: seq<Message>, b: seq<Message>, n: nat)
    requires SameShapes(a, b) && n <= |a|
    ensures SameShapes(a[n..], b[n..])
  {
  }

  lemma {:induction false} PairedShape(a: seq<Message>, b: seq<Message>)
    requires SameShapes(a, b) && Paired(a)
    ensures Paired(b)
    decreases |a|
  {
    if a != [] {
      hide Answers;
      FirstExchange(a, b);
      var n := 1 + |a[0].calls|;
      ShapesDrop(a, b, n);
      PairedShape(a[n..], b[n..]);
    }
  }

  lemma FirstExchange(a: seq<Message>, b: seq<Message>)
    requires SameShapes(a, b) && a != [] && a[0].Assistant? && Answers(a[0].calls, a[1..])
    ensures b != [] && b[0].Assistant? && b[0].calls == a[0].calls && Answers(b[0].calls, b[1..]) && 1 + |a[0].calls| <= |a|
  {
    assert SameShape(a[0], b[0]);
    forall i | 0 <= i < |a[0].calls|
      ensures b[1..][i].Tool? && b[1..][i].callId == a[0].calls[i].id
    {
      assert SameShape(a[1 + i], b[1 + i]) && a[1..][i].Tool?;
    }
  }

  // ---- Joining consecutive turns ------------------------------------------

  predicate Joinable(a: Message, b: Message) {
    SameRole(a, b) && a.content.Text? && b.content.Text?
  }

  function Joined(a: Message, b: Message): Message
    requires Joinable(a, b)
  {
    a.(content := Text(a.content.text + "\n\n" + b.content.text))
  }

  function Extended(before: seq<Message>, last: Message): seq<Message> {
    if before != [] && Joinable(before[|before| - 1], last)
    then before[..|before| - 1] + [Joined(before[|before| - 1], last)]
    else before + [last]
  }

  function Merged(messages: seq<Message>): (out: seq<Message>)
    ensures messages == [] <==> out == []
  {
    if messages == [] then [] else Extended(Merged(messages[..|messages| - 1]), messages[|messages| - 1])
  }

  method MergeConsecutiveRoles(messages: seq<Message>) returns (merged: seq<Message>)
    ensures merged == Merged(messages)
  {
    hide Merged, Extended, Joinable, Joined;
    merged := [];
    MergedNone(messages);
    for i := 0 to |messages|
      invariant merged == Merged(messages[..i])
    {
      MergedNext(messages, i);
      ExtendedInPlace(merged, messages[i]);
      if merged != [] && Joinable(merged[|merged| - 1], messages[i]) {
        merged := merged[|merged| - 1 := Joined(merged[|merged| - 1], messages[i])];
      } else {
        merged := merged + [messages[i]];
      }
    }
    assert messages[..|messages|] == messages;
  }

  lemma MergedNone(messages: seq<Message>)
    ensures Merged(messages[..0]) == []
  {
  }

  lemma ExtendedInPlace(before: seq<Message>, last: Message)
    ensures Extended(before, last)
         == if before != [] && Joinable(before[|before| - 1], last)
            then before[|before| - 1 := Joined(before[|before| - 1], last)] else before + [last]
  {
  }

  lemma MergedNext(messages: seq<Message>, i: nat)
    requires i < |messages|
    ensures Merged(messages[..i + 1]) == Extended(Merged(messages[..i]), messages[i])
  {
    hide Extended;
    assert messages[..i + 1][..i] == messages[..i];
  }

  /** No two neighbours could still be joined. */
  predicate Alternates(messages: seq<Message>) {
    forall i | 0 <= i < |messages| - 1 :: !Joinable(messages[i], messages[i + 1])
  }

  lemma {:induction false} MergedAlternates(messages: seq<Message>)
    ensures Alternates(Merged(messages))
  {
    if messages != [] {
      var init, last := messages[..|messages| - 1], messages[|messages| - 1];
      MergedAlternates(init);
      var before, out := Merged(init), Merged(messages);
      forall i | 0 <= i < |out| - 1
        ensures !Joinable(out[i], out[i + 1])
      {
        if i + 1 < |before| {
          assert !Joinable(before[i], before[i + 1]);
        }
      }
    }
  }

  /** A conversation that alternates is left as it is; so merging twice is merging once. */
  lemma {:induction false} MergedFixed(messages: seq<Message>)
    requires Alternates(messages)
    ensures Merged(messages) == messages
  {
    if messages != [] {
      var init := messages[..|messages| - 1];
      assert messages == init + [messages[|messages| - 1]];
      forall i | 0 <= i < |init| - 1
        ensures !Joinable(init[i], init[i + 1])
      {
        assert !Joinable(messages[i], messages[i + 1]);
      }
      MergedFixed(init);
      if init != [] {
        var i := |init| - 1;
        assert !Joinable(messages[i], messages[i + 1]);
      }
    }
  }

  predicate AllText(messages: seq<Message>) {
    forall m | m in messages :: m.content.Text?
  }

  /** The text of text-only messages, one after the other with a blank line between. */
  function Script(messages: seq<Message>): string
    requires AllText(messages)
  {
    if messages == [] then ""
    else if |messages| == 1 then messages[0].content.text
    else Script(messages[..|messages| - 1]) + "\n\n" + messages[|messages| - 1].content.text
  }

  /** One message as it is, or text messages of one role in one: the first of them, with the text of all. */
  predicate IsRun(run: seq<Message>, m: Message) {
    run == [m]
    || (|run| > 1 && AllText(run) && (forall i | 0 <= i < |run| :: SameRole(run[0], run[i]))
        && m == run[0].(content := Text(Script(run))))
  }

  function Flat(runs: seq<seq<Message>>): seq<Message> {
    if runs == [] then [] else Flat(runs[..|runs| - 1]) + runs[|runs| - 1]
  }

  /** Each message of out is one of the runs; no two neighbours of different runs could be joined. */
  predicate RunByRun(runs: seq<seq<Message>>, out: seq<Message>) {
    && |runs| == |out|
    && (forall k | 0 <= k < |out| :: runs[k] != [] && IsRun(runs[k], out[k]))
    && (forall k | 0 < k < |out| :: !Joinable(Last(runs[k - 1]), runs[k][0]))
  }

  function Last<T>(s: seq<T>): T
    requires s != []
  {
    s[|s| - 1]
  }

  function ExtendedRuns(before: seq<seq<Message>>, last: Message): seq<seq<Message>> {
    if before != [] && Last(before) != [] && Joinable(Last(Last(before)), last)
    then before[..|before| - 1] + [Last(before) + [last]]
    else before + [[last]]
  }

  /** The messages in consecutive runs of those that can be joined. */
  function Runs(messages: seq<Message>): (runs: seq<seq<Message>>)
    ensures Flat(runs) == messages
  {
    if messages == [] then [] else
      assert messages == messages[..|messages| - 1] + [Last(messages)];
      FlatStep(Runs(messages[..|messages| - 1]), Last(messages));
      ExtendedRuns(Runs(messages[..|messages| - 1]), Last(messages))
  }

  lemma FlatStep(before: seq<seq<Message>>, last: Message)
    ensures Flat(ExtendedRuns(before, last)) == Flat(before) + [last]
  {
    var runs := ExtendedRuns(before, last);
    if |runs| == |before| {
      assert runs[..|runs| - 1] == before[..|before| - 1];
    } else {
      assert runs[..|runs| - 1] == before;
    }
  }

  lemma RunGrows(run: seq<Message>, m: Message, last: Message)
    requires run != [] && IsRun(run, m)
    ensures Joinable(m, last) <==> Joinable(Last(run), last)
    ensures Joinable(m, last) ==> IsRun(run + [last], Joined(m, last))
  {
    assert (run + [last])[..|run|] == run;
    assert SameRole(run[0], run[|run| - 1]);
  }

  lemma RunJoins(runs: seq<seq<Message>>, out: seq<Message>, run: seq<Message>, m: Message)
    requires RunByRun(runs, out) && runs != [] && run != [] && run[0] == Last(runs)[0] && IsRun(run, m)
    ensures RunByRun(runs[..|runs| - 1] + [run], out[..|out| - 1] + [m])
  {
    hide IsRun, Joinable;
  }

  lemma RunBegins(runs: seq<seq<Message>>, out: seq<Message>, last: Message)
    requires RunByRun(runs, out) && (runs != [] ==> !Joinable(Last(Last(runs)), last))
    ensures RunByRun(runs + [[last]], out + [last])
  {
    LoneRun(last);
    hide IsRun, Joinable;
  }

  lemma RunsStep(runs: seq<seq<Message>>, before: seq<Message>, last: Message)
    requires RunByRun(runs, before)
    ensures RunByRun(ExtendedRuns(runs, last), Extended(before, last))
    ensures before != [] ==> (Joinable(Last(before), last) <==> Joinable(Last(Last(runs)), last))
  {
    if before != [] {
      RunGrows(Last(runs), Last(before), last);
    }
    if before != [] && Joinable(Last(before), last) {
      RunJoins(runs, before, Last(runs) + [last], Joined(Last(before), last));
    } else {
      RunBegins(runs, before, last);
    }
    hide IsRun, Joinable, Joined, RunByRun;
  }

  /** Joining keeps every message's text and place: each message left is the run of one role it stands for. */
  lemma {:induction false} MergedRunByRun(messages: seq<Message>)
    ensures RunByRun(Runs(messages), Merged(messages))
  {
    hide Extended, ExtendedRuns, IsRun;
    if messages != [] {
      MergedRunByRun(messages[..|messages| - 1]);
      RunsStep(Runs(messages[..|messages| - 1]), Merged(messages[..|messages| - 1]), Last(messages));
    }
  }

  lemma LoneRun(m: Message)
    ensures IsRun([m], m)
  {
  }

  // ---- What joining loses -------------------------------------------------

  /** The ids of the calls a message makes or answers, in order. */
  function Carried(messages: seq<Message>): seq<string> {
    if messages == [] then [] else Carried(messages[..|messages| - 1]) + Ids(messages[|messages| - 1])
  }

  function Ids(m: Message): seq<string> {
    match m
    case User(_) => []
    case Assistant(_, calls) => seq(|calls|, i requires 0 <= i < |calls| => calls[i].id)
    case Tool(id, _) => [id]
  }

  lemma CarriedAppend(messages: seq<Message>, last: Message)
    ensures Carried(messages + [last]) == Carried(messages) + Ids(last)
  {
    assert (messages + [last])[..|messages|] == messages && Last(messages + [last]) == last;
  }

  lemma CarriedJoined(before: seq<Message>, last: Message)
    requires before != [] && Joinable(before[|before| - 1], last)
    ensures Carried(before[..|before| - 1] + [Joined(before[|before| - 1], last)]) == Carried(before)
  {
    var init, m := before[..|before| - 1], before[|before| - 1];
    assert before == init + [m];
    CarriedAppend(init, m);
    CarriedAppend(init, Joined(m, last));
  }

  /** No message that joins the one before it makes or answers a call. */
  predicate JoinsNoCalls(messages: seq<Message>) {
    forall i | 0 < i < |messages| && Joinable(messages[i - 1], messages[i]) :: Ids(messages[i]) == []
  }

  lemma JoinsNoCallsStep(init: seq<Message>, last: Message)
    ensures JoinsNoCalls(init + [last])
       <==> JoinsNoCalls(init) && (init != [] && Joinable(Last(init), last) ==> Ids(last) == [])
  {
    hide Ids, Joinable;
    var messages := init + [last];
    assert forall i | 0 <= i < |init| :: messages[i] == init[i];
    if JoinsNoCalls(messages) {
      assert forall i | 0 < i < |init| && Joinable(init[i - 1], init[i]) :: Joinable(messages[i - 1], messages[i]);
      assert init != [] && Joinable(Last(init), last) ==> Joinable(messages[|init| - 1], messages[|init|]);
    }
  }

  /** The last message left can be joined to whatever the last message could. */
  lemma LastJoins(init: seq<Message>, last: Message)
    requires init != []
    ensures Joinable(Last(Merged(init)), last) <==> Joinable(Last(init), last)
  {
    MergedRunByRun(init);
    var runs := Runs(init);
    RunsStep(runs, Merged(init), last);
    assert Flat(runs) == init;
    hide *;
    LastOfFlat(runs);
  }

  lemma LastOfFlat(runs: seq<seq<Message>>)
    requires runs != [] && Last(runs) != []
    ensures Flat(runs) != [] && Last(Flat(runs)) == Last(Last(runs))
  {
  }

  lemma CarriedStep(before: seq<Message>, last: Message)
    ensures Carried(Extended(before, last))
         == if before != [] && Joinable(Last(before), last) then Carried(before) else Carried(before) + Ids(last)
  {
    hide Carried, Ids, Joined;
    CarriedAppend(before, last);
    if before != [] && Joinable(Last(before), last) {
      CarriedJoined(before, last);
    }
  }

  /** No call and no answer is lost exactly when no message that is joined to another carries one. */
  lemma {:induction false} MergedKeepsCalls(messages: seq<Message>)
    ensures |Carried(Merged(messages))| <= |Carried(messages)|
    ensures Carried(Merged(messages)) == Carried(messages) <==> JoinsNoCalls(messages)
  {
    hide Carried, Ids, JoinsNoCalls, Joinable, Extended;
    if messages == [] {
      assert Merged(messages) == messages && JoinsNoCalls([]) by { NothingJoined(); }
    } else {
      var init, last := messages[..|messages| - 1], Last(messages);
      assert messages == init + [last];
      MergedKeepsCalls(init);
      JoinsNoCallsStep(init, last);
      CarriedAppend(init, last);
      CarriedStep(Merged(init), last);
      if init != [] {
        LastJoins(init, last);
      }
      Cancel(Carried(Merged(init)), Carried(init), Ids(last));
    }
  }

  lemma Cancel(a: seq<string>, b: seq<string>, c: seq<string>)
    ensures a + c == b + c ==> a == b
  {
    if a + c == b + c {
      assert (a + c)[..|a|] == a && (b + c)[..|b|] == b;
    }
  }

  lemma NothingJoined()
    ensures JoinsNoCalls([])
  {
  }
}
