/** Subagent bookkeeping over an agent's message stream: where each subagent's start and end events fall. */
module SubagentStream {
  import opened Prelude

  type ToolId = string

  /** A content block of an assistant message. Only a Task call's id matters to the bookkeeping. */
  datatype Block = TaskCall(id: ToolId) | Plain | Silent

  /** A block of a user message; asks counts the ask_user events found in its text. */
  datatype ResultBlock = NotAResult | Result(id: ToolId, asks: nat)

  datatype Message =
    | Assistant(parent: Option<ToolId>, hasUsage: bool, blocks: seq<Block>)
    | UserText(parent: Option<ToolId>, asks: nat)
    | UserResults(parent: Option<ToolId>, results: seq<ResultBlock>)
    | RunResult(isError: bool)
    | Compacted
    | Ignored

  datatype Event =
    | SubagentStart(id: ToolId)
    | SubagentEnd(id: ToolId)
    | Called(id: ToolId, parent: Option<ToolId>)
    | ResultOf(id: ToolId, parent: Option<ToolId>)
    | Emitted(parent: Option<ToolId>)

  // ---- An observer of the log, who knows nothing of the stream ------------

  /** known: the Task calls seen; open: the subagents started and not ended; bracketed: every start was of a known,
      closed subagent and every end of an open one; scoped: every event under a known parent came while it was open. */
  datatype View = View(known: set<ToolId>, open: set<ToolId>, bracketed: bool, scoped: bool)

  predicate Under(v: View, parent: Option<ToolId>) {
    parent.Some? && parent.value in v.known ==> parent.value in v.open
  }

  function Observe(v: View, e: Event): View {
    match e
    case SubagentStart(id) => v.(open := v.open + {id}, bracketed := v.bracketed && id in v.known && id !in v.open)
    case SubagentEnd(id) => v.(open := v.open - {id}, bracketed := v.bracketed && id in v.open)
    case Called(id, parent) => v.(known := v.known + {id}, scoped := v.scoped && Under(v, parent))
    case ResultOf(_, parent) => v.(scoped := v.scoped && Under(v, parent))
    case Emitted(parent) => v.(scoped := v.scoped && Under(v, parent))
  }

  function Replay(log: seq<Event>): View {
    if log == [] then View({}, {}, true, true) else Observe(Replay(log[..|log| - 1]), log[|log| - 1])
  }

  lemma ReplayStep(log: seq<Event>, e: Event)
    ensures Replay(log + [e]) == Observe(Replay(log), e)
  {
    assert (log + [e])[..|log|] == log;
  }

  function ObserveAll(v: View, es: seq<Event>): View {
    if es == [] then v else Observe(ObserveAll(v, es[..|es| - 1]), es[|es| - 1])
  }

  lemma {:induction false} ObserveAppend(v: View, a: seq<Event>, b: seq<Event>)
    ensures ObserveAll(v, a + b) == ObserveAll(ObserveAll(v, a), b)
  {
    hide Observe;
    if b == [] {
      assert a + b == a;
    } else {
      ObserveAppend(v, a, b[..|b| - 1]);
      assert (a + b)[..|a + b| - 1] == a + b[..|b| - 1];
    }
  }

  lemma {:induction false} ReplayAll(log: seq<Event>)
    ensures Replay(log) == ObserveAll(View({}, {}, true, true), log)
  {
    if log != [] {
      ReplayAll(log[..|log| - 1]);
    }
  }

  lemma ObserveOne(v: View, e: Event)
    ensures ObserveAll(v, [e]) == Observe(v, e)
  {
    assert [e][..0] == [];
  }

  function Count(log: seq<Event>, e: Event): nat {
    if log == [] then 0 else Count(log[..|log| - 1], e) + (if log[|log| - 1] == e then 1 else 0)
  }

  /** In a bracketed log a subagent's starts exceed its ends by one while it is open and by none while it is closed; as
      this holds at every point of the log, starts and ends alternate, a start first. */
  lemma {:induction false} BracketCounts(log: seq<Event>, id: ToolId)
    requires Replay(log).bracketed
    ensures Count(log, SubagentStart(id)) == Count(log, SubagentEnd(id)) + (if id in Replay(log).open then 1 else 0)
  {
    if log != [] {
      BracketCounts(log[..|log| - 1], id);
    }
  }

  lemma {:induction false} BracketedPrefix(log: seq<Event>, n: nat)
    requires n <= |log|
    ensures Replay(log).bracketed ==> Replay(log[..n]).bracketed
    ensures Replay(log).scoped ==> Replay(log[..n]).scoped
    decreases |log|
  {
    if n < |log| {
      BracketedPrefix(log[..|log| - 1], n);
      assert log[..|log| - 1][..n] == log[..n];
    } else {
      assert log[..n] == log;
    }
  }

  /** Between any two points of the log the same holds, so no start follows a start without an end between them. */
  lemma Alternates(log: seq<Event>, i: nat, j: nat, id: ToolId)
    requires i <= j < |log| && Replay(log).bracketed
    requires i < j && log[i] == SubagentStart(id) && log[j] == SubagentStart(id)
    ensures exists k :: i < k < j && log[k] == SubagentEnd(id)
  {
    hide Replay;
    StartPoint(log, i, id);
    StartPoint(log, j, id);
    StaysOpen(log, i + 1, j, id);
  }

  lemma StartPoint(log: seq<Event>, i: nat, id: ToolId)
    requires i < |log| && Replay(log).bracketed && log[i] == SubagentStart(id)
    ensures id !in Replay(log[..i]).open && id in Replay(log[..i + 1]).open
  {
    BracketedPrefix(log, i + 1);
    ReplayStep(log[..i], log[i]);
    assert log[..i] + [log[i]] == log[..i + 1];
  }

  lemma {:induction false} StaysOpen(log: seq<Event>, i: nat, j: nat, id: ToolId)
    requires i <= j <= |log| && id in Replay(log[..i]).open
    ensures id in Replay(log[..j]).open || exists k :: i <= k < j && log[k] == SubagentEnd(id)
    decreases j
  {
    if i < j {
      StaysOpen(log, i, j - 1, id);
      assert log[..j][..j - 1] == log[..j - 1];
    }
  }

  // ---- What one message does ----------------------------------------------

  /** A block that emits an event comes after one that ends the parent's being open (or turns it known unopened). */
  ghost predicate Late(blocks: seq<Block>, p: ToolId, n: nat)
    requires n <= |blocks|
  {
    exists i, j | 0 <= i < j < n :: blocks[i] == TaskCall(p) && blocks[j] != Silent
  }

  ghost predicate LateResult(results: seq<ResultBlock>, p: ToolId, n: nat)
    requires n <= |results|
  {
    exists i, j | 0 <= i < j < n :: Closes(results[i], p) && results[j].Result?
  }

  predicate Closes(r: ResultBlock, p: ToolId) {
    r.Result? && r.id == p
  }

  /** The message lets an event under its own parent follow the parent's end, or follow a call that makes a parent no
      one opened known: the two ways an event can stand outside its subagent. */
  ghost predicate Strays(m: Message, known: set<ToolId>) {
    match m
    case Assistant(Some(p), _, blocks) => p !in known && Late(blocks, p, |blocks|)
    case UserResults(Some(p), results) => p in known && LateResult(results, p, |results|)
    case _ => false
  }

  lemma NothingLate(parent: Option<ToolId>, blocks: seq<Block>)
    ensures parent.Some? ==> !Late(blocks, parent.value, 0)
  {
  }

  lemma LateStep(blocks: seq<Block>, p: ToolId, n: nat)
    requires n < |blocks|
    ensures Late(blocks, p, n + 1) <==> Late(blocks, p, n) || (TaskCall(p) in blocks[..n] && blocks[n] != Silent)
  {
    if TaskCall(p) in blocks[..n] && blocks[n] != Silent {
      var i :| 0 <= i < n && blocks[i] == TaskCall(p);
      assert blocks[i] == TaskCall(p) && blocks[n] != Silent;
    }
  }

  ghost predicate Ended(results: seq<ResultBlock>, p: ToolId, n: nat)
    requires n <= |results|
  {
    exists i | 0 <= i < n :: Closes(results[i], p)
  }

  lemma LateResultStep(results: seq<ResultBlock>, p: ToolId, n: nat)
    requires n < |results|
    ensures LateResult(results, p, n + 1) <==> LateResult(results, p, n) || (Ended(results, p, n) && results[n].Result?)
    ensures Ended(results, p, n + 1) <==> Ended(results, p, n) || Closes(results[n], p)
  {
    if Ended(results, p, n) && results[n].Result? {
      var i :| 0 <= i < n && Closes(results[i], p);
      assert Closes(results[i], p) && results[n].Result?;
    }
  }

  /** The Task calls among the first n blocks. */
  ghost function CallsUpTo(blocks: seq<Block>, n: nat): set<ToolId>
    requires n <= |blocks|
  {
    if n == 0 then {} else
      CallsUpTo(blocks, n - 1) + (if blocks[n - 1].TaskCall? then {blocks[n - 1].id} else {})
  }

  ghost function Calls(m: Message): set<ToolId> {
    if m.Assistant? then CallsUpTo(m.blocks, |m.blocks|) else {}
  }

  // ---- What one message writes --------------------------------------------

  predicate IsKnown(parent: Option<ToolId>, known: set<ToolId>) {
    parent.Some? && parent.value in known
  }

  function ScopeEvents(parent: Option<ToolId>, known: set<ToolId>, open: set<ToolId>): seq<Event> {
    if IsKnown(parent, known) && parent.value !in open then [SubagentStart(parent.value)] else []
  }

  function ScopedOpen(parent: Option<ToolId>, known: set<ToolId>, open: set<ToolId>): set<ToolId> {
    if IsKnown(parent, known) then open + {parent.value} else open
  }

  function BlockEvent(parent: Option<ToolId>, block: Block): seq<Event> {
    match block
    case TaskCall(id) => [Called(id, parent)]
    case Plain => [Emitted(parent)]
    case Silent => []
  }

  /** The events of the first n blocks. */
  function BlockEvents(parent: Option<ToolId>, blocks: seq<Block>, n: nat): seq<Event>
    requires n <= |blocks|
  {
    if n == 0 then [] else BlockEvents(parent, blocks, n - 1) + BlockEvent(parent, blocks[n - 1])
  }

  function Asks(parent: Option<ToolId>, n: nat): seq<Event> {
    if n == 0 then [] else Asks(parent, n - 1) + [Emitted(parent)]
  }

  /** The ids the first n results are of: their subagents, if open, are closed. */
  function Closed(results: seq<ResultBlock>, n: nat): set<ToolId>
    requires n <= |results|
  {
    if n == 0 then {} else Closed(results, n - 1) + (if results[n - 1].Result? then {results[n - 1].id} else {})
  }

  /** One result's events: the questions found in it, the result, and the end of the subagent it closes, if that is open. */
  function OneResult(parent: Option<ToolId>, id: ToolId, asks: nat, open: set<ToolId>): seq<Event> {
    Asks(parent, asks) + [ResultOf(id, parent)] + (if id in open then [SubagentEnd(id)] else [])
  }

  function ResultEvent(parent: Option<ToolId>, result: ResultBlock, open: set<ToolId>): seq<Event> {
    if result.Result? then OneResult(parent, result.id, result.asks, open) else []
  }

  function ResultEvents(parent: Option<ToolId>, results: seq<ResultBlock>, open: set<ToolId>, n: nat): seq<Event>
    requires n <= |results|
  {
    if n == 0 then [] else
      ResultEvents(parent, results, open, n - 1) + ResultEvent(parent, results[n - 1], open - Closed(results, n - 1))
  }

  /** The events one message writes, in order, given the Task calls and open subagents before it. */
  function EventsOf(m: Message, known: set<ToolId>, open: set<ToolId>): seq<Event> {
    match m
    case Assistant(parent, hasUsage, blocks) =>
      ScopeEvents(parent, known, open) + (if parent.None? then [Emitted(parent)] else [])
      + (if hasUsage then [Emitted(parent)] else []) + BlockEvents(parent, blocks, |blocks|)
    case UserText(parent, asks) => ScopeEvents(parent, known, open) + Asks(parent, asks)
    case UserResults(parent, results) =>
      ScopeEvents(parent, known, open) + ResultEvents(parent, results, ScopedOpen(parent, known, open), |results|)
    case RunResult(_) => [Emitted(None)]
    case Compacted => [Emitted(None)]
    case Ignored => []
  }

  /** The subagents open after one message. */
  function OpenAfter(m: Message, known: set<ToolId>, open: set<ToolId>): set<ToolId> {
    match m
    case Assistant(parent, _, _) => ScopedOpen(parent, known, open)
    case UserText(parent, _) => ScopedOpen(parent, known, open)
    case UserResults(parent, results) => ScopedOpen(parent, known, open) - Closed(results, |results|)
    case _ => open
  }

  // ---- What the observer makes of it --------------------------------------

  lemma {:induction false} CallsMembers(blocks: seq<Block>, n: nat, p: ToolId)
    requires n <= |blocks|
    ensures p in CallsUpTo(blocks, n) <==> TaskCall(p) in blocks[..n]
  {
    if n > 0 {
      CallsMembers(blocks, n - 1, p);
      assert blocks[..n] == blocks[..n - 1] + [blocks[n - 1]];
    }
  }

  /** The view after the first n blocks of a message whose parent, if known, is open. */
  ghost function BlocksView(v: View, parent: Option<ToolId>, blocks: seq<Block>, n: nat): View
    requires n <= |blocks|
  {
    v.(known := v.known + CallsUpTo(blocks, n),
       scoped := v.scoped && !(parent.Some? && parent.value !in v.known && Late(blocks, parent.value, n)))
  }

  lemma OneBlockView(v: View, parent: Option<ToolId>, blocks: seq<Block>, n: nat)
    requires n < |blocks| && v.open <= v.known && (parent.Some? && parent.value in v.known ==> parent.value in v.open)
    ensures ObserveAll(BlocksView(v, parent, blocks, n), BlockEvent(parent, blocks[n])) == BlocksView(v, parent, blocks, n + 1)
  {
    hide Late;
    if parent.Some? {
      CallsMembers(blocks, n, parent.value);
      LateStep(blocks, parent.value, n);
    }
    match blocks[n]
    case TaskCall(id) => ObserveOne(BlocksView(v, parent, blocks, n), Called(id, parent));
    case Plain => ObserveOne(BlocksView(v, parent, blocks, n), Emitted(parent));
    case Silent =>
  }

  lemma {:induction false} BlocksObserved(v: View, parent: Option<ToolId>, blocks: seq<Block>, n: nat)
    requires n <= |blocks| && v.open <= v.known && (parent.Some? && parent.value in v.known ==> parent.value in v.open)
    ensures ObserveAll(v, BlockEvents(parent, blocks, n)) == BlocksView(v, parent, blocks, n)
  {
    hide *;
    if n == 0 {
      NoBlocksObserved(v, parent, blocks);
    } else {
      BlocksObserved(v, parent, blocks, n - 1);
      OneBlockView(v, parent, blocks, n - 1);
      NextBlockEvents(parent, blocks, n - 1);
      ObserveAppend(v, BlockEvents(parent, blocks, n - 1), BlockEvent(parent, blocks[n - 1]));
    }
  }

  lemma NoBlocksObserved(v: View, parent: Option<ToolId>, blocks: seq<Block>)
    ensures ObserveAll(v, BlockEvents(parent, blocks, 0)) == BlocksView(v, parent, blocks, 0)
  {
    NothingLate(parent, blocks);
    hide Late;
  }

  lemma NextBlockEvents(parent: Option<ToolId>, blocks: seq<Block>, n: nat)
    requires n < |blocks|
    ensures BlockEvents(parent, blocks, n + 1) == BlockEvents(parent, blocks, n) + BlockEvent(parent, blocks[n])
  {
  }

  lemma {:induction false} AsksObserved(v: View, parent: Option<ToolId>, n: nat)
    ensures ObserveAll(v, Asks(parent, n)) == if n > 0 then Observe(v, Emitted(parent)) else v
  {
    if n > 0 {
      AsksObserved(v, parent, n - 1);
      assert Asks(parent, n)[..|Asks(parent, n)| - 1] == Asks(parent, n - 1);
    }
  }

  lemma OneResultObserved(v: View, parent: Option<ToolId>, id: ToolId, asks: nat)
    ensures ObserveAll(v, OneResult(parent, id, asks, v.open))
         == v.(open := v.open - {id}, scoped := v.scoped && Under(v, parent))
  {
    AsksObserved(v, parent, asks);
    ObserveAppend(v, Asks(parent, asks), [ResultOf(id, parent)]);
    var w := ObserveAll(v, Asks(parent, asks));
    ObserveOne(w, ResultOf(id, parent));
    ObserveAppend(v, Asks(parent, asks) + [ResultOf(id, parent)], if id in v.open then [SubagentEnd(id)] else []);
    ObserveOne(Observe(w, ResultOf(id, parent)), SubagentEnd(id));
    assert id !in v.open ==> v.open - {id} == v.open;
  }

  /** The view after the first n results of a message whose parent, if known, is open. */
  ghost function ResultsView(v: View, parent: Option<ToolId>, results: seq<ResultBlock>, n: nat): View
    requires n <= |results|
  {
    v.(open := v.open - Closed(results, n),
       scoped := v.scoped && !(IsKnown(parent, v.known) && LateResult(results, parent.value, n)))
  }

  lemma {:induction false} ClosedIsEnded(results: seq<ResultBlock>, n: nat, p: ToolId)
    requires n <= |results|
    ensures p in Closed(results, n) <==> Ended(results, p, n)
  {
    if n > 0 {
      ClosedIsEnded(results, n - 1, p);
      LateResultStep(results, p, n - 1);
    }
  }

  lemma OneResultView(v: View, parent: Option<ToolId>, results: seq<ResultBlock>, n: nat)
    requires n < |results| && (parent.Some? && parent.value in v.known ==> parent.value in v.open)
    ensures ObserveAll(ResultsView(v, parent, results, n), ResultEvent(parent, results[n], v.open - Closed(results, n)))
         == ResultsView(v, parent, results, n + 1)
  {
    hide LateResult, Ended, OneResult;
    if parent.Some? {
      LateResultStep(results, parent.value, n);
      ClosedIsEnded(results, n, parent.value);
    }
    if results[n].Result? {
      OneResultObserved(ResultsView(v, parent, results, n), parent, results[n].id, results[n].asks);
      assert v.open - Closed(results, n) - {results[n].id} == v.open - Closed(results, n + 1);
    }
  }

  lemma {:induction false} ResultsObserved(v: View, parent: Option<ToolId>, results: seq<ResultBlock>, n: nat)
    requires n <= |results| && (parent.Some? && parent.value in v.known ==> parent.value in v.open)
    ensures ObserveAll(v, ResultEvents(parent, results, v.open, n)) == ResultsView(v, parent, results, n)
  {
    hide *;
    if n == 0 {
      NoResultsObserved(v, parent, results);
    } else {
      ResultsObserved(v, parent, results, n - 1);
      OneResultView(v, parent, results, n - 1);
      NextResultEvents(parent, results, v.open, n - 1);
      ObserveAppend(v, ResultEvents(parent, results, v.open, n - 1), ResultEvent(parent, results[n - 1], v.open - Closed(results, n - 1)));
    }
  }

  lemma NoResultsObserved(v: View, parent: Option<ToolId>, results: seq<ResultBlock>)
    ensures ObserveAll(v, ResultEvents(parent, results, v.open, 0)) == ResultsView(v, parent, results, 0)
  {
    assert parent.Some? ==> !LateResult(results, parent.value, 0);
  }

  lemma NextResultEvents(parent: Option<ToolId>, results: seq<ResultBlock>, open: set<ToolId>, n: nat)
    requires n < |results|
    ensures ResultEvents(parent, results, open, n + 1)
         == ResultEvents(parent, results, open, n) + ResultEvent(parent, results[n], open - Closed(results, n))
  {
  }

  lemma ScopeObserved(v: View, parent: Option<ToolId>)
    ensures ObserveAll(v, ScopeEvents(parent, v.known, v.open)) == v.(open := ScopedOpen(parent, v.known, v.open))
  {
    if IsKnown(parent, v.known) {
      ObserveOne(v, SubagentStart(parent.value));
      assert parent.value in v.open ==> v.open + {parent.value} == v.open;
    }
  }

  lemma EmittedObserved(v: View, parent: Option<ToolId>, written: bool)
    requires IsKnown(parent, v.known) ==> parent.value in v.open
    ensures ObserveAll(v, if written then [Emitted(parent)] else []) == v
  {
    ObserveOne(v, Emitted(parent));
  }

  /** What one message does to an observer's view: its Task calls become known, its subagents open and close as the
      consumer keeps them, starts and ends stay bracketed, and scope is lost exactly when it strays. */
  lemma MessageObserved(v: View, m: Message)
    requires v.open <= v.known
    ensures ObserveAll(v, EventsOf(m, v.known, v.open))
         == View(v.known + Calls(m), OpenAfter(m, v.known, v.open), v.bracketed, v.scoped && !Strays(m, v.known))
    ensures OpenAfter(m, v.known, v.open) <= v.known
  {
    hide ObserveAll, ScopeEvents, BlockEvents, ResultEvents, Late, LateResult, CallsUpTo, Closed;
    match m
    case Assistant(parent, hasUsage, blocks) =>
      AssistantObserved(v, parent, hasUsage, blocks);
    case UserText(parent, asks) =>
      ScopeObserved(v, parent);
      ObserveAppend(v, ScopeEvents(parent, v.known, v.open), Asks(parent, asks));
      AsksObserved(v.(open := ScopedOpen(parent, v.known, v.open)), parent, asks);
    case UserResults(parent, results) =>
      ScopeObserved(v, parent);
      var w := v.(open := ScopedOpen(parent, v.known, v.open));
      ObserveAppend(v, ScopeEvents(parent, v.known, v.open), ResultEvents(parent, results, w.open, |results|));
      ResultsObserved(w, parent, results, |results|);
    case RunResult(_) => EmittedObserved(v, None, true);
    case Compacted => EmittedObserved(v, None, true);
    case Ignored => EmittedObserved(v, None, false);
  }

  lemma AssistantObserved(v: View, parent: Option<ToolId>, hasUsage: bool, blocks: seq<Block>)
    requires v.open <= v.known
    ensures var m := Assistant(parent, hasUsage, blocks);
            ObserveAll(v, EventsOf(m, v.known, v.open))
            == View(v.known + Calls(m), OpenAfter(m, v.known, v.open), v.bracketed, v.scoped && !Strays(m, v.known))
  {
    hide ObserveAll, ScopeEvents, BlockEvents, Late, CallsUpTo;
    var scope := ScopeEvents(parent, v.known, v.open);
    var w := v.(open := ScopedOpen(parent, v.known, v.open));
    var turn, usage: seq<Event> := if parent.None? then [Emitted(parent)] else [], if hasUsage then [Emitted(parent)] else [];
    ScopeObserved(v, parent);
    ObserveAppend(v, scope, turn);
    EmittedObserved(w, parent, parent.None?);
    ObserveAppend(v, scope + turn, usage);
    EmittedObserved(w, parent, hasUsage);
    ObserveAppend(v, scope + turn + usage, BlockEvents(parent, blocks, |blocks|));
    BlocksObserved(w, parent, blocks, |blocks|);
  }

  lemma ResultsStart(parent: Option<ToolId>, results: seq<ResultBlock>, open: set<ToolId>)
    ensures ResultEvents(parent, results, open, 0) == [] && open - Closed(results, 0) == open
  {
  }

  lemma ResultsStep(parent: Option<ToolId>, results: seq<ResultBlock>, open: set<ToolId>, i: nat)
    requires i < |results|
    ensures var now, r := open - Closed(results, i), results[i];
            && ResultEvents(parent, results, open, i + 1)
               == ResultEvents(parent, results, open, i) + (if r.Result? then OneResult(parent, r.id, r.asks, now) else [])
            && open - Closed(results, i + 1) == if r.Result? then now - {r.id} else now
  {
  }

  // ---- The consumer -------------------------------------------------------

  class Consumer {
    var taskCalls: set<ToolId>
    var openSubagents: set<ToolId>
    var log: seq<Event>

    constructor ()
      ensures log == [] && taskCalls == {} && openSubagents == {}
    {
      taskCalls, openSubagents, log := {}, {}, [];
    }

    method Write(e: Event)
      modifies this`log
      ensures log == old(log) + [e]
    {
      log := log + [e];
    }

    /** Opens the parent's subagent the first time a message of a known Task call is seen. */
    method Scope(parent: Option<ToolId>)
      modifies this`log, this`openSubagents
      ensures log == old(log) + ScopeEvents(parent, taskCalls, old(openSubagents))
      ensures openSubagents == ScopedOpen(parent, taskCalls, old(openSubagents))
    {
      if parent.Some? && parent.value in taskCalls && parent.value !in openSubagents {
        openSubagents := openSubagents + {parent.value};
        Write(SubagentStart(parent.value));
      }
    }

    /** The blocks of one assistant message, in order. */
    method WriteBlocks(parent: Option<ToolId>, blocks: seq<Block>)
      modifies this`log, this`taskCalls
      ensures log == old(log) + BlockEvents(parent, blocks, |blocks|)
      ensures taskCalls == old(taskCalls) + CallsUpTo(blocks, |blocks|)
    {
      for i := 0 to |blocks|
        invariant log == old(log) + BlockEvents(parent, blocks, i)
        invariant taskCalls == old(taskCalls) + CallsUpTo(blocks, i)
      {
        match blocks[i] {
          case TaskCall(id) =>
            taskCalls := taskCalls + {id};
            Write(Called(id, parent));
          case Plain =>
            Write(Emitted(parent));
          case Silent =>
        }
      }
    }

    method WriteAsks(parent: Option<ToolId>, asks: nat)
      modifies this`log
      ensures log == old(log) + Asks(parent, asks)
    {
      for i := 0 to asks
        invariant log == old(log) + Asks(parent, i)
      {
        Write(Emitted(parent));
      }
    }

    /** The results of one user message, in order; each closes its subagent, if that is open. */
    method WriteResults(parent: Option<ToolId>, results: seq<ResultBlock>)
      modifies this`log, this`openSubagents
      ensures log == old(log) + ResultEvents(parent, results, old(openSubagents), |results|)
      ensures openSubagents == old(openSubagents) - Closed(results, |results|)
    {
      hide OneResult, ResultEvents, Closed;
      ResultsStart(parent, results, openSubagents);
      for i := 0 to |results|
        invariant log == old(log) + ResultEvents(parent, results, old(openSubagents), i)
        invariant openSubagents == old(openSubagents) - Closed(results, i)
      {
        ResultsStep(parent, results, old(openSubagents), i);
        if results[i].Result? {
          WriteResult(parent, results[i].id, results[i].asks);
        }
      }
    }

    method WriteResult(parent: Option<ToolId>, id: ToolId, asks: nat)
      modifies this`log, this`openSubagents
      ensures log == old(log) + OneResult(parent, id, asks, old(openSubagents)) && openSubagents == old(openSubagents) - {id}
    {
      WriteAsks(parent, asks);
      Write(ResultOf(id, parent));
      if id in openSubagents {
        openSubagents := openSubagents - {id};
        Write(SubagentEnd(id));
      }
    }

    /** One message of the stream; ends tells that it was the run's successful result, its last word. */
    method Consume(m: Message) returns (ends: bool)
      modifies this
      ensures log == old(log) + EventsOf(m, old(taskCalls), old(openSubagents))
      ensures taskCalls == old(taskCalls) + Calls(m) && openSubagents == OpenAfter(m, old(taskCalls), old(openSubagents))
      ensures ends == (m == RunResult(false))
    {
      hide BlockEvents, ResultEvents, Asks, Closed, ScopeEvents, ScopedOpen, CallsUpTo;
      ends := false;
      match m
      case Assistant(parent, hasUsage, blocks) =>
        Scope(parent);
        if parent.None? {
          Write(Emitted(parent));
        }
        if hasUsage {
          Write(Emitted(parent));
        }
        WriteBlocks(parent, blocks);
      case UserText(parent, asks) =>
        Scope(parent);
        WriteAsks(parent, asks);
      case UserResults(parent, results) =>
        Scope(parent);
        WriteResults(parent, results);
      case RunResult(isError) =>
        Write(Emitted(None));
        ends := !isError;
      case Compacted =>
        Write(Emitted(None));
      case Ignored =>
    }
  }

  /** Whether one of some messages strays, given the Task calls of the messages before it. */
  ghost predicate AnyStrays(messages: seq<Message>) {
    messages != [] &&
    var init := messages[..|messages| - 1];
    AnyStrays(init) || Strays(messages[|messages| - 1], AllCalls(init))
  }

  ghost function AllCalls(messages: seq<Message>): set<ToolId> {
    if messages == [] then {} else AllCalls(messages[..|messages| - 1]) + Calls(messages[|messages| - 1])
  }

  /** The subagents open after some messages, and the events they write. */
  ghost function AllOpen(messages: seq<Message>): set<ToolId> {
    if messages == [] then {} else
      var init := messages[..|messages| - 1];
      OpenAfter(messages[|messages| - 1], AllCalls(init), AllOpen(init))
  }

  ghost function AllEvents(messages: seq<Message>): seq<Event> {
    if messages == [] then [] else
      var init := messages[..|messages| - 1];
      AllEvents(init) + EventsOf(messages[|messages| - 1], AllCalls(init), AllOpen(init))
  }

  lemma StreamStep(messages: seq<Message>, n: nat)
    requires n < |messages|
    ensures var init := messages[..n];
            && AllCalls(messages[..n + 1]) == AllCalls(init) + Calls(messages[n])
            && AllOpen(messages[..n + 1]) == OpenAfter(messages[n], AllCalls(init), AllOpen(init))
            && AllEvents(messages[..n + 1]) == AllEvents(init) + EventsOf(messages[n], AllCalls(init), AllOpen(init))
  {
    assert messages[..n + 1][..n] == messages[..n];
  }

  /** For every stream: the log its messages write is bracketed, leaves open the subagents the consumer holds open, and
      every event in it stands inside its known parent exactly when no message strays. */
  lemma {:induction false} StreamObserved(messages: seq<Message>)
    ensures Replay(AllEvents(messages)) == View(AllCalls(messages), AllOpen(messages), true, !AnyStrays(messages))
    ensures AllOpen(messages) <= AllCalls(messages)
  {
    if messages != [] {
      hide Replay, ObserveAll, EventsOf, OpenAfter, Strays, Calls;
      var init, m := messages[..|messages| - 1], messages[|messages| - 1];
      StreamObserved(init);
      var v := Replay(AllEvents(init));
      var more := EventsOf(m, v.known, v.open);
      MessageObserved(v, m);
      ReplayAll(AllEvents(init));
      ReplayAll(AllEvents(init) + more);
      ObserveAppend(View({}, {}, true, true), AllEvents(init), more);
    }
  }

  /** A whole stream, read to its end or to the first successful result: the log is exactly what the messages read write,
      one after the other. */
  method ConsumeStream(messages: seq<Message>) returns (log: seq<Event>, open: set<ToolId>, read: nat)
    ensures read <= |messages|
    ensures forall i | 0 <= i < read - 1 :: messages[i] != RunResult(false)
    ensures read < |messages| ==> read > 0 && messages[read - 1] == RunResult(false)
    ensures log == AllEvents(messages[..read]) && open == AllOpen(messages[..read])
    ensures Replay(log) == View(AllCalls(messages[..read]), open, true, !AnyStrays(messages[..read]))
  {
    hide Replay, Strays, Calls, EventsOf, OpenAfter;
    var c := new Consumer();
    read := 0;
    while read < |messages|
      invariant read <= |messages|
      invariant forall i | 0 <= i < read :: messages[i] != RunResult(false)
      invariant fresh(c) && c.log == AllEvents(messages[..read])
      invariant c.openSubagents == AllOpen(messages[..read]) && c.taskCalls == AllCalls(messages[..read])
    {
      var ends := c.Consume(messages[read]);
      StreamStep(messages, read);
      read := read + 1;
      if ends {
        break;
      }
    }
    log, open := c.log, c.openSubagents;
    StreamObserved(messages[..read]);
  }

  /** The first way to stray: a subagent's own result, with another result after it in the same message. */
  lemma ResultAfterOwnEnd(p: ToolId)
    requires p != "other"
    ensures Strays(UserResults(Some(p), [Result(p, 0), Result("other", 0)]), {p})
    ensures !Strays(UserResults(Some(p), [Result("other", 0), Result(p, 0)]), {p})
  {
    var results := [Result(p, 0), Result("other", 0)];
    assert Closes(results[0], p) && results[1].Result?;
    var swapped := [Result("other", 0), Result(p, 0)];
    assert !Closes(swapped[0], p);
  }
}
