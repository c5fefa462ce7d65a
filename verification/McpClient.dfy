/** The MCP stdio client: matching JSON-RPC replies to requests over one line stream. */
module McpClient {
  import opened Prelude

  datatype Id = Number(n: int) | Name(s: string) | NullId
  datatype Json = Object(text: string) | OtherJson

  /** One line the server wrote: not JSON, JSON that is no object, or a message with some of its members. */
  datatype Line = Junk | NotAnObject | Message(id: Option<Id>, hasMethod: bool, result: Option<Json>, error: Option<Json>)

  /** A response to request id, by section 5 of the JSON-RPC 2.0 specification: its id and a result or an error. */
  predicate IsReply(line: Line, id: int) {
    line.Message? && line.id == Some(Number(id)) && (line.result.Some? || line.error.Some?)
  }

  predicate IsServerRequest(line: Line) {
    line.Message? && line.hasMethod && line.id.Some?
  }

  datatype Output = Call(number: int, method_: string) | Refusal(id: Id)

  datatype Response = Value(value: Json) | ServerError(error: Json) | TimedOut | Exited

  function ResponseOf(line: Line): Response
    requires line.Message?
  {
    if line.error.Some? then ServerError(line.error.value)
    else Value(if line.result.Some? && line.result.value.Object? then line.result.value else Object("{}"))
  }

  /** What became of one line read: given to the request waiting for it, refused, or dropped. */
  datatype Fate = Delivered(line: Line, to: int) | Refused(line: Line) | Dropped(line: Line)

  function Dispose(line: Line, id: int): Fate {
    if IsReply(line, id) then Delivered(line, id)
    else if IsServerRequest(line) then Refused(line)
    else Dropped(line)
  }

  /** The fates of the lines one request reads: to its reply, or all of them. */
  function ReadUntil(lines: seq<Line>, id: int): (fates: seq<Fate>)
    ensures |fates| <= |lines|
  {
    if lines == [] then [] else
      [Dispose(lines[0], id)] + (if IsReply(lines[0], id) then [] else ReadUntil(lines[1..], id))
  }

  function Lines(fates: seq<Fate>): (lines: seq<Line>)
    ensures |lines| == |fates| && forall i | 0 <= i < |fates| :: lines[i] == fates[i].line
  {
    seq(|fates|, i requires 0 <= i < |fates| => fates[i].line)
  }

  function RefusalOf(fate: Fate): seq<Output> {
    if fate.Refused? && IsServerRequest(fate.line) then [Refusal(fate.line.id.value)] else []
  }

  /** The refusals some fates call for, one per refused line, in order. */
  function RefusalsOf(fates: seq<Fate>): seq<Output> {
    if fates == [] then [] else RefusalsOf(fates[..|fates| - 1]) + RefusalOf(fates[|fates| - 1])
  }

  lemma {:induction false} RefusalsAppend(a: seq<Fate>, b: seq<Fate>)
    ensures RefusalsOf(a + b) == RefusalsOf(a) + RefusalsOf(b)
  {
    hide RefusalsOf, RefusalOf;
    if b == [] {
      NoFate();
      assert a + b == a;
    } else {
      var init, last := b[..|b| - 1], b[|b| - 1];
      RefusalsAppend(a, init);
      RefusalsStep(a + init, last);
      RefusalsStep(init, last);
      assert a + b == (a + init) + [last] && b == init + [last];
    }
  }

  lemma NoFate()
    ensures RefusalsOf([]) == []
  {
  }

  lemma RefusalsStep(fates: seq<Fate>, fate: Fate)
    ensures RefusalsOf(fates + [fate]) == RefusalsOf(fates) + RefusalOf(fate)
  {
    assert (fates + [fate])[..|fates|] == fates;
  }

  lemma OneRefusal(read: seq<Fate>, line: Line, id: int)
    requires !IsReply(line, id)
    ensures RefusalsOf(read + [Dispose(line, id)])
         == RefusalsOf(read) + (if IsServerRequest(line) then [Refusal(line.id.value)] else [])
  {
    RefusalsStep(read, Dispose(line, id));
  }

  /** What a request returns, from what it read. */
  function ResponseTo(read: seq<Fate>, exits: bool): Response {
    if read != [] && read[|read| - 1].Delivered? && read[|read| - 1].line.Message?
    then ResponseOf(read[|read| - 1].line)
    else if exits then Exited else TimedOut
  }

  // ---- What every run keeps -----------------------------------------------

  /** A run's history is sound: what was delivered was the reply to the very request it was delivered to, requests were
      answered in order and at most once, and a line was refused exactly when it is a server's request not delivered. */
  ghost predicate Sound(fates: seq<Fate>, lastId: int) {
    && (forall i | 0 <= i < |fates| :: FateSound(fates[i], lastId))
    && (forall i, j | 0 <= i < j < |fates| && fates[i].Delivered? && fates[j].Delivered? :: fates[i].to < fates[j].to)
  }

  ghost predicate FateSound(fate: Fate, lastId: int) {
    match fate
    case Delivered(line, to) => 1 <= to <= lastId && IsReply(line, to)
    case Refused(line) => IsServerRequest(line)
    case Dropped(line) => !IsServerRequest(line)
  }

  /** A reply that arrives after its request timed out is never delivered to any request. */
  lemma LateReplyDropped(fates: seq<Fate>, lastId: int, id: int, i: nat)
    requires Sound(fates, lastId) && i < |fates| && IsReply(fates[i].line, id)
    requires forall j | 0 <= j < |fates| && fates[j].Delivered? :: fates[j].to != id
    ensures !fates[i].Delivered?
  {
    assert FateSound(fates[i], lastId);
  }

  /** A server's request is refused even when its id is one this client uses: only a line with a result or an error is
      taken as a reply. */
  lemma CollidingRequestRefused(fates: seq<Fate>, lastId: int, i: nat)
    requires Sound(fates, lastId) && i < |fates| && IsServerRequest(fates[i].line)
    requires fates[i].line.result.None? && fates[i].line.error.None?
    ensures fates[i].Refused?
  {
    assert FateSound(fates[i], lastId);
  }

  lemma {:induction false} ReadSound(lines: seq<Line>, id: int)
    ensures var fates := ReadUntil(lines, id);
            && (forall i | 0 <= i < |fates| :: fates[i] == Dispose(lines[i], id))
            && (forall i | 0 <= i < |fates| - 1 :: !fates[i].Delivered?)
            && (fates == [] || !fates[|fates| - 1].Delivered? ==> |fates| == |lines|)
  {
    if lines != [] && !IsReply(lines[0], id) {
      ReadSound(lines[1..], id);
      var fates, rest := ReadUntil(lines, id), ReadUntil(lines[1..], id);
      assert fates == [Dispose(lines[0], id)] + rest;
      forall i | 0 <= i < |fates|
        ensures fates[i] == Dispose(lines[i], id) && (i < |fates| - 1 ==> !fates[i].Delivered?)
      {
        if i > 0 {
          assert fates[i] == rest[i - 1] && lines[i] == lines[1..][i - 1];
        }
      }
    }
  }

  lemma ReadLines(lines: seq<Line>, id: int)
    ensures Lines(ReadUntil(lines, id)) == lines[..|ReadUntil(lines, id)|]
  {
    ReadSound(lines, id);
  }

  lemma SoundAppend(fates: seq<Fate>, lastId: int, lines: seq<Line>, id: int)
    requires Sound(fates, lastId) && 0 <= lastId && id == lastId + 1
    ensures Sound(fates + ReadUntil(lines, id), id)
  {
    var more := ReadUntil(lines, id);
    ReadSound(lines, id);
    assert forall i | 0 <= i < |more| :: FateSound(more[i], id) && (more[i].Delivered? ==> more[i].to == id && i == |more| - 1);
    assert forall i | 0 <= i < |fates| :: FateSound(fates[i], lastId) && (fates[i].Delivered? ==> fates[i].to < id);
  }

  // ---- The client ---------------------------------------------------------

  class McpStdioClient {
    var nextId: int
    /** Lines the server has written and this client has not read. */
    var unread: seq<Line>
    /** What this client has written. */
    var sent: seq<Output>

    constructor ()
      ensures nextId == 0 && unread == [] && sent == []
    {
      nextId, unread, sent := 0, [], [];
    }

    /** One request: arrivals is what the server writes before the deadline, or before it exits. The lines are read up to
        the reply, or all of them; and the refusals of the server's requests among them follow the call. */
    method Request(method_: string, arrivals: seq<Line>, exits: bool) returns (r: Response)
      modifies this
      ensures nextId == old(nextId) + 1
      ensures var read := ReadUntil(old(unread) + arrivals, nextId);
              && r == ResponseTo(read, exits)
              && unread == (old(unread) + arrivals)[|read|..]
              && sent == old(sent) + [Call(nextId, method_)] + RefusalsOf(read)
    {
      nextId := nextId + 1;
      sent := sent + [Call(nextId, method_)];
      unread := unread + arrivals;
      r := ReadResponse(nextId, exits);
    }

    method ReadResponse(id: int, exits: bool) returns (r: Response)
      modifies this`unread, this`sent
      ensures var read := ReadUntil(old(unread), id);
              r == ResponseTo(read, exits) && unread == old(unread)[|read|..] && sent == old(sent) + RefusalsOf(read)
    {
      hide Reading, RefusalsOf, ReadUntil, Dispose, ResponseOf, ResponseTo;
      ghost var read: seq<Fate> := [];
      ghost var lines, sent0 := unread, sent;
      ReadingStart(lines, id, sent);
      while unread != []
        invariant Reading(lines, id, read, unread, sent0, sent)
        decreases |unread|
      {
        var line := unread[0];
        ghost var rest := unread;
        unread := unread[1..];
        if IsReply(line, id) {
          ReadingReply(lines, id, read, rest, sent0, sent, exits);
          r := ResponseOf(line);
          return;
        }
        ReadingStep(lines, id, read, rest, sent0, sent);
        read := read + [Dispose(line, id)];
        if IsServerRequest(line) {
          sent := sent + [Refusal(line.id.value)];
        }
      }
      ReadingEnd(lines, id, read, sent0, sent, exits);
      r := if exits then Exited else TimedOut;
    }
  }

  /** The read loop has read some lines and has rest before it. */
  ghost predicate Reading(lines: seq<Line>, id: int, read: seq<Fate>, rest: seq<Line>, sent0: seq<Output>, sent: seq<Output>) {
    && |read| <= |lines| && rest == lines[|read|..] && ReadUntil(lines, id) == read + ReadUntil(rest, id)
    && sent == sent0 + RefusalsOf(read)
    && (read != [] ==> !read[|read| - 1].Delivered?)
  }

  lemma ReadingStart(lines: seq<Line>, id: int, sent: seq<Output>)
    ensures Reading(lines, id, [], lines, sent, sent)
  {
  }

  lemma ReadUntilStep(rest: seq<Line>, id: int)
    requires rest != [] && !IsReply(rest[0], id)
    ensures ReadUntil(rest, id) == [Dispose(rest[0], id)] + ReadUntil(rest[1..], id) && !Dispose(rest[0], id).Delivered?
  {
  }

  lemma Regroup(read: seq<Fate>, fate: Fate, more: seq<Fate>)
    ensures read + ([fate] + more) == (read + [fate]) + more
  {
  }

  lemma ReadingStep(lines: seq<Line>, id: int, read: seq<Fate>, rest: seq<Line>, sent0: seq<Output>, sent: seq<Output>)
    requires Reading(lines, id, read, rest, sent0, sent) && rest != [] && !IsReply(rest[0], id)
    ensures Reading(lines, id, read + [Dispose(rest[0], id)], rest[1..], sent0,
                    if IsServerRequest(rest[0]) then sent + [Refusal(rest[0].id.value)] else sent)
  {
    hide RefusalsOf, ReadUntil, Dispose, IsReply, IsServerRequest;
    var fate := Dispose(rest[0], id);
    OneRefusal(read, rest[0], id);
    assert RefusalsOf(read) + [] == RefusalsOf(read);
    ReadUntilStep(rest, id);
    Regroup(read, fate, ReadUntil(rest[1..], id));
  }

  lemma ReadingReply(lines: seq<Line>, id: int, read: seq<Fate>, rest: seq<Line>, sent0: seq<Output>, sent: seq<Output>,
                     exits: bool)
    requires Reading(lines, id, read, rest, sent0, sent) && rest != [] && IsReply(rest[0], id)
    ensures var all := ReadUntil(lines, id);
            && all == read + [Dispose(rest[0], id)] && rest[1..] == lines[|all|..] && sent == sent0 + RefusalsOf(all)
            && ResponseTo(all, exits) == ResponseOf(rest[0])
  {
    RefusalsStep(read, Dispose(rest[0], id));
    hide RefusalsOf;
    assert RefusalsOf(read) + [] == RefusalsOf(read);
  }

  lemma ReadingEnd(lines: seq<Line>, id: int, read: seq<Fate>, sent0: seq<Output>, sent: seq<Output>, exits: bool)
    requires Reading(lines, id, read, [], sent0, sent)
    ensures ReadUntil(lines, id) == read && lines[|read|..] == [] && sent == sent0 + RefusalsOf(read)
    ensures ResponseTo(read, exits) == if exits then Exited else TimedOut
  {
  }

  // ---- A whole session ----------------------------------------------------

  /** One request of a session: what the server writes before its deadline, or before the server exits. */
  datatype Exchange = Exchange(method_: string, arrivals: seq<Line>, exits: bool)

  /** All the server writes. */
  function Arrivals(calls: seq<Exchange>): seq<Line> {
    if calls == [] then [] else Arrivals(calls[..|calls| - 1]) + calls[|calls| - 1].arrivals
  }

  /** The lines request k has before it: those left unread, and those that arrive before its deadline. */
  function Before(calls: seq<Exchange>, k: nat): seq<Line>
    requires k < |calls|
    decreases k, 1
  {
    Unread(calls, k) + calls[k].arrivals
  }

  /** The lines the first k requests leave unread. */
  function Unread(calls: seq<Exchange>, k: nat): seq<Line>
    requires k <= |calls|
    decreases k, 0
  {
    if k == 0 then [] else Before(calls, k - 1)[|ReadUntil(Before(calls, k - 1), k)|..]
  }

  /** The fates of the lines the first k requests read, the requests being numbered from 1. */
  function Fates(calls: seq<Exchange>, k: nat): seq<Fate>
    requires k <= |calls|
  {
    if k == 0 then [] else Fates(calls, k - 1) + ReadUntil(Before(calls, k - 1), k)
  }

  /** What the first k requests write: each its call, and then its refusals. */
  function Written(calls: seq<Exchange>, k: nat): seq<Output>
    requires k <= |calls|
  {
    if k == 0 then [] else
      Written(calls, k - 1) + [Call(k, calls[k - 1].method_)] + RefusalsOf(ReadUntil(Before(calls, k - 1), k))
  }

  /** What request k returns. */
  function ResponseAt(calls: seq<Exchange>, k: nat): Response
    requires k < |calls|
  {
    ResponseTo(ReadUntil(Before(calls, k), k + 1), calls[k].exits)
  }

  /** Any session of requests, whatever the server writes and when. */
  method Session(calls: seq<Exchange>) returns (responses: seq<Response>, sent: seq<Output>, unread: seq<Line>)
    ensures |responses| == |calls| && forall k | 0 <= k < |calls| :: responses[k] == ResponseAt(calls, k)
    ensures sent == Written(calls, |calls|) && unread == Unread(calls, |calls|)
  {
    hide ReadUntil, ResponseTo, RefusalsOf;
    var c := new McpStdioClient();
    responses := [];
    for i := 0 to |calls|
      invariant fresh(c) && c.nextId == i == |responses|
      invariant forall k | 0 <= k < i :: responses[k] == ResponseAt(calls, k)
      invariant c.sent == Written(calls, i) && c.unread == Unread(calls, i)
    {
      var r := c.Request(calls[i].method_, calls[i].arrivals, calls[i].exits);
      responses := responses + [r];
    }
    sent, unread := c.sent, c.unread;
  }

  /** At every point of a session the fates are sound, and every line the server wrote was read once, in order, or is
      still unread. */
  lemma {:induction false} SessionSound(calls: seq<Exchange>, k: nat)
    requires k <= |calls|
    ensures Sound(Fates(calls, k), k)
    ensures Lines(Fates(calls, k)) + Unread(calls, k) == Arrivals(calls[..k])
  {
    hide *;
    if k == 0 {
      NothingRead(calls);
    } else {
      SessionSound(calls, k - 1);
      FatesStep(calls, k);
      var lines := Before(calls, k - 1);
      SoundAppend(Fates(calls, k - 1), k - 1, lines, k);
      LinesAppend(Fates(calls, k - 1), ReadUntil(lines, k));
      ReadLines(lines, k);
      LineUp(Lines(Fates(calls, k - 1)), Unread(calls, k - 1), calls[k - 1].arrivals, lines, |ReadUntil(lines, k)|);
    }
  }

  lemma NothingRead(calls: seq<Exchange>)
    ensures Sound(Fates(calls, 0), 0) && Lines(Fates(calls, 0)) + Unread(calls, 0) == Arrivals(calls[..0])
  {
  }

  lemma LineUp(read: seq<Line>, unread: seq<Line>, arrivals: seq<Line>, lines: seq<Line>, n: nat)
    requires lines == unread + arrivals && n <= |lines|
    ensures (read + lines[..n]) + lines[n..] == (read + unread) + arrivals
  {
    assert lines[..n] + lines[n..] == lines;
    assert (read + lines[..n]) + lines[n..] == read + (lines[..n] + lines[n..]);
    assert read + (unread + arrivals) == (read + unread) + arrivals;
  }

  function OnlyRefusals(sent: seq<Output>): seq<Output> {
    if sent == [] then [] else
      OnlyRefusals(sent[..|sent| - 1]) + (if sent[|sent| - 1].Refusal? then [sent[|sent| - 1]] else [])
  }

  /** The refusals a session writes are those of the server requests it reads, one each, in order. */
  lemma {:induction false} RefusedOnce(calls: seq<Exchange>, k: nat)
    requires k <= |calls|
    ensures OnlyRefusals(Written(calls, k)) == RefusalsOf(Fates(calls, k))
  {
    hide *;
    if k == 0 {
      NothingWritten(calls);
    } else {
      RefusedOnce(calls, k - 1);
      FatesStep(calls, k);
      var read := ReadUntil(Before(calls, k - 1), k);
      RefusalsAppend(Fates(calls, k - 1), read);
      RefusalsAreRefusals(read);
      CallThenRefusals(Written(calls, k - 1), Call(k, calls[k - 1].method_), RefusalsOf(read));
    }
  }

  lemma NothingWritten(calls: seq<Exchange>)
    ensures OnlyRefusals(Written(calls, 0)) == [] == RefusalsOf(Fates(calls, 0))
  {
  }

  lemma CallThenRefusals(sent: seq<Output>, call: Output, refusals: seq<Output>)
    requires call.Call? && OnlyRefusals(refusals) == refusals
    ensures OnlyRefusals(sent + [call] + refusals) == OnlyRefusals(sent) + refusals
  {
    hide OnlyRefusals;
    OnlyRefusalsAppend(sent + [call], refusals);
    OnlyRefusalsStep(sent, call);
    assert OnlyRefusals(sent) + [] == OnlyRefusals(sent);
  }

  lemma OnlyRefusalsStep(sent: seq<Output>, out: Output)
    ensures OnlyRefusals(sent + [out]) == OnlyRefusals(sent) + (if out.Refusal? then [out] else [])
  {
    assert (sent + [out])[..|sent|] == sent;
  }

  lemma {:induction false} OnlyRefusalsAppend(a: seq<Output>, b: seq<Output>)
    ensures OnlyRefusals(a + b) == OnlyRefusals(a) + OnlyRefusals(b)
  {
    hide OnlyRefusals;
    if b == [] {
      NoOutput();
      assert a + b == a;
    } else {
      var init, last := b[..|b| - 1], b[|b| - 1];
      OnlyRefusalsAppend(a, init);
      OnlyRefusalsStep(a + init, last);
      OnlyRefusalsStep(init, last);
      assert a + b == (a + init) + [last] && b == init + [last];
    }
  }

  lemma NoOutput()
    ensures OnlyRefusals([]) == []
  {
  }

  lemma {:induction false} RefusalsAreRefusals(fates: seq<Fate>)
    ensures OnlyRefusals(RefusalsOf(fates)) == RefusalsOf(fates)
  {
    if fates != [] {
      var init, last := fates[..|fates| - 1], fates[|fates| - 1];
      RefusalsAreRefusals(init);
      hide OnlyRefusals;
      if RefusalOf(last) != [] {
        OnlyRefusalsStep(RefusalsOf(init), RefusalOf(last)[0]);
      } else {
        assert RefusalsOf(init) + [] == RefusalsOf(init);
      }
    }
  }

  /** What one request makes of the lines before it: the first reply to it, or nothing in all of them. */
  lemma ReadAnswers(lines: seq<Line>, id: int, exits: bool)
    ensures var read, r := ReadUntil(lines, id), ResponseTo(ReadUntil(lines, id), exits);
            && (r.Value? || r.ServerError? <==> HasReply(lines, id))
            && (forall i | IsFirstReply(lines, id, i) :: r == ResponseOf(lines[i]) && |read| == i + 1)
            && (r.TimedOut? || r.Exited? ==>
                  |read| == |lines| && (r.Exited? <==> exits) && forall f | f in read :: !f.Delivered?)
            && (forall f | f in read && f.Delivered? :: f.to == id)
  {
    ReadSound(lines, id);
    hide ReadUntil;
    if i: nat :| i < |lines| && IsReply(lines[i], id) {
      var first := FirstReply(lines, id, i);
    }
    if i: nat :| IsFirstReply(lines, id, i) {
      forall j | IsFirstReply(lines, id, j)
        ensures j == i
      {
      }
      ReadLength(lines, id, i);
    } else {
      NoReply(lines, id);
    }
  }

  lemma {:induction false} NoReply(lines: seq<Line>, id: int)
    requires forall i :: !IsFirstReply(lines, id, i)
    ensures |ReadUntil(lines, id)| == |lines| && forall f | f in ReadUntil(lines, id) :: !f.Delivered?
  {
    ReadSound(lines, id);
    var read := ReadUntil(lines, id);
    if i: nat :| i < |read| && read[i].Delivered? {
      var first := FirstReply(lines, id, i);
    }
  }

  /** Request k is answered exactly when a reply to it is among the lines it has before its deadline, and by the first such
      reply; otherwise it has read every line there was, and no request of the session is ever given a reply to it. */
  lemma AnsweredIff(calls: seq<Exchange>, k: nat)
    requires k < |calls|
    ensures var lines, id, r := Before(calls, k), k + 1, ResponseAt(calls, k);
            && (r.Value? || r.ServerError? <==> HasReply(lines, id))
            && (forall i | IsFirstReply(lines, id, i) :: r == ResponseOf(lines[i]) && Unread(calls, k + 1) == lines[i + 1..])
            && (r.TimedOut? || r.Exited? ==>
                  && Unread(calls, k + 1) == [] && (r.Exited? <==> calls[k].exits)
                  && forall f | f in Fates(calls, |calls|) && f.Delivered? :: f.to != k + 1)
  {
    ReadAnswers(Before(calls, k), k + 1, calls[k].exits);
    hide ReadUntil, ResponseTo, IsFirstReply, HasReply, IsReply, Fates;
    if ResponseAt(calls, k).TimedOut? || ResponseAt(calls, k).Exited? {
      NeverDelivered(calls, k, |calls|);
    }
  }

  predicate HasReply(lines: seq<Line>, id: int) {
    exists i | 0 <= i < |lines| :: IsReply(lines[i], id)
  }

  predicate IsFirstReply(lines: seq<Line>, id: int, i: int) {
    0 <= i < |lines| && IsReply(lines[i], id) && forall j | 0 <= j < i :: !IsReply(lines[j], id)
  }

  lemma {:induction false} ReadLength(lines: seq<Line>, id: int, i: nat)
    requires IsFirstReply(lines, id, i)
    ensures |ReadUntil(lines, id)| == i + 1 && ReadUntil(lines, id)[i] == Delivered(lines[i], id)
  {
    if i > 0 {
      assert !IsReply(lines[0], id);
      ReadLength(lines[1..], id, i - 1);
    }
  }

  lemma FirstReply(lines: seq<Line>, id: int, i: nat) returns (first: nat)
    requires i < |lines| && IsReply(lines[i], id)
    ensures first <= i && IsFirstReply(lines, id, first)
  {
    first := 0;
    while !IsReply(lines[first], id)
      invariant first <= i && forall j | 0 <= j < first :: !IsReply(lines[j], id)
      decreases i - first
    {
      first := first + 1;
    }
  }

  lemma {:induction false} NeverDelivered(calls: seq<Exchange>, k: nat, n: nat)
    requires k < n <= |calls| && (ResponseAt(calls, k).TimedOut? || ResponseAt(calls, k).Exited?)
    ensures forall f | f in Fates(calls, n) && f.Delivered? :: f.to != k + 1
  {
    hide *;
    ReadAnswers(Before(calls, n - 1), n, calls[n - 1].exits);
    FatesStep(calls, n);
    if n == k + 1 {
      SessionSound(calls, k);
      SoundBounds(Fates(calls, k), k);
    } else {
      NeverDelivered(calls, k, n - 1);
    }
  }

  lemma FatesStep(calls: seq<Exchange>, n: nat)
    requires 0 < n <= |calls|
    ensures Fates(calls, n) == Fates(calls, n - 1) + ReadUntil(Before(calls, n - 1), n)
    ensures Written(calls, n) == Written(calls, n - 1) + [Call(n, calls[n - 1].method_)] + RefusalsOf(ReadUntil(Before(calls, n - 1), n))
    ensures Unread(calls, n) == Before(calls, n - 1)[|ReadUntil(Before(calls, n - 1), n)|..]
    ensures Before(calls, n - 1) == Unread(calls, n - 1) + calls[n - 1].arrivals
    ensures Arrivals(calls[..n]) == Arrivals(calls[..n - 1]) + calls[n - 1].arrivals
    ensures ResponseAt(calls, n - 1) == ResponseTo(ReadUntil(Before(calls, n - 1), n), calls[n - 1].exits)
  {
    assert calls[..n][..n - 1] == calls[..n - 1];
  }

  lemma SoundBounds(fates: seq<Fate>, lastId: int)
    requires Sound(fates, lastId)
    ensures forall f | f in fates && f.Delivered? :: f.to <= lastId
  {
    assert forall i | 0 <= i < |fates| :: FateSound(fates[i], lastId);
  }

  lemma LinesAppend(a: seq<Fate>, b: seq<Fate>)
    ensures Lines(a + b) == Lines(a) + Lines(b)
  {
  }
}
