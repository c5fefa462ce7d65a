/** The audit log's JSONL file: locked appends against a prune that scans without the lock. */
module AuditLog {
  import opened Prelude

  type Text = seq<char>

  /** When a line parses to a dated event, its timestamp; nothing for a malformed or undatable line. */
  type Stamps = Text -> Option<int>

  predicate LineExpired(stamps: Stamps, line: Text, cutoff: int) {
    stamps(line).Some? && stamps(line).value < cutoff
  }

  // ---- Lines --------------------------------------------------------------

  ghost predicate OneLine(s: Text) {
    s != [] && forall i | 0 <= i < |s| - 1 :: s[i] != '\n'
  }

  predicate Terminated(s: Text) {
    s != [] && s[|s| - 1] == '\n'
  }

  /** What readline returns at the start of s: to the first newline, or to the end when there is none. */
  function ReadLine(s: Text): (line: Text)
    requires s != []
    ensures line <= s && OneLine(line) && (Terminated(line) || line == s)
  {
    if s[0] == '\n' || |s| == 1 then [s[0]] else
      var rest := ReadLine(s[1..]);
      assert s == [s[0]] + s[1..];
      [s[0]] + rest
  }

  function Lines(s: Text): seq<Text>
    decreases |s|
  {
    if s == [] then [] else [ReadLine(s)] + Lines(s[|ReadLine(s)|..])
  }

  function Concat(lines: seq<Text>): Text {
    if lines == [] then [] else lines[0] + Concat(lines[1..])
  }

  function Kept(stamps: Stamps, cutoff: int, lines: seq<Text>): Text {
    if lines == [] then [] else
      (if LineExpired(stamps, lines[0], cutoff) then [] else lines[0]) + Kept(stamps, cutoff, lines[1..])
  }

  function ExpiredCount(stamps: Stamps, cutoff: int, lines: seq<Text>): nat {
    if lines == [] then 0 else
      (if LineExpired(stamps, lines[0], cutoff) then 1 else 0) + ExpiredCount(stamps, cutoff, lines[1..])
  }

  lemma {:induction false} AppendConcat(lines: seq<Text>, line: Text)
    ensures Concat(lines + [line]) == Concat(lines) + line
  {
    if lines == [] {
      assert [line][1..] == [] && lines + [line] == [line];
    } else {
      AppendConcat(lines[1..], line);
      assert (lines + [line])[1..] == lines[1..] + [line];
      assert lines[0] + (Concat(lines[1..]) + line) == lines[0] + Concat(lines[1..]) + line;
    }
  }

  lemma {:induction false} AppendKept(stamps: Stamps, cutoff: int, lines: seq<Text>, line: Text)
    ensures Kept(stamps, cutoff, lines + [line])
         == Kept(stamps, cutoff, lines) + (if LineExpired(stamps, line, cutoff) then [] else line)
    ensures ExpiredCount(stamps, cutoff, lines + [line])
         == ExpiredCount(stamps, cutoff, lines) + (if LineExpired(stamps, line, cutoff) then 1 else 0)
  {
    if lines == [] {
      assert [line][1..] == [] && lines + [line] == [line];
    } else {
      AppendKept(stamps, cutoff, lines[1..], line);
      assert (lines + [line])[1..] == lines[1..] + [line];
      var first := if LineExpired(stamps, lines[0], cutoff) then [] else lines[0];
      var last := if LineExpired(stamps, line, cutoff) then [] else line;
      assert first + (Kept(stamps, cutoff, lines[1..]) + last) == first + Kept(stamps, cutoff, lines[1..]) + last;
    }
  }

  // ---- What a scan that races appends may read ----------------------------

  /** Lines as a scan read them: a piece without its newline was read at what was then the end of the file. */
  ghost predicate Scanned(lines: seq<Text>, initial: nat)
    decreases |lines|
  {
    lines != [] ==>
      OneLine(lines[0]) && (Terminated(lines[0]) || |lines[0]| >= initial)
      && Scanned(lines[1..], if |lines[0]| >= initial then 0 else initial - |lines[0]|)
  }

  lemma {:induction false} ScannedAppend(lines: seq<Text>, line: Text, initial: nat)
    requires Scanned(lines, initial) && OneLine(line)
    requires Terminated(line) || |Concat(lines)| + |line| >= initial
    ensures Scanned(lines + [line], initial)
  {
    if lines == [] {
      assert lines + [line] == [line] && [line][1..] == [];
    } else {
      ScannedAppend(lines[1..], line, if |lines[0]| >= initial then 0 else initial - |lines[0]|);
      assert (lines + [line])[1..] == lines[1..] + [line];
    }
  }

  ghost predicate WholeLines(s: Text) {
    s == [] || Terminated(s)
  }

  /** No piece of one line of the text, cut anywhere, reads as an expired event. */
  ghost predicate Fresh(stamps: Stamps, cutoff: int, text: Text) {
    forall i, j | 0 <= i < j <= |text| && OneLine(text[i..j]) :: !LineExpired(stamps, text[i..j], cutoff)
  }

  lemma FreshDrop(stamps: Stamps, cutoff: int, text: Text, n: nat)
    requires Fresh(stamps, cutoff, text) && n <= |text|
    ensures Fresh(stamps, cutoff, text[n..])
  {
    var rest := text[n..];
    forall i, j | 0 <= i < j <= |rest| && OneLine(rest[i..j])
      ensures !LineExpired(stamps, rest[i..j], cutoff)
    {
      assert rest[i..j] == text[n + i..n + j];
    }
  }

  /** Nothing of fresh text is dropped, wherever the scan cut it. */
  lemma {:induction false} FreshKept(stamps: Stamps, cutoff: int, lines: seq<Text>, text: Text, initial: nat)
    requires Fresh(stamps, cutoff, text) && Scanned(lines, initial) && Concat(lines) <= text
    ensures Kept(stamps, cutoff, lines) == Concat(lines) && ExpiredCount(stamps, cutoff, lines) == 0
    decreases |lines|
  {
    if lines != [] {
      var n := |lines[0]|;
      assert lines[0] == text[0..n];
      FreshDrop(stamps, cutoff, text, n);
      assert Concat(lines[1..]) <= text[n..];
      FreshKept(stamps, cutoff, lines[1..], text[n..], if n >= initial then 0 else initial - n);
    }
  }

  /** The scan's first line is the text's first line, as long as the text starts with whole lines. */
  lemma FirstLine(head: Text, text: Text, line: Text, initial: nat)
    requires head != [] && Terminated(head) && head <= text && line <= text && |head| <= initial
    requires OneLine(line) && (Terminated(line) || |line| >= initial)
    ensures line == ReadLine(head)
  {
    var first := ReadLine(head);
    assert text[|first| - 1] == '\n';
    assert forall i | 0 <= i < |first| - 1 :: text[i] != '\n';
    assert forall i | 0 <= i < |line| - 1 :: text[i] != '\n';
    assert line[|line| - 1] == text[|line| - 1];
    assert line == text[..|line|] && first == text[..|first|];
  }

  lemma ConcatHead(lines: seq<Text>, rest: Text, text: Text)
    requires lines != [] && Concat(lines) + rest == text
    ensures lines[0] <= text && Concat(lines[1..]) + rest == text[|lines[0]|..]
  {
    assert Concat(lines) + rest == lines[0] + (Concat(lines[1..]) + rest);
  }

  lemma DropHead(head: Text, tail: Text, line: Text)
    requires line <= head
    ensures line <= head + tail && (head + tail)[|line|..] == head[|line|..] + tail
    ensures WholeLines(head) ==> WholeLines(head[|line|..])
  {
  }

  lemma PutBack(dropped: Text, a: Text, b: Text, x: Text, y: Text)
    requires a + x == b + y
    ensures (dropped + a) + x == (dropped + b) + y
  {
    assert (dropped + a) + x == dropped + (a + x);
    assert (dropped + b) + y == dropped + (b + y);
  }

  lemma {:induction false} NoneExpired(stamps: Stamps, cutoff: int, lines: seq<Text>)
    requires ExpiredCount(stamps, cutoff, lines) == 0
    ensures Kept(stamps, cutoff, lines) == Concat(lines)
  {
    if lines != [] {
      NoneExpired(stamps, cutoff, lines[1..]);
    }
  }

  /** Pruning a file of whole lines followed by fresh text drops exactly the expired lines of the first part. */
  lemma {:induction false} PruneExact(stamps: Stamps, cutoff: int, head: Text, tail: Text, lines: seq<Text>, rest: Text, initial: nat)
    requires WholeLines(head) && Fresh(stamps, cutoff, tail)
    requires Concat(lines) + rest == head + tail && |head| <= initial && |head| <= |Concat(lines)| && Scanned(lines, initial)
    ensures Kept(stamps, cutoff, lines) + rest == Kept(stamps, cutoff, Lines(head)) + tail
    ensures ExpiredCount(stamps, cutoff, lines) == ExpiredCount(stamps, cutoff, Lines(head))
    decreases |lines|
  {
    hide Fresh;
    if head == [] {
      assert head + tail == tail;
      assert Concat(lines) <= tail by {
        assert Concat(lines) == (Concat(lines) + rest)[..|Concat(lines)|];
      }
      FreshKept(stamps, cutoff, lines, tail, initial);
    } else {
      var line := lines[0];
      var n := |line|;
      ConcatHead(lines, rest, head + tail);
      FirstLine(head, head + tail, line, initial);
      DropHead(head, tail, line);
      PruneExact(stamps, cutoff, head[n..], tail, lines[1..], rest, if n >= initial then 0 else initial - n);
      PutBack(if LineExpired(stamps, line, cutoff) then [] else line,
              Kept(stamps, cutoff, lines[1..]), Kept(stamps, cutoff, Lines(head[n..])), rest, tail);
    }
  }

  // ---- The file -----------------------------------------------------------

  /** The scan has read lines, the first offset bytes, and written the unexpired ones. */
  ghost predicate ScanInv(stamps: Stamps, cutoff: int, bytes: Text, offset: nat, lines: seq<Text>, initial: nat,
                          destination: Text, pruned: nat)
  {
    && offset <= |bytes| && initial <= |bytes| && Concat(lines) == bytes[..offset] && Scanned(lines, initial)
    && destination == Kept(stamps, cutoff, lines) && pruned == ExpiredCount(stamps, cutoff, lines)
  }

  lemma ScanStart(stamps: Stamps, cutoff: int, bytes: Text)
    ensures ScanInv(stamps, cutoff, bytes, 0, [], |bytes|, [], 0)
  {
  }

  lemma ScanGrow(stamps: Stamps, cutoff: int, bytes: Text, more: Text, offset: nat, lines: seq<Text>, initial: nat,
                 destination: Text, pruned: nat)
    requires ScanInv(stamps, cutoff, bytes, offset, lines, initial, destination, pruned)
    ensures ScanInv(stamps, cutoff, bytes + more, offset, lines, initial, destination, pruned)
  {
    assert (bytes + more)[..offset] == bytes[..offset];
  }

  lemma ScanStep(stamps: Stamps, cutoff: int, bytes: Text, offset: nat, lines: seq<Text>, initial: nat,
                 destination: Text, pruned: nat)
    requires ScanInv(stamps, cutoff, bytes, offset, lines, initial, destination, pruned) && offset < |bytes|
    ensures var raw := ReadLine(bytes[offset..]);
            && 0 < |raw| <= |bytes| - offset
            && if LineExpired(stamps, raw, cutoff)
               then ScanInv(stamps, cutoff, bytes, offset + |raw|, lines + [raw], initial, destination, pruned + 1)
               else ScanInv(stamps, cutoff, bytes, offset + |raw|, lines + [raw], initial, destination + raw, pruned)
  {
    var raw := ReadLine(bytes[offset..]);
    assert bytes[..offset] + raw == bytes[..offset + |raw|];
    AppendConcat(lines, raw);
    AppendKept(stamps, cutoff, lines, raw);
    ScannedAppend(lines, raw, initial);
  }

  /** What the scan has read and written, beside the file with more appended. */
  lemma ScanHolds(stamps: Stamps, cutoff: int, bytes: Text, more: Text, offset: nat, lines: seq<Text>, initial: nat,
                  destination: Text, pruned: nat)
    requires ScanInv(stamps, cutoff, bytes, offset, lines, initial, destination, pruned)
    ensures offset == |Concat(lines)| <= |bytes + more| && Concat(lines) <= bytes && Concat(lines) <= bytes + more
    ensures Concat(lines) + (bytes + more)[offset..] == bytes + more && Concat(lines) + bytes[offset..] == bytes
    ensures Scanned(lines, initial) && destination == Kept(stamps, cutoff, lines) && pruned == ExpiredCount(stamps, cutoff, lines)
  {
    assert (bytes + more)[..offset] == bytes[..offset];
  }

  datatype Outcome = Pruned(count: nat) | Failed

  /** What other threads have appended before the first n steps. */
  function Landed(appends: seq<Text>, n: nat): Text {
    Concat(appends[..if n < |appends| then n else |appends|])
  }

  lemma LandedNext(appends: seq<Text>, n: nat)
    ensures Landed(appends, n + 1) == Landed(appends, n) + (if n < |appends| then appends[n] else [])
  {
    if n < |appends| {
      AppendConcat(appends[..n], appends[n]);
      assert appends[..n + 1] == appends[..n] + [appends[n]];
    } else {
      assert Landed(appends, n) + [] == Landed(appends, n);
    }
  }

  lemma LandedNone(history: Text, appends: seq<Text>)
    ensures history + Landed(appends, 0) == history
  {
  }

  lemma LandedMore(history: Text, appends: seq<Text>, n: nat, now: Text)
    requires now == history + Landed(appends, n)
    ensures (if n < |appends| then now + appends[n] else now) == history + Landed(appends, n + 1)
  {
    LandedNext(appends, n);
    hide Landed;
    if n < |appends| {
      assert (history + Landed(appends, n)) + appends[n] == history + (Landed(appends, n) + appends[n]);
    } else {
      assert Landed(appends, n) + [] == Landed(appends, n);
    }
  }

  /** The steps of a prune that has read n lines: one for each, one for the end, and, with lines to prune, the drain. */
  function StepsTaken(outcome: Outcome, n: nat, failAt: Option<nat>): nat {
    if outcome.Failed? then (if failAt.Some? then failAt.value + 1 else 0)
    else if outcome.count == 0 then n + 1 else n + 2
  }

  class LogFile {
    var bytes: Text
    /** The temp file beside the log; None when there is none. */
    var temp: Option<Text>
    /** Everything ever appended after the file's first contents, in order. */
    ghost var history: Text

    constructor (contents: Text)
      ensures bytes == contents && history == contents && temp == None
    {
      bytes, temp, history := contents, None, contents;
    }

    /** A write by the thread that holds the file lock: one event's line, or a piece of it. */
    method Append(piece: Text)
      modifies this`bytes, this`history
      ensures bytes == old(bytes) + piece && history == old(history) + piece
    {
      bytes, history := bytes + piece, history + piece;
    }

    /** The unlocked scan, to the end of the file. Before each of its steps another thread may append: appends[k] is what
        lands before step k. It fails at step failAt, if it gets there. */
    method Scan(stamps: Stamps, cutoff: int, appends: seq<Text>, failAt: Option<nat>)
        returns (failed: bool, steps: nat, offset: nat, pruned: nat, destination: Text, ghost lines: seq<Text>)
      requires bytes == history
      modifies this`bytes, this`history
      // A step reads a line; the last finds the end of the file. Each failed or completed after its appends landed.
      ensures bytes == history == old(history) + Landed(appends, if failed then steps + 1 else steps)
      ensures ScanInv(stamps, cutoff, bytes, offset, lines, |old(history)|, destination, pruned)
      ensures if failed then failAt == Some(steps) && steps == |lines|
              else steps == |lines| + 1 && |old(history)| <= offset == |bytes| && (failAt.Some? ==> failAt.value >= steps)
    {
      hide ScanInv, ReadLine, LineExpired, Landed;
      LandedNone(history, appends);
      failed, steps, offset, pruned, destination, lines := false, 0, 0, 0, [], [];
      ghost var initial := |history|;
      ScanStart(stamps, cutoff, bytes);
      while true
        invariant bytes == history == old(history) + Landed(appends, steps) && initial == |old(history)| && offset <= |bytes|
        invariant steps == |lines| && (failAt.Some? ==> failAt.value >= steps)
        invariant ScanInv(stamps, cutoff, bytes, offset, lines, initial, destination, pruned)
        decreases if steps < |appends| then |appends| - steps else 0, |bytes| - offset
      {
        LandedMore(old(history), appends, steps, history);
        if steps < |appends| {
          ScanGrow(stamps, cutoff, bytes, appends[steps], offset, lines, initial, destination, pruned);
          Append(appends[steps]);
        }
        if failAt == Some(steps) {
          failed := true;
          return;
        }
        steps := steps + 1;
        if offset == |bytes| {
          return;
        }
        ScanStep(stamps, cutoff, bytes, offset, lines, initial, destination, pruned);
        var raw := ReadLine(bytes[offset..]);
        if LineExpired(stamps, raw, cutoff) {
          pruned := pruned + 1;
        } else {
          destination := destination + raw;
        }
        lines := lines + [raw];
        offset := offset + |raw|;
      }
    }

    /** Drops the lines older than cutoff. From taking the lock to the rename no other thread appends. */
    method Prune(stamps: Stamps, cutoff: int, appends: seq<Text>, failAt: Option<nat>)
        returns (outcome: Outcome, ghost lines: seq<Text>, ghost rest: Text)
      requires bytes == history
      modifies this
      ensures temp == None
      ensures history == old(history) + Landed(appends, StepsTaken(outcome, |lines|, failAt))
      ensures Scanned(lines, |old(history)|) && Concat(lines) <= history
      ensures outcome.Failed? ==> bytes == history
      // It fails exactly where it is made to, if it gets there: at a line, at the end, or in the drain that only pruned
      // lines lead to.
      ensures outcome.Failed? ==>
                failAt.Some? && (failAt.value == |lines|
                                 || (failAt.value == |lines| + 1 && ExpiredCount(stamps, cutoff, lines) > 0))
      ensures outcome.Pruned? && failAt.Some? ==> failAt.value > |lines| && (failAt.value == |lines| + 1 ==> outcome.count == 0)
      ensures outcome.Pruned? ==>
                && history == Concat(lines) + rest && bytes == Kept(stamps, cutoff, lines) + rest
                && outcome.count == ExpiredCount(stamps, cutoff, lines)
                && |old(history)| <= |Concat(lines)|
    {
      hide Landed, Scanned, Kept, ExpiredCount, ScanInv, Concat;
      temp := Some([]);
      var failed, steps, offset, pruned, destination;
      failed, steps, offset, pruned, destination, lines := Scan(stamps, cutoff, appends, failAt);
      rest := [];
      ScanHolds(stamps, cutoff, bytes, [], offset, lines, |old(history)|, destination, pruned);
      if failed {
        temp := None;
        return Failed, lines, rest;
      }
      if pruned == 0 {
        NoneExpired(stamps, cutoff, lines);
        rest, temp := bytes[offset..], None;
        return Pruned(0), lines, rest;
      }
      LandedMore(old(history), appends, steps, history);
      if steps < |appends| {
        ScanHolds(stamps, cutoff, bytes, appends[steps], offset, lines, |old(history)|, destination, pruned);
        Append(appends[steps]);
      }
      // The lock is held from here to the rename.
      rest := bytes[offset..];
      if failAt == Some(steps) {
        temp := None;
        return Failed, lines, rest;
      }
      bytes, temp := destination + bytes[offset..], None;
      outcome := Pruned(pruned);
    }

    /** The same prune, for a file of whole lines that only events of after the cutoff are appended to: the result does
        not depend on when they arrived or how the scan cut them. */
    method PruneWithLiveAppender(stamps: Stamps, cutoff: int, appends: seq<Text>, failAt: Option<nat>) returns (outcome: Outcome)
      requires bytes == history && WholeLines(bytes)
      modifies this
      ensures temp == None && exists n :: history == old(history) + Landed(appends, n)
      ensures outcome.Failed? ==> failAt.Some? && bytes == history
      ensures outcome.Pruned? && Fresh(stamps, cutoff, history[|old(history)|..]) ==>
                bytes == Kept(stamps, cutoff, Lines(old(history))) + history[|old(history)|..]
                && outcome.count == ExpiredCount(stamps, cutoff, Lines(old(history)))
    {
      ghost var lines, rest;
      outcome, lines, rest := Prune(stamps, cutoff, appends, failAt);
      ghost var head, tail := old(history), history[|old(history)|..];
      assert history == head + tail;
      if outcome.Pruned? && Fresh(stamps, cutoff, tail) {
        PruneExact(stamps, cutoff, head, tail, lines, rest, |head|);
      }
    }
  }
}
