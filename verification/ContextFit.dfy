/** Keeping a conversation inside a model's context window by eliding old tool results. */
module ContextFit {
  import opened Prelude
  import opened Conversation

  const DEFAULT_TOKENS_PER_CHAR := 0.3

  /** The characters of the whole request around some messages: system prompt, tools and the messages' JSON. */
  type RequestChars = seq<Message> -> nat

  function AnswerReserve(window: nat): (r: nat)
    ensures 1024 <= r <= 8192
    ensures 8192 <= window <= 65536 ==> r == window / 8
  {
    var eighth := window / 8;
    var capped := if eighth < 8192 then eighth else 8192;
    if capped > 1024 then capped else 1024
  }

  function Estimate(chars: RequestChars, ratio: real, messages: seq<Message>): int {
    (chars(messages) as real * ratio).Floor
  }

  predicate Fits(chars: RequestChars, ratio: real, window: nat, messages: seq<Message>) {
    Estimate(chars, ratio, messages) + AnswerReserve(window) <= window
  }

  // ---- Eliding ------------------------------------------------------------

  const ELIDED_PREFIX := "[earlier tool output elided"

  function Digit(n: nat): char
    requires n < 10
  {
    "0123456789"[n]
  }

  function Decimal(n: nat): string {
    if n < 10 then [Digit(n)] else Decimal(n / 10) + [Digit(n % 10)]
  }

  function Size(c: Content): nat {
    if c.Text? then |c.text| else |c.dump|
  }

  /** The placeholder for a tool result; applied to tool messages only. */
  function Elided(m: Message, window: nat): (e: Message)
    ensures SameShape(m, e) && !CanElide(e)
  {
    var note := " to fit the " + Decimal(window) + "-token context window: " + Decimal(Size(m.content)) + " characters]";
    assert ELIDED_PREFIX <= ELIDED_PREFIX + note;
    m.(content := Text(ELIDED_PREFIX + note))
  }

  predicate CanElide(m: Message) {
    m.Tool? && !(m.content.Text? && ELIDED_PREFIX <= m.content.text)
  }

  /** Where the latest exchange starts: the last assistant turn, or past the end. */
  function Latest(messages: seq<Message>): (n: nat)
    ensures n <= |messages|
    ensures n < |messages| ==> messages[n].Assistant? && forall i | n < i < |messages| :: !messages[i].Assistant?
    ensures n == |messages| ==> forall i | 0 <= i < |messages| :: !messages[i].Assistant?
  {
    if messages == [] then 0
    else if messages[|messages| - 1].Assistant? then |messages| - 1
    else
      var n := Latest(messages[..|messages| - 1]);
      if n == |messages| - 1 then |messages| else n
  }

  /** The conversation with every tool result before the cut-off elided, the first message apart. */
  function Cut(messages: seq<Message>, cut: nat, window: nat): (fitted: seq<Message>)
    ensures |fitted| == |messages|
    ensures forall i | 0 <= i < |messages| ::
              fitted[i] == if 1 <= i < cut && CanElide(messages[i]) then Elided(messages[i], window) else messages[i]
  {
    seq(|messages|, i requires 0 <= i < |messages| =>
      if 1 <= i < cut && CanElide(messages[i]) then Elided(messages[i], window) else messages[i])
  }

  /** The cut-offs the fit may try: nothing elided, up to everything before the latest exchange. */
  predicate Allowed(messages: seq<Message>, cut: nat) {
    1 <= cut && (cut == 1 || cut <= Latest(messages))
  }

  /** The first allowed cut-off that fits. */
  ghost predicate FirstFit(chars: RequestChars, ratio: real, window: nat, messages: seq<Message>, cut: nat) {
    && Allowed(messages, cut)
    && Fits(chars, ratio, window, Cut(messages, cut, window))
    && forall c: nat | 1 <= c < cut :: !Fits(chars, ratio, window, Cut(messages, c, window))
  }

  /** The messages as they fit the window; None where the source raises ContextWindowExceeded. */
  method FitMessages(chars: RequestChars, messages: seq<Message>, window: nat, ratio: real) returns (r: Option<seq<Message>>)
    ensures r.Some? ==> exists cut: nat :: FirstFit(chars, ratio, window, messages, cut) && r.value == Cut(messages, cut, window)
    ensures r.None? <==> forall cut: nat | Allowed(messages, cut) :: !Fits(chars, ratio, window, Cut(messages, cut, window))
  {
    assert Cut(messages, 1, window) == messages;
    if Fits(chars, ratio, window, messages) {
      assert FirstFit(chars, ratio, window, messages, 1);
      return Some(messages);
    }
    var fitted := messages;
    var latest := Latest(messages);
    var index := 1;
    while index < latest
      invariant 1 <= index && (index == 1 || index <= latest)
      invariant fitted == Cut(messages, index, window)
      invariant forall c: nat | 1 <= c <= index :: !Fits(chars, ratio, window, Cut(messages, c, window))
    {
      CutStep(messages, index, window);
      if CanElide(fitted[index]) {
        fitted := fitted[index := Elided(fitted[index], window)];
        if Fits(chars, ratio, window, fitted) {
          assert FirstFit(chars, ratio, window, messages, index + 1);
          return Some(fitted);
        }
      }
      index := index + 1;
    }
    // The source estimates once more here; nothing has changed since the last estimate.
    r := None;
  }

  lemma CutStep(messages: seq<Message>, index: nat, window: nat)
    requires 1 <= index < |messages|
    ensures Cut(messages, index + 1, window)
         == if CanElide(messages[index]) then Cut(messages, index, window)[index := Elided(messages[index], window)]
            else Cut(messages, index, window)
    ensures Cut(messages, index, window)[index] == messages[index]
  {
  }

  lemma CutShapes(messages: seq<Message>, cut: nat, window: nat)
    ensures SameShapes(messages, Cut(messages, cut, window))
  {
    forall i | 0 <= i < |messages|
      ensures SameShape(messages[i], Cut(messages, cut, window)[i])
    {
    }
  }

  /** What a fit leaves alone, at any cut-off: the length, the task, everything that is no tool result, the latest
      exchange, and who said what in answer to which call. */
  lemma CutKeeps(messages: seq<Message>, cut: nat, window: nat)
    requires Allowed(messages, cut)
    ensures messages != [] ==> Cut(messages, cut, window)[0] == messages[0]
    ensures forall i | 0 <= i < |messages| && !messages[i].Tool? :: Cut(messages, cut, window)[i] == messages[i]
    ensures forall i | Latest(messages) <= i < |messages| :: Cut(messages, cut, window)[i] == messages[i]
    ensures SameShapes(messages, Cut(messages, cut, window))
  {
    CutShapes(messages, cut, window);
  }

  /** Fitting a fitted conversation again elides only what is new: an elided result keeps the size it first recorded. */
  lemma CutTwice(messages: seq<Message>, first: nat, second: nat, window: nat)
    ensures Cut(Cut(messages, first, window), second, window)
         == Cut(messages, if first < second then second else first, window)
  {
  }

  // ---- Calibration --------------------------------------------------------

  /** The estimate never falls below half the default ratio. */
  predicate SafeRatio(ratio: real) {
    ratio >= DEFAULT_TOKENS_PER_CHAR / 2.0
  }

  function CalibratedRatio(promptTokens: int, chars: int, previous: real): (ratio: real)
    ensures SafeRatio(previous) ==> SafeRatio(ratio)
    ensures promptTokens > 0 && chars > 0 ==> SafeRatio(ratio) && ratio * chars as real >= promptTokens as real
  {
    if promptTokens <= 0 || chars <= 0 then previous
    else
      var measured := promptTokens as real / chars as real;
      var floor := DEFAULT_TOKENS_PER_CHAR / 2.0;
      if measured > floor then measured else floor
  }

  /** With a safe ratio a request let through is no longer than the window's budget allows at half the default ratio. */
  lemma FitBoundsChars(chars: RequestChars, ratio: real, window: nat, messages: seq<Message>)
    requires SafeRatio(ratio) && Fits(chars, ratio, window, messages)
    ensures chars(messages) as real * (DEFAULT_TOKENS_PER_CHAR / 2.0) < (window - AnswerReserve(window) + 1) as real
  {
    hide AnswerReserve, SafeRatio;
    BoundedProduct(chars(messages) as real, DEFAULT_TOKENS_PER_CHAR / 2.0, ratio, window - AnswerReserve(window)) by {
      SafeIsAbove(ratio);
    }
  }

  lemma SafeIsAbove(ratio: real)
    requires SafeRatio(ratio)
    ensures DEFAULT_TOKENS_PER_CHAR / 2.0 <= ratio
  {
  }

  lemma BoundedProduct(x: real, low: real, ratio: real, budget: int)
    requires 0.0 <= x && low <= ratio && (x * ratio).Floor <= budget
    ensures x * low < (budget + 1) as real
  {
    Scale(x, low, ratio);
    FloorBelow(x * ratio, budget);
  }

  lemma FloorBelow(product: real, budget: int)
    requires product.Floor <= budget
    ensures product < (budget + 1) as real
  {
  }

  lemma Scale(x: real, a: real, b: real)
    requires 0.0 <= x && a <= b
    ensures x * a <= x * b
  {
    assert x * b - x * a == x * (b - a);
  }
}
