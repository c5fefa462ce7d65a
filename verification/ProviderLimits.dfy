/** A run's provider signals folded into one failure. */
module ProviderLimits {
  import opened Prelude

  datatype Code = QuotaExhausted | RateLimited | OtherCode(name: string)

  /** Instants are whole microseconds, UTC. */
  datatype ProviderFailure =
    ProviderFailure(code: Option<Code>, text: string, resetsAt: Option<int>, fromText: bool, structured: bool)

  // ---- One signal ---------------------------------------------------------

  /** What a failure looks like when one of the two constructors below built it. */
  predicate Built(f: ProviderFailure) {
    && (f.resetsAt.Some? ==> f.code == Some(QuotaExhausted))
    && (f.structured <==> !f.fromText && f.resetsAt.Some?)
    && (!f.fromText ==> f.text != "" && (f.code == Some(QuotaExhausted) || f.code == Some(RateLimited)))
  }

  /** A message's text as the sentence finder, the classifier and the reset parser read it. */
  datatype TextReading =
    TextReading(text: string, sentence: Option<string>, classified: Option<Code>, sentenceReset: Option<int>, textReset: Option<int>)

  function FailureFromText(m: TextReading, flag: Option<Code>, fallbackText: string): (f: ProviderFailure)
    ensures Built(f) && f.fromText
    ensures m.sentence.Some? ==> f.code == Some(QuotaExhausted)
  {
    if m.sentence.Some? then ProviderFailure(Some(QuotaExhausted), m.sentence.value, m.sentenceReset, true, false)
    else
      var code := if flag.None? && m.text != "" then m.classified else flag;
      ProviderFailure(code, if m.text != "" then m.text else fallbackText,
                      if code == Some(QuotaExhausted) then m.textReset else None, true, false)
  }

  datatype RateLimitInfo =
    RateLimitInfo(rejected: bool, continuing: bool, window: string, resetsAt: Option<int>,
                  overageRejected: bool, overageResetsAt: Option<int>)

  function Earliest(a: Option<int>, b: Option<int>): Option<int> {
    if a.None? then b else if b.None? || a.value <= b.value then a else b
  }

  /** The earliest of the known instants, or None when none is known. */
  predicate IsEarliest(at: Option<int>, known: seq<Option<int>>) {
    && (at.None? <==> forall i | 0 <= i < |known| :: known[i].None?)
    && (at.Some? ==> at in known && forall i | 0 <= i < |known| && known[i].Some? :: at.value <= known[i].value)
  }

  function FailureFromRateLimitInfo(info: RateLimitInfo, iso: int -> string): (f: Option<ProviderFailure>)
    ensures f.Some? <==> info.rejected && !info.continuing
    ensures f.Some? ==> Built(f.value) && !f.value.fromText
    ensures f.Some? ==> (f.value.code == Some(QuotaExhausted) <==> info.window != "")
    ensures f.Some? && info.window != "" ==>
              IsEarliest(f.value.resetsAt, [info.resetsAt] + (if info.overageRejected then [info.overageResetsAt] else []))
  {
    if !info.rejected || info.continuing then None
    else if info.window == "" then Some(ProviderFailure(Some(RateLimited), "rate limit rejected", None, false, false))
    else
      var reset := Earliest(info.resetsAt, if info.overageRejected then info.overageResetsAt else None);
      assert [info.resetsAt] + [] == [info.resetsAt] && [info.resetsAt][0] == info.resetsAt;
      assert [info.resetsAt] + [info.overageResetsAt] == [info.resetsAt, info.overageResetsAt]
             && [info.resetsAt, info.overageResetsAt][0] == info.resetsAt
             && [info.resetsAt, info.overageResetsAt][1] == info.overageResetsAt;
      var text := "usage limit reached for the " + info.window + " window"
                  + (if reset.Some? then " \U{B7} resets " + iso(reset.value) else "");
      Some(ProviderFailure(Some(QuotaExhausted), text, reset, false, reset.Some?))
  }

  // ---- The whole run ------------------------------------------------------

  function Merge(prior: Option<ProviderFailure>, new_: ProviderFailure): ProviderFailure {
    if prior.None? then new_ else
      var p := prior.value;
      var first := if p.code.Some? then p.code else new_.code;
      var code := if new_.code == Some(QuotaExhausted) && first == Some(RateLimited) then Some(QuotaExhausted) else first;
      var m1 := if new_.text != "" && (p.text == "" || (!p.fromText && new_.fromText))
                then p.(text := new_.text, fromText := new_.fromText) else p;
      var m2 := if new_.resetsAt.Some? && (p.resetsAt.None? || (new_.structured && !p.structured))
                then m1.(resetsAt := new_.resetsAt, structured := new_.structured) else m1;
      var m3 := m2.(code := code);
      if code != Some(QuotaExhausted) && m3.resetsAt.Some? then m3.(resetsAt := None, structured := false) else m3
  }

  function Fold(signals: seq<ProviderFailure>): Option<ProviderFailure> {
    if signals == [] then None else Some(Merge(Fold(signals[..|signals| - 1]), signals[|signals| - 1]))
  }

  // ---- What the fold means, without folding -------------------------------

  ghost predicate AllBuilt(signals: seq<ProviderFailure>) {
    forall i | 0 <= i < |signals| :: Built(signals[i])
  }

  ghost predicate AnyQuota(signals: seq<ProviderFailure>) {
    exists i :: 0 <= i < |signals| && signals[i].code == Some(QuotaExhausted)
  }

  /** What a signal says of one kind: its code, its own or composed text, its structured or textual reset. */
  datatype Field = TheCode | TheText(own: bool) | TheReset(structured: bool)
  datatype Said = Nothing | SaidCode(code: Code) | SaidText(text: string) | SaidReset(at: int)

  function Says(f: ProviderFailure, field: Field): Said {
    match field
    case TheCode => if f.code.Some? then SaidCode(f.code.value) else Nothing
    case TheText(own) => if f.text != "" && f.fromText == own then SaidText(f.text) else Nothing
    case TheReset(structured) =>
      if f.resetsAt.Some? && f.structured == structured then SaidReset(f.resetsAt.value) else Nothing
  }

  /** What the first signal that says anything of the field says. */
  function First(signals: seq<ProviderFailure>, field: Field): (said: Said)
    ensures said == Nothing || (field.TheCode? && said.SaidCode?) || (field.TheText? && said.SaidText? && said.text != "")
            || (field.TheReset? && said.SaidReset?)
  {
    if signals == [] then Nothing else
      var before := First(signals[..|signals| - 1], field);
      if before != Nothing then before else Says(signals[|signals| - 1], field)
  }

  lemma {:induction false} FirstIsFirst(signals: seq<ProviderFailure>, field: Field)
    ensures First(signals, field) == Nothing ==> forall i | 0 <= i < |signals| :: Says(signals[i], field) == Nothing
    ensures First(signals, field) != Nothing ==>
              exists k :: 0 <= k < |signals| && First(signals, field) == Says(signals[k], field)
                          && forall i | 0 <= i < k :: Says(signals[i], field) == Nothing
  {
    if signals != [] {
      var init := signals[..|signals| - 1];
      FirstIsFirst(init, field);
      if First(init, field) != Nothing {
        var k :| 0 <= k < |init| && First(init, field) == Says(init[k], field)
                 && forall i | 0 <= i < k :: Says(init[i], field) == Nothing;
        assert signals[k] == init[k] && forall i | 0 <= i < k :: signals[i] == init[i];
      } else {
        assert forall i | 0 <= i < |init| :: signals[i] == init[i];
      }
    }
  }

  /** The first code stands, but any spent window outranks a first rate limit. */
  ghost predicate CodeIs(signals: seq<ProviderFailure>, code: Option<Code>) {
    CodeOf(First(signals, TheCode), AnyQuota(signals), code)
  }

  predicate CodeOf(first: Said, quota: bool, code: Option<Code>) {
    code == if first.SaidCode? then Some(if first.code == RateLimited && quota then QuotaExhausted else first.code) else None
  }

  /** The provider's first own sentence; else the first composed text; else nothing. */
  ghost predicate TextIs(signals: seq<ProviderFailure>, text: string, fromText: bool) {
    match First(signals, TheText(true))
    case SaidText(own) => text == own && fromText
    case _ =>
      match First(signals, TheText(false))
      case SaidText(composed) => text == composed && !fromText
      case _ => text == "" && fromText
  }

  /** For a spent window the first structured reset, else the first one read from text; for anything else none. */
  ghost predicate ResetIs(signals: seq<ProviderFailure>, code: Option<Code>, reset: Option<int>, structured: bool) {
    ResetOf(First(signals, TheReset(true)), First(signals, TheReset(false)), code, reset, structured)
  }

  predicate ResetOf(first: Said, textual: Said, code: Option<Code>, reset: Option<int>, structured: bool) {
    if code != Some(QuotaExhausted) then reset == None && !structured
    else if first.SaidReset? then reset == Some(first.at) && structured
    else if textual.SaidReset? then reset == Some(textual.at) && !structured
    else reset == None && !structured
  }

  function Then(said: Said, next: Said): Said {
    if said != Nothing then said else next
  }

  lemma ResetStep(p: ProviderFailure, last: ProviderFailure, first: Said, textual: Said)
    requires Built(last) && ResetOf(first, textual, p.code, p.resetsAt, p.structured)
    requires first == Nothing || first.SaidReset?
    requires textual == Nothing || textual.SaidReset?
    requires p.code != Some(QuotaExhausted) && Merge(Some(p), last).code == Some(QuotaExhausted) ==> first == textual == Nothing
    ensures var m := Merge(Some(p), last);
            ResetOf(Then(first, Says(last, TheReset(true))), Then(textual, Says(last, TheReset(false))),
                    m.code, m.resetsAt, m.structured)
  {
  }

  lemma AnyQuotaStep(signals: seq<ProviderFailure>, init: seq<ProviderFailure>, last: ProviderFailure)
    requires signals == init + [last]
    ensures AnyQuota(signals) <==> AnyQuota(init) || last.code == Some(QuotaExhausted)
    ensures AllBuilt(signals) ==> AllBuilt(init) && Built(last)
  {
    assert signals[|init|] == last;
    assert forall i | 0 <= i < |init| :: signals[i] == init[i];
  }

  lemma {:induction false} QuotaSaid(signals: seq<ProviderFailure>)
    requires AnyQuota(signals)
    ensures First(signals, TheCode) != Nothing
  {
    FirstIsFirst(signals, TheCode);
  }

  lemma FirstStep(signals: seq<ProviderFailure>, init: seq<ProviderFailure>, last: ProviderFailure, field: Field)
    requires signals == init + [last]
    ensures First(signals, field) == if First(init, field) != Nothing then First(init, field) else Says(last, field)
  {
    assert signals[..|signals| - 1] == init;
  }

  lemma MergeNone(last: ProviderFailure)
    ensures Merge(None, last) == last
  {
  }

  lemma MergeCode(p: ProviderFailure, last: ProviderFailure)
    ensures var first := if p.code.Some? then p.code else last.code;
            Merge(Some(p), last).code == if last.code == Some(QuotaExhausted) && first == Some(RateLimited)
                                         then Some(QuotaExhausted) else first
  {
  }

  lemma MergeText(p: ProviderFailure, last: ProviderFailure)
    ensures var m := Merge(Some(p), last);
            if last.text != "" && (p.text == "" || (!p.fromText && last.fromText))
            then m.text == last.text && m.fromText == last.fromText
            else m.text == p.text && m.fromText == p.fromText
  {
  }

  lemma {:induction false} FoldCode(signals: seq<ProviderFailure>)
    requires signals != []
    ensures CodeIs(signals, Fold(signals).value.code)
  {
    hide Merge, AnyQuota, First, Says, CodeOf, Fold;
    var init, last := signals[..|signals| - 1], signals[|signals| - 1];
    assert signals == init + [last];
    AnyQuotaStep(signals, init, last);
    FirstStep(signals, init, last, TheCode);
    FoldStep(signals);
    if init == [] {
      NoSignals();
      CodeAlone(last);
    } else {
      FoldCode(init);
      if AnyQuota(init) {
        QuotaSaid(init);
      }
      CodeStep(Fold(init).value, last, First(init, TheCode), AnyQuota(init));
    }
  }

  lemma FoldStep(signals: seq<ProviderFailure>)
    requires signals != []
    ensures var init, last := signals[..|signals| - 1], signals[|signals| - 1];
            && Fold(signals).Some? && (init == [] ==> Fold(signals) == Some(last))
            && (init != [] ==> Fold(init).Some? && Fold(signals) == Some(Merge(Some(Fold(init).value), last)))
  {
    MergeNone(signals[|signals| - 1]);
    hide Merge;
  }

  lemma NoSignals()
    ensures !AnyQuota([]) && First([], TheCode) == Nothing
  {
  }

  lemma CodeAlone(last: ProviderFailure)
    ensures CodeOf(Says(last, TheCode), last.code == Some(QuotaExhausted), last.code)
  {
  }

  lemma CodeStep(p: ProviderFailure, last: ProviderFailure, first: Said, quota: bool)
    requires CodeOf(first, quota, p.code) && (first == Nothing || first.SaidCode?) && (quota ==> first != Nothing)
    ensures CodeOf(if first != Nothing then first else Says(last, TheCode), quota || last.code == Some(QuotaExhausted),
                   Merge(Some(p), last).code)
  {
    MergeCode(p, last);
    hide Merge;
  }

  lemma {:induction false} FoldText(signals: seq<ProviderFailure>)
    requires signals != [] && AllBuilt(signals)
    ensures TextIs(signals, Fold(signals).value.text, Fold(signals).value.fromText)
  {
    hide Merge;
    var init, last := signals[..|signals| - 1], signals[|signals| - 1];
    assert signals == init + [last];
    AnyQuotaStep(signals, init, last);
    FirstStep(signals, init, last, TheText(true));
    FirstStep(signals, init, last, TheText(false));
    if init == [] {
      MergeNone(last);
    } else {
      FoldText(init);
      MergeText(Fold(init).value, last);
    }
  }

  /** Before a window is known to be spent, no signal carries a reset. */
  lemma {:induction false} NoResetYet(signals: seq<ProviderFailure>, structured: bool)
    requires AllBuilt(signals) && !AnyQuota(signals)
    ensures First(signals, TheReset(structured)) == Nothing
  {
    if signals != [] {
      var init, last := signals[..|signals| - 1], signals[|signals| - 1];
      AnyQuotaStep(signals, init, last);
      NoResetYet(init, structured);
    }
  }

  lemma {:induction false} FoldReset(signals: seq<ProviderFailure>)
    requires signals != [] && AllBuilt(signals)
    ensures ResetIs(signals, Fold(signals).value.code, Fold(signals).value.resetsAt, Fold(signals).value.structured)
  {
    hide Merge, AnyQuota, ResetOf;
    var init, last := signals[..|signals| - 1], signals[|signals| - 1];
    assert signals == init + [last];
    AnyQuotaStep(signals, init, last);
    FirstStep(signals, init, last, TheReset(true));
    FirstStep(signals, init, last, TheReset(false));
    if init == [] {
      MergeNone(last);
      ResetAlone(last);
    } else {
      FoldReset(init);
      if Fold(init).value.code != Some(QuotaExhausted) && Fold(signals).value.code == Some(QuotaExhausted) {
        NoResetBefore(signals, init, last);
      }
      ResetStep(Fold(init).value, last, First(init, TheReset(true)), First(init, TheReset(false)));
    }
  }

  lemma ResetAlone(f: ProviderFailure)
    requires Built(f)
    ensures ResetOf(Says(f, TheReset(true)), Says(f, TheReset(false)), f.code, f.resetsAt, f.structured)
  {
  }

  lemma NoResetBefore(signals: seq<ProviderFailure>, init: seq<ProviderFailure>, last: ProviderFailure)
    requires signals == init + [last] && init != [] && AllBuilt(signals)
    requires Fold(init).value.code != Some(QuotaExhausted) && Fold(signals).value.code == Some(QuotaExhausted)
    ensures First(init, TheReset(true)) == Nothing && First(init, TheReset(false)) == Nothing
  {
    hide Merge, AnyQuota;
    AnyQuotaStep(signals, init, last);
    FoldCode(init);
    FoldCode(signals);
    FirstStep(signals, init, last, TheCode);
    if AnyQuota(init) {
      QuotaSaid(init);
    } else {
      NoResetYet(init, true);
      NoResetYet(init, false);
    }
  }

  /** The fold of any signals the two constructors built, in closed form. */
  lemma FoldDescribed(signals: seq<ProviderFailure>)
    requires signals != [] && AllBuilt(signals)
    ensures var f := Fold(signals).value;
            && CodeIs(signals, f.code)
            && TextIs(signals, f.text, f.fromText)
            && ResetIs(signals, f.code, f.resetsAt, f.structured)
  {
    FoldCode(signals);
    FoldText(signals);
    FoldReset(signals);
  }

  /** A spent window stays spent, whatever signals follow. */
  lemma {:induction false} QuotaAbsorbs(signals: seq<ProviderFailure>, more: seq<ProviderFailure>)
    requires signals != [] && Fold(signals).value.code == Some(QuotaExhausted)
    ensures Fold(signals + more).value.code == Some(QuotaExhausted)
  {
    if more == [] {
      assert signals + more == signals;
    } else {
      QuotaAbsorbs(signals, more[..|more| - 1]);
      assert (signals + more)[..|signals + more| - 1] == signals + more[..|more| - 1];
    }
  }
}
