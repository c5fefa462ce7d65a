/** Provider fallback: which providers are paused, and which model stands in for each. */
module Fallback {
  import opened Prelude

  type Model = string
  type Provider = string

  /** The catalogue's answer to which provider serves a model; anthropic where it has none. */
  type Catalogue = map<Model, Provider>

  function ModelProvider(c: Catalogue, model: Model): Provider {
    if model in c then c[model] else "anthropic"
  }

  datatype Pause = Pause(provider: Provider, reason: string, until: Option<int>)

  datatype ModelFallback = ModelFallback(pausedProvider: Provider, model: Model, provider: Provider, reason: string, until: Option<int>)

  type Plan = map<Provider, ModelFallback>

  function ForPause(c: Catalogue, pause: Pause, model: Model): ModelFallback {
    ModelFallback(pause.provider, model, ModelProvider(c, model), pause.reason, pause.until)
  }

  // ---- Paused by the job's own runs ---------------------------------------

  datatype Output = Output(provider: Provider, errorCode: string, resetsAt: Option<int>)

  function PauseReason(code: string): Option<string> {
    if code == "ERR_PROVIDER_QUOTA_EXHAUSTED" then Some("quota_exhausted")
    else if code == "ERR_PROVIDER_RATE_LIMITED" then Some("rate_limited")
    else None
  }

  /** Output i is the provider's last one. */
  predicate IsLatest(outputs: seq<Output>, i: int, provider: Provider) {
    0 <= i < |outputs| && provider != "" && outputs[i].provider == provider
    && forall j | i < j < |outputs| :: outputs[j].provider != provider
  }

  /** The providers whose last output is an account failure, each with that output's reason and reset. */
  ghost predicate PausedByLatest(outputs: seq<Output>, paused: map<Provider, Pause>) {
    && (forall p | p in paused ::
          exists i :: IsLatest(outputs, i, p) && PauseReason(outputs[i].errorCode).Some?
                      && paused[p] == Pause(p, PauseReason(outputs[i].errorCode).value, outputs[i].resetsAt))
    && (forall i, p | IsLatest(outputs, i, p) && PauseReason(outputs[i].errorCode).Some? :: p in paused)
  }

  method PausedByOutputs(outputs: seq<Output>) returns (paused: map<Provider, Pause>)
    ensures PausedByLatest(outputs, paused)
  {
    paused := map[];
    for i := 0 to |outputs|
      invariant PausedByLatest(outputs[..i], paused)
    {
      var output := outputs[i];
      ghost var before := paused;
      if output.provider != "" {
        var reason := PauseReason(output.errorCode);
        if reason.None? {
          paused := paused - {output.provider};
        } else {
          paused := paused[output.provider := Pause(output.provider, reason.value, output.resetsAt)];
        }
      }
      LatestStep(outputs, i, before, paused);
    }
    assert outputs[..|outputs|] == outputs;
  }

  lemma LatestStep(outputs: seq<Output>, i: nat, before: map<Provider, Pause>, after: map<Provider, Pause>)
    requires i < |outputs| && PausedByLatest(outputs[..i], before)
    requires var o := outputs[i];
             after == if o.provider == "" then before
                      else if PauseReason(o.errorCode).None? then before - {o.provider}
                      else before[o.provider := Pause(o.provider, PauseReason(o.errorCode).value, o.resetsAt)]
    ensures PausedByLatest(outputs[..i + 1], after)
  {
    var was, now, o := outputs[..i], outputs[..i + 1], outputs[i];
    assert now == was + [o];
    forall k, p
      ensures IsLatest(now, k, p) <==> if p == o.provider then p != "" && k == i else IsLatest(was, k, p)
    {
      LatestIs(was, now, o, k, p);
    }
    assert forall k, p | IsLatest(was, k, p) :: 0 <= k < i && p != "" && was[k] == now[k];
    hide IsLatest, PauseReason;
    forall p | p in after
      ensures exists k :: IsLatest(now, k, p) && PauseReason(now[k].errorCode).Some?
                          && after[p] == Pause(p, PauseReason(now[k].errorCode).value, now[k].resetsAt)
    {
      if p == o.provider && p != "" {
        assert IsLatest(now, i, p);
      } else {
        var k :| IsLatest(was, k, p) && PauseReason(was[k].errorCode).Some?
                 && before[p] == Pause(p, PauseReason(was[k].errorCode).value, was[k].resetsAt);
        assert IsLatest(now, k, p);
      }
    }
  }

  lemma LatestIs(was: seq<Output>, now: seq<Output>, o: Output, k: int, p: Provider)
    requires now == was + [o]
    ensures IsLatest(now, k, p) <==> if p == o.provider then p != "" && k == |was| else IsLatest(was, k, p)
  {
    assert now[|was|] == o && forall j | 0 <= j < |was| :: now[j] == was[j];
  }

  // ---- Planning the next run ----------------------------------------------

  /** Model i of the order may stand in: its provider is not paused and its key is in the sandbox. */
  predicate Eligible(c: Catalogue, order: seq<Model>, i: int, paused: set<Provider>, ready: set<Provider>) {
    0 <= i < |order| && ModelProvider(c, order[i]) !in paused && ModelProvider(c, order[i]) in ready
  }

  predicate FirstEligible(c: Catalogue, order: seq<Model>, i: int, paused: set<Provider>, ready: set<Provider>) {
    Eligible(c, order, i, paused, ready) && forall j | 0 <= j < i :: !Eligible(c, order, j, paused, ready)
  }

  /** The planned stand-in can still serve: its provider's key is there and it has not itself failed since. */
  predicate Usable(plan: Plan, pausedNow: map<Provider, Pause>, ready: set<Provider>, p: Provider) {
    p in plan && plan[p].provider in ready && plan[p].provider !in pausedNow
  }

  function Lookup(plan: Plan, p: Provider): Option<ModelFallback> {
    if p in plan then Some(plan[p]) else None
  }

  /** The stand-in model i of the order gives provider p. */
  function StandIn(c: Catalogue, plan: Plan, pausedNow: map<Provider, Pause>, p: Provider, model: Model): ModelFallback
    requires p in plan || p in pausedNow
  {
    if p in plan then plan[p].(model := model, provider := ModelProvider(c, model)) else ForPause(c, pausedNow[p], model)
  }

  /** What the new plan may hold for provider p, given every input of the decision. */
  ghost predicate Planned(c: Catalogue, plan: Plan, pausedNow: map<Provider, Pause>, order: seq<Model>, ready: set<Provider>,
                          p: Provider, entry: Option<ModelFallback>)
  {
    var paused := plan.Keys + pausedNow.Keys;
    if p !in paused then entry == None
    else if Usable(plan, pausedNow, ready, p) then entry == Some(plan[p])
    else match entry
      case Some(f) => exists i :: FirstEligible(c, order, i, paused, ready) && f == StandIn(c, plan, pausedNow, p, order[i])
      case None => forall i :: !Eligible(c, order, i, paused, ready)
  }

  ghost predicate Replanned(c: Catalogue, plan: Plan, pausedNow: map<Provider, Pause>, order: seq<Model>, ready: set<Provider>,
                            out: Plan)
  {
    forall p :: Planned(c, plan, pausedNow, order, ready, p, Lookup(out, p))
  }

  method Replan(c: Catalogue, plan: Plan, pausedNow: map<Provider, Pause>, order: seq<Model>, ready: set<Provider>)
      returns (out: Plan)
    ensures Replanned(c, plan, pausedNow, order, ready, out)
  {
    out := map[];
    var todo := plan.Keys + pausedNow.Keys;
    while todo != {}
      invariant todo <= plan.Keys + pausedNow.Keys && out.Keys !! todo
      invariant forall p | p !in todo :: Planned(c, plan, pausedNow, order, ready, p, Lookup(out, p))
      decreases |todo|
    {
      var p :| p in todo;
      todo := todo - {p};
      var entry := PlanOne(c, plan, pausedNow, order, ready, p);
      ghost var before := out;
      if entry.Some? {
        out := out[p := entry.value];
      }
      assert forall q | q != p :: Lookup(out, q) == Lookup(before, q);
      assert Lookup(out, p) == entry;
    }
  }

  /** One paused provider: its planned stand-in while that is usable, else the first eligible model. */
  method PlanOne(c: Catalogue, plan: Plan, pausedNow: map<Provider, Pause>, order: seq<Model>, ready: set<Provider>, p: Provider)
      returns (entry: Option<ModelFallback>)
    requires p in plan || p in pausedNow
    ensures Planned(c, plan, pausedNow, order, ready, p, entry)
  {
    if Usable(plan, pausedNow, ready, p) {
      return Some(plan[p]);
    }
    var i := FindEligible(c, order, plan.Keys + pausedNow.Keys, ready);
    entry := if i < |order| then Some(StandIn(c, plan, pausedNow, p, order[i])) else None;
  }

  /** The first model of the order that may stand in; |order| when there is none. */
  method FindEligible(c: Catalogue, order: seq<Model>, paused: set<Provider>, ready: set<Provider>) returns (i: nat)
    ensures i <= |order|
    ensures i < |order| ==> FirstEligible(c, order, i, paused, ready)
    ensures i == |order| ==> forall j :: !Eligible(c, order, j, paused, ready)
  {
    i := 0;
    while i < |order|
      invariant i <= |order|
      invariant forall j: nat | j < i :: !Eligible(c, order, j, paused, ready)
    {
      if Eligible(c, order, i, paused, ready) {
        return;
      }
      i := i + 1;
    }
  }

  /** The stand-in for a model whose provider is paused. */
  function Substitute(c: Catalogue, model: Model, plan: Plan): Option<ModelFallback> {
    var p := ModelProvider(c, model);
    if p in plan && plan[p].model != model then Some(plan[p]) else None
  }

  /** The pre-check's plan: each stand-in is recorded with the provider that serves its model. */
  ghost predicate WellRecorded(c: Catalogue, plan: Plan) {
    forall p | p in plan :: plan[p].provider == ModelProvider(c, plan[p].model)
  }

  /** Some stand-in the new plan keeps is served by a provider the plan itself says is paused. */
  ghost predicate KeepsPausedStandIn(plan: Plan, pausedNow: map<Provider, Pause>, ready: set<Provider>) {
    exists p :: Usable(plan, pausedNow, ready, p) && plan[p].provider in plan
  }

  /** Every stand-in is ready; and none is paused, by plan or by run, exactly when no stand-in kept as usable is
      itself a planned paused provider. */
  lemma StandInsUnpausedIff(c: Catalogue, plan: Plan, pausedNow: map<Provider, Pause>, order: seq<Model>, ready: set<Provider>,
                            out: Plan)
    requires Replanned(c, plan, pausedNow, order, ready, out)
    ensures forall p | p in out :: out[p].provider in ready && out[p].provider !in pausedNow
    ensures (forall p | p in out :: out[p].provider !in plan) <==> !KeepsPausedStandIn(plan, pausedNow, ready)
  {
    forall p | p in out
      ensures out[p].provider in ready && out[p].provider !in pausedNow
      ensures out[p].provider in plan ==> Usable(plan, pausedNow, ready, p) && out[p] == plan[p]
    {
      assert Planned(c, plan, pausedNow, order, ready, p, Lookup(out, p));
    }
    if p :| Usable(plan, pausedNow, ready, p) && plan[p].provider in plan {
      assert Planned(c, plan, pausedNow, order, ready, p, Lookup(out, p));
    }
  }

  /** A paused provider has no stand-in exactly when its planned one is unusable and no model of the order is eligible. */
  lemma AbsentIff(c: Catalogue, plan: Plan, pausedNow: map<Provider, Pause>, order: seq<Model>, ready: set<Provider>,
                  out: Plan, p: Provider)
    requires Replanned(c, plan, pausedNow, order, ready, out)
    ensures p !in out <==> p !in plan.Keys + pausedNow.Keys
                           || (!Usable(plan, pausedNow, ready, p)
                               && forall i :: !Eligible(c, order, i, plan.Keys + pausedNow.Keys, ready))
  {
    assert Planned(c, plan, pausedNow, order, ready, p, Lookup(out, p));
  }

  // ---- The plans a job really has -----------------------------------------

  /** No stand-in of the plan is served by a provider the plan says is paused. */
  ghost predicate Unpaused(plan: Plan) {
    forall p | p in plan :: plan[p].provider !in plan
  }

  /** Whether a provider is paused for the job, once every cause is asked: a pinned one never is. */
  type PauseOf = Provider -> Option<Pause>

  predicate IsPaused(pauseOf: PauseOf, providers: seq<Provider>, p: Provider) {
    p in providers && pauseOf(p).Some?
  }

  /** Model i of the order may stand in for a paused provider: no provider of the job that is paused serves it, nor any
      other that is. */
  predicate Ready(c: Catalogue, order: seq<Model>, i: int, pauseOf: PauseOf, providers: seq<Provider>) {
    0 <= i < |order| && !IsPaused(pauseOf, providers, ModelProvider(c, order[i])) && pauseOf(ModelProvider(c, order[i])).None?
  }

  predicate FirstReady(c: Catalogue, order: seq<Model>, i: int, pauseOf: PauseOf, providers: seq<Provider>) {
    Ready(c, order, i, pauseOf, providers) && forall j | 0 <= j < i :: !Ready(c, order, j, pauseOf, providers)
  }

  /** The pre-check's entry for provider p: the first ready model of the order, for a paused one. */
  ghost predicate PreChecked(c: Catalogue, order: seq<Model>, pauseOf: PauseOf, providers: seq<Provider>, p: Provider,
                             entry: Option<ModelFallback>)
  {
    if !IsPaused(pauseOf, providers, p) then entry == None
    else match entry
      case Some(f) => exists i :: FirstReady(c, order, i, pauseOf, providers) && f == ForPause(c, pauseOf(p).value, order[i])
      case None => forall i :: !Ready(c, order, i, pauseOf, providers)
  }

  ghost predicate IsPreCheck(c: Catalogue, order: seq<Model>, pauseOf: PauseOf, providers: seq<Provider>, plan: Plan) {
    forall p :: PreChecked(c, order, pauseOf, providers, p, Lookup(plan, p))
  }

  /** The account pre-check's plan, one provider of the job after the other. */
  method PlanModelFallbacks(c: Catalogue, order: seq<Model>, pauseOf: PauseOf, providers: seq<Provider>) returns (plan: Plan)
    ensures IsPreCheck(c, order, pauseOf, providers, plan)
  {
    plan := map[];
    for k := 0 to |providers|
      invariant forall p | p in providers[..k] || !IsPaused(pauseOf, providers, p) ::
                  PreChecked(c, order, pauseOf, providers, p, Lookup(plan, p))
      invariant forall p | p in plan :: p in providers[..k]
    {
      var p := providers[k];
      ghost var before := plan;
      if pauseOf(p).Some? {
        var i := FindReady(c, order, pauseOf, providers);
        if i < |order| {
          plan := plan[p := ForPause(c, pauseOf(p).value, order[i])];
        }
      }
      assert forall q | q != p :: Lookup(plan, q) == Lookup(before, q);
      assert providers[..k + 1] == providers[..k] + [p];
    }
    assert providers[..|providers|] == providers;
  }

  method FindReady(c: Catalogue, order: seq<Model>, pauseOf: PauseOf, providers: seq<Provider>) returns (i: nat)
    ensures i <= |order|
    ensures i < |order| ==> FirstReady(c, order, i, pauseOf, providers)
    ensures i == |order| ==> forall j :: !Ready(c, order, j, pauseOf, providers)
  {
    i := 0;
    while i < |order|
      invariant i <= |order|
      invariant forall j: nat | j < i :: !Ready(c, order, j, pauseOf, providers)
    {
      if Ready(c, order, i, pauseOf, providers) {
        return;
      }
      i := i + 1;
    }
  }

  /** What the pre-check plans never stands in with a provider it planned as paused. */
  lemma PreCheckUnpaused(c: Catalogue, order: seq<Model>, pauseOf: PauseOf, providers: seq<Provider>, plan: Plan)
    requires IsPreCheck(c, order, pauseOf, providers, plan)
    ensures Unpaused(plan) && WellRecorded(c, plan)
  {
    forall p | p in plan
      ensures plan[p].provider !in plan && plan[p].provider == ModelProvider(c, plan[p].model)
    {
      assert PreChecked(c, order, pauseOf, providers, p, Lookup(plan, p));
      assert PreChecked(c, order, pauseOf, providers, plan[p].provider, Lookup(plan, plan[p].provider));
    }
  }

  /** And replanning keeps it so, whatever has failed, whichever keys there are. */
  lemma ReplanUnpaused(c: Catalogue, plan: Plan, pausedNow: map<Provider, Pause>, order: seq<Model>, ready: set<Provider>, out: Plan)
    requires Unpaused(plan) && WellRecorded(c, plan) && Replanned(c, plan, pausedNow, order, ready, out)
    ensures Unpaused(out) && WellRecorded(c, out) && !KeepsPausedStandIn(plan, pausedNow, ready)
    ensures forall p | p in out :: out[p].provider in ready && out[p].provider !in plan && out[p].provider !in pausedNow
  {
    StandInsUnpausedIff(c, plan, pausedNow, order, ready, out);
    forall p | p in out
      ensures out[p].provider == ModelProvider(c, out[p].model) && out[p].provider !in out
    {
      assert Planned(c, plan, pausedNow, order, ready, p, Lookup(out, p));
      assert Planned(c, plan, pausedNow, order, ready, out[p].provider, Lookup(out, out[p].provider));
    }
  }

  /** One replanning of a job: what has failed since, the order, and the keys its sandbox holds. */
  datatype Turn = Turn(pausedNow: map<Provider, Pause>, order: seq<Model>, ready: set<Provider>)

  /** The plans of a job: the pre-check's, and each replanned from the one before it. */
  ghost predicate IsChain(c: Catalogue, order: seq<Model>, pauseOf: PauseOf, providers: seq<Provider>, plans: seq<Plan>,
                          turns: seq<Turn>)
  {
    && |plans| == |turns| + 1 && IsPreCheck(c, order, pauseOf, providers, plans[0])
    && forall k | 0 <= k < |turns| ::
         Replanned(c, plans[k], turns[k].pausedNow, turns[k].order, turns[k].ready, plans[k + 1])
  }

  lemma {:induction false} ChainUnpaused(c: Catalogue, order: seq<Model>, pauseOf: PauseOf, providers: seq<Provider>,
                                         plans: seq<Plan>, turns: seq<Turn>, k: nat)
    requires IsChain(c, order, pauseOf, providers, plans, turns) && k < |plans|
    ensures Unpaused(plans[k]) && WellRecorded(c, plans[k])
  {
    hide Replanned, IsPreCheck, Unpaused, WellRecorded;
    if k == 0 {
      PreCheckUnpaused(c, order, pauseOf, providers, plans[0]);
    } else {
      ChainUnpaused(c, order, pauseOf, providers, plans, turns, k - 1);
      var turn := turns[k - 1];
      assert Replanned(c, plans[k - 1], turn.pausedNow, turn.order, turn.ready, plans[k - 1 + 1]);
      ReplanUnpaused(c, plans[k - 1], turn.pausedNow, turn.order, turn.ready, plans[k]);
    }
  }

  /** For any plan: a run moved to its stand-in stays there exactly when the stand-in's provider is not itself planned, or
      is planned to stand in with the very same model. */
  lemma SubstituteTwiceIff(c: Catalogue, plan: Plan, model: Model)
    requires WellRecorded(c, plan) && Substitute(c, model, plan).Some?
    ensures var f := Substitute(c, model, plan).value;
            Substitute(c, f.model, plan) == None <==> f.provider !in plan || plan[f.provider].model == f.model
  {
    var p := ModelProvider(c, model);
    assert plan[p].provider == ModelProvider(c, plan[p].model);
  }

  /** At every point of every job, whatever fails and however often it is replanned, a run moved to its stand-in is not
      moved again: substituting twice is substituting once. */
  lemma SubstituteOnce(c: Catalogue, order: seq<Model>, pauseOf: PauseOf, providers: seq<Provider>, plans: seq<Plan>,
                       turns: seq<Turn>, k: nat, model: Model)
    requires IsChain(c, order, pauseOf, providers, plans, turns) && k < |plans|
    requires Substitute(c, model, plans[k]).Some?
    ensures Substitute(c, Substitute(c, model, plans[k]).value.model, plans[k]) == None
  {
    ChainUnpaused(c, order, pauseOf, providers, plans, turns, k);
    SubstituteTwiceIff(c, plans[k], model);
    hide IsChain;
    assert plans[k][ModelProvider(c, model)].provider !in plans[k];
  }
}
