/** One sweep of the volume reaper, among whatever else the deployments do to the daemon and the tables meanwhile. */
module VolumeReaper {
  import opened Prelude
  import opened VolumeOwnership
  import opened VolumeProtocol

  /** The names of a list that are in a set, in the list's order. */
  function Select(names: seq<VolumeName>, keep: set<VolumeName>): (r: seq<VolumeName>)
    ensures |r| <= |names|
  {
    if names == [] then []
    else Select(names[..|names| - 1], keep) + (if names[|names| - 1] in keep then [names[|names| - 1]] else [])
  }

  lemma {:induction false} SelectSame(names: seq<VolumeName>, keep: set<VolumeName>, keep': set<VolumeName>)
    requires forall n | n in names :: n in keep <==> n in keep'
    ensures Select(names, keep) == Select(names, keep')
  {
    if names != [] {
      SelectSame(names[..|names| - 1], keep, keep');
      assert names[|names| - 1] in names;
    }
  }

  predicate Distinct(names: seq<VolumeName>) {
    forall i, j | 0 <= i < j < |names| :: names[i] != names[j]
  }

  // ---- Runs ---------------------------------------------------------------

  lemma {:induction false} RunAppend(s: State, a: seq<Step>, b: seq<Step>)
    ensures Run(Run(s, a), b) == Run(s, a + b)
  {
    if b == [] {
      assert a + b == a;
    } else {
      RunAppend(s, a, b[..|b| - 1]);
      assert (a + b)[..|a + b| - 1] == a + b[..|b| - 1];
    }
  }

  /** The sweep's own token is touched by no other step. */
  ghost predicate Apart(steps: seq<Step>, t: nat) {
    forall i | 0 <= i < |steps| :: ApartStep(steps[i], t)
  }

  predicate ApartStep(step: Step, t: nat) {
    (step.Inspect? || step.FetchStatuses? || step.FreeHolders? || step.Remove?) ==> step.t != t
  }

  lemma {:induction false} ApartKeeps(s: State, steps: seq<Step>, t: nat)
    requires t < |s.tokens| && Apart(steps, t)
    ensures t < |Run(s, steps).tokens| && Run(s, steps).tokens[t] == s.tokens[t]
  {
    if steps != [] {
      ApartKeeps(s, steps[..|steps| - 1], t);
      ApartKeepsStep(Run(s, steps[..|steps| - 1]), steps[|steps| - 1], t);
    }
  }

  lemma ApartKeepsStep(s: State, step: Step, t: nat)
    requires t < |s.tokens| && ApartStep(step, t)
    ensures t < |Apply(s, step).tokens| && Apply(s, step).tokens[t] == s.tokens[t]
  {
    hide Licensed, Matches, RetainVolume, VolumeLabels, FreshJob, Fetched, Owners;
  }

  /** Somewhere in a run the sweep tried to remove a name, and the daemon did it or refused. */
  ghost predicate Tried(s: State, trace: seq<Step>, t: nat, name: VolumeName, done: bool) {
    exists k | 0 <= k < |trace| :: trace[k] == Remove(t, name) && (Enabled(Run(s, trace[..k]), trace[k]) <==> done)
  }

  lemma TriedLater(s: State, trace: seq<Step>, t: nat, name: VolumeName, done: bool, more: seq<Step>)
    requires Tried(s, trace, t, name, done)
    ensures Tried(s, trace + more, t, name, done)
  {
    var k :| 0 <= k < |trace| && trace[k] == Remove(t, name) && (Enabled(Run(s, trace[..k]), trace[k]) <==> done);
    assert (trace + more)[k] == trace[k] && (trace + more)[..k] == trace[..k];
  }

  lemma TriedNow(s: State, trace: seq<Step>, t: nat, name: VolumeName)
    ensures Tried(s, trace + [Remove(t, name)], t, name, Enabled(Run(s, trace), Remove(t, name)))
  {
    var trace' := trace + [Remove(t, name)];
    assert trace'[|trace|] == Remove(t, name) && trace'[..|trace|] == trace;
  }

  class Daemon {
    var s: State

    constructor (s: State)
      ensures this.s == s
    {
      this.s := s;
    }

    /** What others do while the sweep awaits, and then its own step. */
    method Take(others: seq<Step>, step: Step) returns (done: bool)
      modifies this
      ensures s == Run(old(s), others + [step])
      ensures done <==> Enabled(Run(old(s), others), step)
    {
      ghost var s0 := s;
      s := Run(s, others);
      done := Enabled(s, step);
      s := Apply(s, step);
      assert (others + [step])[..|others|] == others;
    }
  }

  // ---- Reading ------------------------------------------------------------

  ghost predicate NoRemovals(trace: seq<Step>, t: nat) {
    forall k | 0 <= k < |trace| :: trace[k].Remove? ==> trace[k].t != t
  }

  /** The sweep has read the volumes of a list of names, and done nothing else under its token. */
  ghost predicate HasRead(s0: State, s: State, trace: seq<Step>, t: nat, inst: Id, adopt: bool, grace: nat, listed: seq<VolumeName>) {
    && s == Run(s0, trace) && NoRemovals(trace, t) && Distinct(listed)
    && t < |s.tokens| && s.tokens[t].Reading? && s.tokens[t] == Reading(inst, adopt, grace, s.tokens[t].volumes)
    && s.tokens[t].volumes.Keys == (set n | n in listed)
  }

  lemma Starts(s0: State, inst: Id, adopt: bool, grace: nat)
    requires Deployment(inst)
    ensures HasRead(s0, Run(s0, [StartSweep(inst, adopt, grace)]), [StartSweep(inst, adopt, grace)], |s0.tokens|, inst, adopt, grace, [])
  {
    var steps := [StartSweep(inst, adopt, grace)];
    assert steps[..0] == [];
  }

  lemma Reads(s0: State, s: State, trace: seq<Step>, t: nat, inst: Id, adopt: bool, grace: nat, listed: seq<VolumeName>,
              others: seq<Step>, name: VolumeName)
    requires HasRead(s0, s, trace, t, inst, adopt, grace, listed) && Apart(others, t) && name !in listed
    ensures var step := Inspect(t, name);
            HasRead(s0, Run(s, others + [step]), trace + (others + [step]), t, inst, adopt, grace,
                    if Enabled(Run(s, others), step) then listed + [name] else listed)
  {
    hide *;
    var step := Inspect(t, name);
    HasReadParts(s0, s, trace, t, inst, adopt, grace, listed);
    RunAppend(s0, trace, others + [step]);
    ApartKeeps(s, others, t);
    OneMore(s, others, step);
    NoRemovalsMore(trace, others, step, t);
    InspectReads(Run(s, others), t, name, listed);
    HasReadWhole(s0, Run(s, others + [step]), trace + (others + [step]), t, inst, adopt, grace,
                 if Enabled(Run(s, others), step) then listed + [name] else listed);
  }

  lemma NoRemovalsMore(trace: seq<Step>, others: seq<Step>, step: Step, t: nat)
    requires NoRemovals(trace, t) && Apart(others, t) && !step.Remove?
    ensures NoRemovals(trace + (others + [step]), t)
  {
    assert forall k | 0 <= k < |others| :: ApartStep(others[k], t);
  }

  /** One inspection: a volume that is there joins what was read; no other token changes. */
  lemma InspectReads(s: State, t: nat, name: VolumeName, listed: seq<VolumeName>)
    requires t < |s.tokens| && s.tokens[t].Reading? && s.tokens[t].volumes.Keys == (set n | n in listed)
    requires Distinct(listed) && name !in listed
    ensures var s', listed' := Apply(s, Inspect(t, name)), if Enabled(s, Inspect(t, name)) then listed + [name] else listed;
            && t < |s'.tokens| && s'.tokens[t].Reading? && Distinct(listed')
            && s'.tokens[t] == Reading(s.tokens[t].inst, s.tokens[t].adopt, s.tokens[t].grace, s'.tokens[t].volumes)
            && s'.tokens[t].volumes.Keys == (set n | n in listed')
  {
  }

  lemma HasReadParts(s0: State, s: State, trace: seq<Step>, t: nat, inst: Id, adopt: bool, grace: nat, listed: seq<VolumeName>)
    requires HasRead(s0, s, trace, t, inst, adopt, grace, listed)
    ensures s == Run(s0, trace) && NoRemovals(trace, t) && Distinct(listed) && t < |s.tokens| && s.tokens[t].Reading?
    ensures s.tokens[t] == Reading(inst, adopt, grace, s.tokens[t].volumes) && s.tokens[t].volumes.Keys == (set n | n in listed)
  {
  }

  lemma HasReadWhole(s0: State, s: State, trace: seq<Step>, t: nat, inst: Id, adopt: bool, grace: nat, listed: seq<VolumeName>)
    requires s == Run(s0, trace) && NoRemovals(trace, t) && Distinct(listed) && t < |s.tokens| && s.tokens[t].Reading?
    requires s.tokens[t] == Reading(inst, adopt, grace, s.tokens[t].volumes) && s.tokens[t].volumes.Keys == (set n | n in listed)
    ensures HasRead(s0, s, trace, t, inst, adopt, grace, listed)
  {
  }

  lemma OneMore(s: State, steps: seq<Step>, step: Step)
    ensures Run(s, steps + [step]) == Apply(Run(s, steps), step)
  {
    assert (steps + [step])[..|steps|] == steps;
  }

  lemma Fetches(s0: State, s: State, trace: seq<Step>, t: nat, inst: Id, adopt: bool, grace: nat, listed: seq<VolumeName>,
                others: seq<Step>)
    requires HasRead(s0, s, trace, t, inst, adopt, grace, listed) && Apart(others, t)
    ensures var s' := Run(s, others + [FetchStatuses(t)]);
            && s' == Run(s0, trace + (others + [FetchStatuses(t)])) && NoRemovals(trace + (others + [FetchStatuses(t)]), t)
            && t < |s'.tokens| && s'.tokens[t].Sweeping? && s'.tokens[t].inst == inst && s'.tokens[t].adopt == adopt
            && s'.tokens[t].grace == grace && s'.tokens[t].volumes == s.tokens[t].volumes
  {
    RunAppend(s0, trace, others + [FetchStatuses(t)]);
    ApartKeeps(s, others, t);
    OneMore(s, others, FetchStatuses(t));
    assert forall k | 0 <= k < |others| :: ApartStep(others[k], t);
    hide Run, Fetched, Owners;
  }

  // ---- Removing -----------------------------------------------------------

  /** The names the sweep decides to remove. */
  function Doomed(tok: Token): set<VolumeName>
    requires tok.Sweeping?
  {
    set n | n in tok.volumes && Licensed(tok, n)
  }

  /** The names of a list that went, of those the sweep tried: none in a dry run, and else those the daemon removed. */
  ghost predicate Swept(s0: State, trace: seq<Step>, t: nat, doomed: set<VolumeName>, listed: seq<VolumeName>, gone: set<VolumeName>,
                        dryRun: bool)
  {
    && (forall n | n in gone :: n in doomed && n in listed)
    && (dryRun ==> gone == {} && NoRemovals(trace, t))
    && (!dryRun ==> forall n | n in listed && n in doomed :: Tried(s0, trace, t, n, n in gone))
  }

  lemma SweptMore(s0: State, trace: seq<Step>, t: nat, doomed: set<VolumeName>, listed: seq<VolumeName>, gone: set<VolumeName>,
                  others: seq<Step>, name: VolumeName, done: bool)
    requires Swept(s0, trace, t, doomed, listed, gone, false) && name in doomed && name !in listed
    requires done <==> Enabled(Run(s0, trace + others), Remove(t, name))
    ensures Swept(s0, trace + (others + [Remove(t, name)]), t, doomed, listed + [name], if done then gone + {name} else gone, false)
    ensures Select(listed, if done then gone + {name} else gone) == Select(listed, gone)
    ensures Select(listed, doomed - (if done then gone + {name} else gone)) == Select(listed, doomed - gone)
  {
    hide Enabled, Run, Tried;
    var gone' := if done then gone + {name} else gone;
    SelectSame(listed, gone', gone);
    SelectSame(listed, doomed - gone', doomed - gone);
    TriedNow(s0, trace + others, t, name);
    assert trace + others + [Remove(t, name)] == trace + (others + [Remove(t, name)]);
    forall n | n in listed && n in doomed
      ensures Tried(s0, trace + (others + [Remove(t, name)]), t, n, n in gone')
    {
      TriedLater(s0, trace, t, n, n in gone, others + [Remove(t, name)]);
    }
  }

  lemma SweptPast(s0: State, trace: seq<Step>, t: nat, doomed: set<VolumeName>, listed: seq<VolumeName>, gone: set<VolumeName>,
                  dryRun: bool, name: VolumeName)
    requires Swept(s0, trace, t, doomed, listed, gone, dryRun) && (name !in doomed || dryRun)
    ensures Swept(s0, trace, t, doomed, listed + [name], gone, dryRun)
  {
    hide Tried;
  }

  lemma Removes(s0: State, s: State, trace: seq<Step>, t: nat, others: seq<Step>, name: VolumeName)
    requires s == Run(s0, trace) && Apart(others, t) && t < |s.tokens| && s.tokens[t].Sweeping?
    ensures var s' := Run(s, others + [Remove(t, name)]);
            && s' == Run(s0, trace + (others + [Remove(t, name)])) && Run(s, others) == Run(s0, trace + others)
            && t < |s'.tokens| && s'.tokens[t] == s.tokens[t]
  {
    RunAppend(s0, trace, others);
    RunAppend(s0, trace, others + [Remove(t, name)]);
    SweepingStays(s, others + [Remove(t, name)], t);
  }

  /** What the sweep's token, its run so far and its lists say of the first names of its list. */
  ghost predicate Reported(s0: State, s: State, trace: seq<Step>, t: nat, tok: Token, listed: seq<VolumeName>, gone: set<VolumeName>,
                           dryRun: bool, removed: seq<VolumeName>, wouldRemove: seq<VolumeName>, failed: seq<VolumeName>, kept: nat)
    requires tok.Sweeping?
  {
    && s == Run(s0, trace) && t < |s.tokens| && s.tokens[t] == tok
    && Swept(s0, trace, t, Doomed(tok), listed, gone, dryRun)
    && removed == Select(listed, gone)
    && failed == (if dryRun then [] else Select(listed, Doomed(tok) - gone))
    && wouldRemove == (if dryRun then Select(listed, Doomed(tok)) else [])
    && kept == |listed| - |Select(listed, Doomed(tok))|
  }

  lemma DoomedIff(tok: Token, name: VolumeName)
    requires tok.Sweeping? && name in tok.volumes
    ensures name in Doomed(tok) <==>
            DecideVolume(name, tok.volumes[name], Some(tok.inst), tok.statuses, tok.now, tok.grace, tok.adopt).remove
  {
  }

  lemma NoneReported(s0: State, s: State, trace: seq<Step>, t: nat, tok: Token, dryRun: bool)
    requires tok.Sweeping? && s == Run(s0, trace) && t < |s.tokens| && s.tokens[t] == tok && NoRemovals(trace, t)
    ensures Reported(s0, s, trace, t, tok, [], {}, dryRun, [], [], [], 0)
  {
  }

  lemma Kept(s0: State, s: State, trace: seq<Step>, t: nat, tok: Token, listed: seq<VolumeName>, gone: set<VolumeName>, dryRun: bool,
             removed: seq<VolumeName>, wouldRemove: seq<VolumeName>, failed: seq<VolumeName>, kept: nat, name: VolumeName)
    requires tok.Sweeping? && Reported(s0, s, trace, t, tok, listed, gone, dryRun, removed, wouldRemove, failed, kept)
    requires name !in Doomed(tok)
    ensures Reported(s0, s, trace, t, tok, listed + [name], gone, dryRun, removed, wouldRemove, failed, kept + 1)
  {
    SweptPast(s0, trace, t, Doomed(tok), listed, gone, dryRun, name);
    SelectPast(listed, gone, name);
    SelectPast(listed, Doomed(tok) - gone, name);
    SelectPast(listed, Doomed(tok), name);
    hide Select, Doomed, Run;
  }

  lemma SelectPast(names: seq<VolumeName>, keep: set<VolumeName>, name: VolumeName)
    ensures Select(names + [name], keep) == Select(names, keep) + (if name in keep then [name] else [])
  {
    assert (names + [name])[..|names|] == names;
  }

  lemma WouldRemove(s0: State, s: State, trace: seq<Step>, t: nat, tok: Token, listed: seq<VolumeName>, gone: set<VolumeName>,
                    removed: seq<VolumeName>, wouldRemove: seq<VolumeName>, failed: seq<VolumeName>, kept: nat, name: VolumeName)
    requires tok.Sweeping? && Reported(s0, s, trace, t, tok, listed, gone, true, removed, wouldRemove, failed, kept)
    requires name in Doomed(tok)
    ensures Reported(s0, s, trace, t, tok, listed + [name], gone, true, removed, wouldRemove + [name], failed, kept)
  {
    SweptPast(s0, trace, t, Doomed(tok), listed, gone, true, name);
    SelectPast(listed, gone, name);
    SelectPast(listed, Doomed(tok), name);
    hide Select, Doomed, Run;
  }

  lemma TriedToRemove(s0: State, s: State, trace: seq<Step>, t: nat, tok: Token, listed: seq<VolumeName>, gone: set<VolumeName>,
                      removed: seq<VolumeName>, wouldRemove: seq<VolumeName>, failed: seq<VolumeName>, kept: nat,
                      others: seq<Step>, name: VolumeName, done: bool)
    requires tok.Sweeping? && Reported(s0, s, trace, t, tok, listed, gone, false, removed, wouldRemove, failed, kept)
    requires Apart(others, t) && name in Doomed(tok) && name !in listed
    requires done <==> Enabled(Run(s, others), Remove(t, name))
    ensures Reported(s0, Run(s, others + [Remove(t, name)]), trace + (others + [Remove(t, name)]), t, tok, listed + [name],
                     if done then gone + {name} else gone, false,
                     if done then removed + [name] else removed, wouldRemove, if done then failed else failed + [name], kept)
  {
    hide *;
    var gone' := if done then gone + {name} else gone;
    ReportedParts(s0, s, trace, t, tok, listed, gone, false, removed, wouldRemove, failed, kept);
    Removes(s0, s, trace, t, others, name);
    SweptMore(s0, trace, t, Doomed(tok), listed, gone, others, name, done);
    NotGone(s0, trace, t, Doomed(tok), listed, gone, name);
    SelectPast(listed, gone', name);
    SelectPast(listed, Doomed(tok) - gone', name);
    SelectPast(listed, Doomed(tok), name);
    NoMore(Select(listed, gone));
    NoMore(Select(listed, Doomed(tok) - gone));
    ReportedWhole(s0, Run(s, others + [Remove(t, name)]), trace + (others + [Remove(t, name)]), t, tok, listed + [name], gone',
                  if done then removed + [name] else removed, wouldRemove, if done then failed else failed + [name], kept);
  }

  lemma NoMore(names: seq<VolumeName>)
    ensures names + [] == names
  {
  }

  lemma NotGone(s0: State, trace: seq<Step>, t: nat, doomed: set<VolumeName>, listed: seq<VolumeName>, gone: set<VolumeName>,
                name: VolumeName)
    requires Swept(s0, trace, t, doomed, listed, gone, false) && name !in listed
    ensures name !in gone
  {
  }

  lemma ReportedParts(s0: State, s: State, trace: seq<Step>, t: nat, tok: Token, listed: seq<VolumeName>, gone: set<VolumeName>,
                      dryRun: bool, removed: seq<VolumeName>, wouldRemove: seq<VolumeName>, failed: seq<VolumeName>, kept: nat)
    requires tok.Sweeping? && Reported(s0, s, trace, t, tok, listed, gone, dryRun, removed, wouldRemove, failed, kept)
    ensures s == Run(s0, trace) && t < |s.tokens| && s.tokens[t] == tok && Swept(s0, trace, t, Doomed(tok), listed, gone, dryRun)
    ensures removed == Select(listed, gone) && kept == |listed| - |Select(listed, Doomed(tok))|
    ensures failed == (if dryRun then [] else Select(listed, Doomed(tok) - gone))
    ensures wouldRemove == (if dryRun then Select(listed, Doomed(tok)) else [])
  {
    hide Run, Select, Doomed, Swept;
  }

  lemma ReportedWhole(s0: State, s: State, trace: seq<Step>, t: nat, tok: Token, listed: seq<VolumeName>, gone: set<VolumeName>,
                      removed: seq<VolumeName>, wouldRemove: seq<VolumeName>, failed: seq<VolumeName>, kept: nat)
    requires tok.Sweeping? && s == Run(s0, trace) && t < |s.tokens| && s.tokens[t] == tok
    requires Swept(s0, trace, t, Doomed(tok), listed, gone, false)
    requires removed == Select(listed, gone) && failed == Select(listed, Doomed(tok) - gone) && wouldRemove == []
    requires kept == |listed| - |Select(listed, Doomed(tok))|
    ensures Reported(s0, s, trace, t, tok, listed, gone, false, removed, wouldRemove, failed, kept)
  {
    hide Run, Select, Doomed, Swept;
  }

  // ---- The whole sweep ----------------------------------------------------

  /** What the others do at await k, if anything. */
  function Meanwhile(others: seq<seq<Step>>, k: nat): seq<Step> {
    if k < |others| then others[k] else []
  }

  lemma MeanwhileApart(others: seq<seq<Step>>, t: nat)
    requires forall o | o in others :: Apart(o, t)
    ensures forall k: nat :: Apart(Meanwhile(others, k), t)
  {
    assert Apart([], t);
  }

  /** The run up to the inspection of the first i names, one await before each. */
  ghost function ReadTrace(start: Step, t: nat, names: seq<VolumeName>, others: seq<seq<Step>>, i: nat): seq<Step>
    requires i <= |names|
  {
    if i == 0 then [start] else ReadTrace(start, t, names, others, i - 1) + (Meanwhile(others, i - 1) + [Inspect(t, names[i - 1])])
  }

  /** Those of the first i names that were there when they were inspected. */
  ghost function Present(s0: State, start: Step, t: nat, names: seq<VolumeName>, others: seq<seq<Step>>, i: nat): seq<VolumeName>
    requires i <= |names|
  {
    if i == 0 then [] else
      var there := Enabled(Run(Run(s0, ReadTrace(start, t, names, others, i - 1)), Meanwhile(others, i - 1)), Inspect(t, names[i - 1]));
      Present(s0, start, t, names, others, i - 1) + (if there then [names[i - 1]] else [])
  }

  ghost function FetchTrace(start: Step, t: nat, names: seq<VolumeName>, others: seq<seq<Step>>): seq<Step> {
    ReadTrace(start, t, names, others, |names|) + (Meanwhile(others, |names|) + [FetchStatuses(t)])
  }

  /** The run from there, over the first j volumes: an await and a removal for each doomed one, unless it is a dry run. */
  ghost function RemoveTrace(before: seq<Step>, t: nat, doomed: set<VolumeName>, listed: seq<VolumeName>, others: seq<seq<Step>>,
                             base: nat, dryRun: bool, j: nat): seq<Step>
    requires j <= |listed|
  {
    if j == 0 then before else
      var trace := RemoveTrace(before, t, doomed, listed, others, base, dryRun, j - 1);
      if listed[j - 1] in doomed && !dryRun then trace + (Meanwhile(others, base + j - 1) + [Remove(t, listed[j - 1])]) else trace
  }

  /** Those of the first j volumes that the daemon let go. */
  ghost function Gone(s0: State, before: seq<Step>, t: nat, doomed: set<VolumeName>, listed: seq<VolumeName>, others: seq<seq<Step>>,
                      base: nat, dryRun: bool, j: nat): set<VolumeName>
    requires j <= |listed|
  {
    if j == 0 then {} else
      var s := Run(s0, RemoveTrace(before, t, doomed, listed, others, base, dryRun, j - 1));
      var gone := Gone(s0, before, t, doomed, listed, others, base, dryRun, j - 1);
      if listed[j - 1] in doomed && !dryRun && Enabled(Run(s, Meanwhile(others, base + j - 1)), Remove(t, listed[j - 1]))
      then gone + {listed[j - 1]} else gone
  }

  lemma ReportedIs(s0: State, s: State, trace: seq<Step>, t: nat, tok: Token, listed: seq<VolumeName>, gone: set<VolumeName>,
                   dryRun: bool, removed: seq<VolumeName>, wouldRemove: seq<VolumeName>, failed: seq<VolumeName>, kept: nat)
    requires tok.Sweeping? && Reported(s0, s, trace, t, tok, listed, gone, dryRun, removed, wouldRemove, failed, kept)
    ensures s == Run(s0, trace) && t < |s.tokens| && s.tokens[t] == tok
  {
    hide Run, Select, Doomed, Swept;
  }

  lemma RemovalNext(s0: State, before: seq<Step>, t: nat, doomed: set<VolumeName>, listed: seq<VolumeName>, others: seq<seq<Step>>,
                    base: nat, dryRun: bool, j: nat)
    requires j < |listed|
    ensures var trace := RemoveTrace(before, t, doomed, listed, others, base, dryRun, j);
            var gone := Gone(s0, before, t, doomed, listed, others, base, dryRun, j);
            var trace' := RemoveTrace(before, t, doomed, listed, others, base, dryRun, j + 1);
            var gone' := Gone(s0, before, t, doomed, listed, others, base, dryRun, j + 1);
            if listed[j] !in doomed || dryRun then trace' == trace && gone' == gone
            else trace' == trace + (Meanwhile(others, base + j) + [Remove(t, listed[j])])
                 && gone' == if Enabled(Run(Run(s0, trace), Meanwhile(others, base + j)), Remove(t, listed[j])) then gone + {listed[j]} else gone
  {
    hide Run, Enabled;
  }

  /** sweep, with the names its listings gave and what the others do at each of its awaits. Every name is inspected, and the
      volumes that were there are decided on in order; the run is exactly the sweep's own steps with the others' between, and
      the report says what became of each volume. */
  method Sweep(d: Daemon, inst: Id, adopt: bool, grace: nat, dryRun: bool, names: seq<VolumeName>, others: seq<seq<Step>>)
    returns (removed: seq<VolumeName>, wouldRemove: seq<VolumeName>, failed: seq<VolumeName>, kept: nat,
             ghost trace: seq<Step>, ghost listed: seq<VolumeName>, ghost gone: set<VolumeName>)
    requires Deployment(inst) && Distinct(names)
    requires forall o | o in others :: Apart(o, |d.s.tokens|)
    modifies d
    ensures d.s == Run(old(d.s), trace) && |old(d.s.tokens)| < |d.s.tokens|
    ensures listed == Present(old(d.s), StartSweep(inst, adopt, grace), |old(d.s.tokens)|, names, others, |names|)
    ensures var s0, t, start := old(d.s), |old(d.s.tokens)|, StartSweep(inst, adopt, grace);
            var tok := d.s.tokens[t];
            && (listed == [] ==>
                  && trace == ReadTrace(start, t, names, others, |names|)
                  && HasRead(s0, d.s, trace, t, inst, adopt, grace, listed)
                  && removed == wouldRemove == failed == [] && kept == 0)
            && (listed != [] ==>
                  var before := FetchTrace(start, t, names, others);
                  && tok.Sweeping? && tok.inst == inst && tok.adopt == adopt && tok.grace == grace
                  && tok.volumes.Keys == (set n | n in listed) && Distinct(listed)
                  && trace == RemoveTrace(before, t, Doomed(tok), listed, others, |names| + 1, dryRun, |listed|)
                  && gone == Gone(s0, before, t, Doomed(tok), listed, others, |names| + 1, dryRun, |listed|)
                  && Reported(s0, d.s, trace, t, tok, listed, gone, dryRun, removed, wouldRemove, failed, kept))
  {
    hide Run, Enabled, HasRead, Reported, Swept, Apart, Select, Doomed, Dealt;
    MeanwhileApart(others, |d.s.tokens|);
    ghost var s0, start := d.s, StartSweep(inst, adopt, grace);
    var t := |d.s.tokens|;
    removed, wouldRemove, failed, kept, gone := [], [], [], 0, {};
    var volumes: seq<VolumeName> := [];
    var started := d.Take([], StartSweep(inst, adopt, grace));
    Starts(s0, inst, adopt, grace);
    trace := [start];
    assert [] + trace == trace;
    var i := 0;
    while i < |names|
      invariant i <= |names|
      invariant forall n | n in volumes :: n in names[..i]
      invariant trace == ReadTrace(start, t, names, others, i) && volumes == Present(s0, start, t, names, others, i)
      invariant HasRead(s0, d.s, trace, t, inst, adopt, grace, volumes)
    {
      HasReadParts(s0, d.s, trace, t, inst, adopt, grace, volumes);
      Reads(s0, d.s, trace, t, inst, adopt, grace, volumes, Meanwhile(others, i), names[i]);
      var there := d.Take(Meanwhile(others, i), Inspect(t, names[i]));
      trace := trace + (Meanwhile(others, i) + [Inspect(t, names[i])]);
      if there {
        volumes := volumes + [names[i]];
      }
      i := i + 1;
    }
    listed := volumes;
    HasReadParts(s0, d.s, trace, t, inst, adopt, grace, listed);
    if volumes == [] {
      return;
    }
    Fetches(s0, d.s, trace, t, inst, adopt, grace, listed, Meanwhile(others, |names|));
    var fetched := d.Take(Meanwhile(others, |names|), FetchStatuses(t));
    trace := trace + (Meanwhile(others, |names|) + [FetchStatuses(t)]);
    var tok := d.s.tokens[t];
    ghost var w := Work(s0, trace, t, tok, volumes, others, |names| + 1, dryRun);
    DealtNone(w, d.s);
    removed, wouldRemove, failed, kept, trace, gone := RemoveDoomed(d, t, tok, volumes, others, |names| + 1, dryRun, s0, trace);
    DealtParts(w, |volumes|, d.s, trace, gone, removed, wouldRemove, failed, kept);
    assert volumes[..|volumes|] == volumes;
  }

  /** What the second loop works on: the run before it, the sweep's token and volumes, and what the others do meanwhile. */
  datatype Work = Work(s0: State, before: seq<Step>, t: nat, tok: Token, volumes: seq<VolumeName>, others: seq<seq<Step>>,
                       base: nat, dryRun: bool)

  ghost predicate Ready(w: Work) {
    && w.tok.Sweeping? && w.tok.volumes.Keys == (set n | n in w.volumes) && Distinct(w.volumes)
    && forall o | o in w.others :: Apart(o, w.t)
  }

  /** The loop has dealt with the first j volumes. */
  ghost predicate Dealt(w: Work, j: nat, s: State, trace: seq<Step>, gone: set<VolumeName>, removed: seq<VolumeName>,
                        wouldRemove: seq<VolumeName>, failed: seq<VolumeName>, kept: nat)
    requires j <= |w.volumes| && w.tok.Sweeping?
  {
    && trace == RemoveTrace(w.before, w.t, Doomed(w.tok), w.volumes, w.others, w.base, w.dryRun, j)
    && gone == Gone(w.s0, w.before, w.t, Doomed(w.tok), w.volumes, w.others, w.base, w.dryRun, j)
    && Reported(w.s0, s, trace, w.t, w.tok, w.volumes[..j], gone, w.dryRun, removed, wouldRemove, failed, kept)
  }

  lemma DealtParts(w: Work, j: nat, s: State, trace: seq<Step>, gone: set<VolumeName>, removed: seq<VolumeName>,
                   wouldRemove: seq<VolumeName>, failed: seq<VolumeName>, kept: nat)
    requires j <= |w.volumes| && w.tok.Sweeping? && Dealt(w, j, s, trace, gone, removed, wouldRemove, failed, kept)
    ensures trace == RemoveTrace(w.before, w.t, Doomed(w.tok), w.volumes, w.others, w.base, w.dryRun, j)
    ensures gone == Gone(w.s0, w.before, w.t, Doomed(w.tok), w.volumes, w.others, w.base, w.dryRun, j)
    ensures Reported(w.s0, s, trace, w.t, w.tok, w.volumes[..j], gone, w.dryRun, removed, wouldRemove, failed, kept)
    ensures s == Run(w.s0, trace) && w.t < |s.tokens| && s.tokens[w.t] == w.tok
  {
    ReportedIs(w.s0, s, trace, w.t, w.tok, w.volumes[..j], gone, w.dryRun, removed, wouldRemove, failed, kept);
    hide Run, Reported, RemoveTrace, Gone, Doomed;
  }

  lemma DealtWhole(w: Work, j: nat, s: State, trace: seq<Step>, gone: set<VolumeName>, removed: seq<VolumeName>,
                   wouldRemove: seq<VolumeName>, failed: seq<VolumeName>, kept: nat)
    requires j <= |w.volumes| && w.tok.Sweeping?
    requires trace == RemoveTrace(w.before, w.t, Doomed(w.tok), w.volumes, w.others, w.base, w.dryRun, j)
    requires gone == Gone(w.s0, w.before, w.t, Doomed(w.tok), w.volumes, w.others, w.base, w.dryRun, j)
    requires Reported(w.s0, s, trace, w.t, w.tok, w.volumes[..j], gone, w.dryRun, removed, wouldRemove, failed, kept)
    ensures Dealt(w, j, s, trace, gone, removed, wouldRemove, failed, kept)
  {
    hide Run, Reported, RemoveTrace, Gone, Doomed;
  }

  lemma DealtNone(w: Work, s: State)
    requires Ready(w) && s == Run(w.s0, w.before) && NoRemovals(w.before, w.t) && w.t < |s.tokens| && s.tokens[w.t] == w.tok
    ensures w.tok.Sweeping? && Dealt(w, 0, s, w.before, {}, [], [], [], 0)
  {
    NoneReported(w.s0, s, w.before, w.t, w.tok, w.dryRun);
    hide Reported, Run, NoRemovals;
    assert w.volumes[..0] == [];
  }

  lemma DealtKept(w: Work, j: nat, s: State, trace: seq<Step>, gone: set<VolumeName>, removed: seq<VolumeName>,
                  wouldRemove: seq<VolumeName>, failed: seq<VolumeName>, kept: nat)
    requires j < |w.volumes| && w.tok.Sweeping? && Ready(w) && Dealt(w, j, s, trace, gone, removed, wouldRemove, failed, kept)
    requires w.volumes[j] !in Doomed(w.tok)
    ensures Dealt(w, j + 1, s, trace, gone, removed, wouldRemove, failed, kept + 1)
  {
    hide *;
    DealtParts(w, j, s, trace, gone, removed, wouldRemove, failed, kept);
    RemovalNext(w.s0, w.before, w.t, Doomed(w.tok), w.volumes, w.others, w.base, w.dryRun, j);
    InOrder(w, j);
    Kept(w.s0, s, trace, w.t, w.tok, w.volumes[..j], gone, w.dryRun, removed, wouldRemove, failed, kept, w.volumes[j]);
    DealtWhole(w, j + 1, s, trace, gone, removed, wouldRemove, failed, kept + 1);
  }

  lemma DealtDry(w: Work, j: nat, s: State, trace: seq<Step>, gone: set<VolumeName>, removed: seq<VolumeName>,
                 wouldRemove: seq<VolumeName>, failed: seq<VolumeName>, kept: nat)
    requires j < |w.volumes| && w.tok.Sweeping? && Ready(w) && Dealt(w, j, s, trace, gone, removed, wouldRemove, failed, kept)
    requires w.volumes[j] in Doomed(w.tok) && w.dryRun
    ensures Dealt(w, j + 1, s, trace, gone, removed, wouldRemove + [w.volumes[j]], failed, kept)
  {
    hide *;
    DealtParts(w, j, s, trace, gone, removed, wouldRemove, failed, kept);
    RemovalNext(w.s0, w.before, w.t, Doomed(w.tok), w.volumes, w.others, w.base, w.dryRun, j);
    InOrder(w, j);
    WouldRemove(w.s0, s, trace, w.t, w.tok, w.volumes[..j], gone, removed, wouldRemove, failed, kept, w.volumes[j]);
    DealtWhole(w, j + 1, s, trace, gone, removed, wouldRemove + [w.volumes[j]], failed, kept);
  }

  lemma DealtTried(w: Work, j: nat, s: State, trace: seq<Step>, gone: set<VolumeName>, removed: seq<VolumeName>,
                   wouldRemove: seq<VolumeName>, failed: seq<VolumeName>, kept: nat, meanwhile: seq<Step>, name: VolumeName, done: bool)
    requires j < |w.volumes| && w.tok.Sweeping? && Ready(w) && Dealt(w, j, s, trace, gone, removed, wouldRemove, failed, kept)
    requires meanwhile == Meanwhile(w.others, w.base + j) && name == w.volumes[j] && name in Doomed(w.tok) && !w.dryRun
    requires done <==> Enabled(Run(s, meanwhile), Remove(w.t, name))
    ensures Dealt(w, j + 1, Run(s, meanwhile + [Remove(w.t, name)]), trace + (meanwhile + [Remove(w.t, name)]),
                  if done then gone + {name} else gone, if done then removed + [name] else removed,
                  wouldRemove, if done then failed else failed + [name], kept)
  {
    hide *;
    DealtParts(w, j, s, trace, gone, removed, wouldRemove, failed, kept);
    RemovalNext(w.s0, w.before, w.t, Doomed(w.tok), w.volumes, w.others, w.base, w.dryRun, j);
    InOrder(w, j);
    TriedToRemove(w.s0, s, trace, w.t, w.tok, w.volumes[..j], gone, removed, wouldRemove, failed, kept, meanwhile, name, done);
    DealtWhole(w, j + 1, Run(s, meanwhile + [Remove(w.t, name)]), trace + (meanwhile + [Remove(w.t, name)]),
               if done then gone + {name} else gone, if done then removed + [name] else removed,
               wouldRemove, if done then failed else failed + [name], kept);
  }

  /** The sweep's second loop: each volume read is kept, or would be removed, or is tried after one more await. */
  method RemoveDoomed(d: Daemon, t: nat, tok: Token, volumes: seq<VolumeName>, others: seq<seq<Step>>, base: nat, dryRun: bool,
                      ghost s0: State, ghost before: seq<Step>)
    returns (removed: seq<VolumeName>, wouldRemove: seq<VolumeName>, failed: seq<VolumeName>, kept: nat,
             ghost trace: seq<Step>, ghost gone: set<VolumeName>)
    requires tok.Sweeping? && Ready(Work(s0, before, t, tok, volumes, others, base, dryRun))
    requires Dealt(Work(s0, before, t, tok, volumes, others, base, dryRun), 0, d.s, before, {}, [], [], [], 0)
    modifies d
    ensures Dealt(Work(s0, before, t, tok, volumes, others, base, dryRun), |volumes|, d.s, trace, gone,
                  removed, wouldRemove, failed, kept)
  {
    ghost var w := Work(s0, before, t, tok, volumes, others, base, dryRun);
    hide *;
    ReadyVolumes(w);
    removed, wouldRemove, failed, kept, trace, gone := [], [], [], 0, before, {};
    var j := 0;
    while j < |volumes|
      invariant j <= |volumes| && Dealt(w, j, d.s, trace, gone, removed, wouldRemove, failed, kept)
    {
      var name := volumes[j];
      DoomedIff(tok, name);
      if !DecideVolume(name, tok.volumes[name], Some(tok.inst), tok.statuses, tok.now, tok.grace, tok.adopt).remove {
        DealtKept(w, j, d.s, trace, gone, removed, wouldRemove, failed, kept);
        kept := kept + 1;
      } else if dryRun {
        DealtDry(w, j, d.s, trace, gone, removed, wouldRemove, failed, kept);
        wouldRemove := wouldRemove + [name];
      } else {
        ghost var was := d.s;
        var done := d.Take(Meanwhile(others, base + j), Remove(t, name));
        DealtTried(w, j, was, trace, gone, removed, wouldRemove, failed, kept, Meanwhile(others, base + j), name, done);
        trace := trace + (Meanwhile(others, base + j) + [Remove(t, name)]);
        if done {
          removed, gone := removed + [name], gone + {name};
        } else {
          failed := failed + [name];
        }
      }
      j := j + 1;
    }
  }

  lemma ReadyVolumes(w: Work)
    requires Ready(w)
    ensures w.tok.Sweeping? && forall i | 0 <= i < |w.volumes| :: w.volumes[i] in w.tok.volumes
  {
  }

  lemma InOrder(w: Work, j: nat)
    requires j < |w.volumes| && Ready(w)
    ensures w.volumes[j] !in w.volumes[..j] && w.volumes[..j + 1] == w.volumes[..j] + [w.volumes[j]]
    ensures Apart(Meanwhile(w.others, w.base + j), w.t)
  {
    MeanwhileApart(w.others, w.t);
  }

  /** What a sweep that began in any reachable state removed was, at that moment, unmounted and rightfully its to remove. */
  lemma SweptRightfully(start: State, before: seq<Step>, trace: seq<Step>, t: nat, name: VolumeName)
    requires Start(start) && Tried(Run(start, before), trace, t, name, true)
    ensures exists k | 0 <= k < |trace| ::
              && trace[k] == Remove(t, name)
              && var s := Run(Run(start, before), trace[..k]);
                 && t < |s.tokens| && name in s.volumes && name !in s.mounted
                 && name in Seen(s.tokens[t]) && Rightful(s, s.tokens[t], name)
  {
    hide Run, Licensed, Rightful, TokenOk, Proper;
    var s0 := Run(start, before);
    var k :| 0 <= k < |trace| && trace[k] == Remove(t, name) && Enabled(Run(s0, trace[..k]), trace[k]);
    RunInv(start, before);
    RunInv(s0, trace[..k]);
    var s := Run(s0, trace[..k]);
    LicensedRightful(s, s.tokens[t], name);
  }
}
