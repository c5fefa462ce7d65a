/** The retention sweep's volumes: each decided on twice before it is removed, the second time on facts read anew. */
module VolumeRetention {
  import opened Prelude
  import opened VolumeOwnership

  datatype StateRow = StateRow(volumeName: VolumeName, lastWarmedAt: Option<int>)

  /** What the sweep's reads give at each of its awaits, counted from its start: a read that raises gives None. A removal
      succeeds or is refused. */
  datatype World = World(live: nat -> Option<set<string>>, row: (nat, string) -> Option<Option<StateRow>>,
                         held: (nat, VolumeName) -> Option<bool>, removes: (nat, VolumeName) -> bool)

  datatype Summary = Summary(name: VolumeName, volume: Volume)

  datatype Outcome = Keep(verdict: Verdict) | InUse | Unchecked | Remove

  function Key(v: Summary): string {
    if ScopeKey in v.volume.labels then v.volume.labels[ScopeKey] else ""
  }

  predicate IsPerRepo(v: Summary) {
    Get(v.volume.labels, ScopeName) == Some("per-repo")
  }

  function Lowered(repos: set<string>): set<string> {
    set r | r in repos :: Lower(r)
  }

  /** When the row written for this very volume was last warmed; the row of another volume of the repository is not its. */
  function Warmed(v: Summary, row: Option<StateRow>): Option<int> {
    if row.Some? && row.value.volumeName == v.name then row.value.lastWarmedAt else None
  }

  /** The row as it is read, for a per-repo volume only. */
  function RowRead(w: World, t: nat, v: Summary): Option<Option<StateRow>> {
    if IsPerRepo(v) then w.row(t, Key(v)) else Some(None)
  }

  /** One decision, begun at await t: its outcome and the await after it. Given no live repositories it reads them. */
  function Decide(w: World, t: nat, v: Summary, live: Option<set<string>>, instance: Instance, cutoff: int): (Outcome, nat) {
    var repos := if live.Some? then live else w.live(t);
    var t1 := if live.Some? then t else t + 1;
    if repos.None? then (Unchecked, t1)
    else
      var row := RowRead(w, t1, v);
      var t2 := if IsPerRepo(v) then t1 + 1 else t1;
      if row.None? then (Unchecked, t2)
      else
        var verdict := RetainVolume(v.name, v.volume, instance, Warmed(v, row.value), Lowered(repos.value), cutoff);
        if verdict != Unused then (Keep(verdict), t2)
        else match w.held(t2, v.name)
          case None => (Unchecked, t2 + 1)
          case Some(true) => (InUse, t2 + 1)
          case Some(false) => (Remove, t2 + 1)
  }

  /** What must hold, at the awaits of a decision begun at await t on nothing known before, for a volume to be past the
      retention: it is this deployment's; no live job is of its repository, unless its name is one no run mounts any more;
      neither its creation nor a warming of this very volume is as late as the cutoff, and one is known; and no container
      holds it. */
  predicate Removable(w: World, t: nat, v: Summary, instance: Instance, cutoff: int) {
    && Resolved(instance) && IsManaged(v.volume.labels) && Get(v.volume.labels, InstanceId) == instance
    && (IsPerRepo(v) || Get(v.volume.labels, ScopeName) == Some("maven"))
    && w.live(t).Some?
    && (IsSuperseded(v.name, v.volume.labels, instance) || forall r | r in w.live(t).value :: Lower(r) != Lower(Key(v)))
    && RowRead(w, t + 1, v).Some?
    && (var warmed := Warmed(v, RowRead(w, t + 1, v).value);
        && (v.volume.createdAt.Some? || warmed.Some?)
        && (v.volume.createdAt.Some? ==> v.volume.createdAt.value < cutoff)
        && (warmed.Some? ==> warmed.value < cutoff))
    && w.held(if IsPerRepo(v) then t + 2 else t + 1, v.name) == Some(false)
  }

  lemma RemoveIff(w: World, t: nat, v: Summary, instance: Instance, cutoff: int)
    ensures Decide(w, t, v, None, instance, cutoff).0 == Remove <==> Removable(w, t, v, instance, cutoff)
  {
    if w.live(t).Some? {
      assert Lower(Key(v)) in Lowered(w.live(t).value) <==> exists r | r in w.live(t).value :: Lower(r) == Lower(Key(v));
    }
  }

  // ---- The sweep ----------------------------------------------------------

  datatype Report = Report(listed: seq<VolumeName>, failed: seq<VolumeName>, kept: multiset<Outcome>)

  /** The outcome for one volume begun at await t, with what the second decision, on fresh facts, makes of a removal. */
  function Judge(w: World, t: nat, v: Summary, live: set<string>, instance: Instance, cutoff: int, dryRun: bool): (Outcome, nat) {
    var first := Decide(w, t, v, Some(live), instance, cutoff);
    if first.0 == Remove && !dryRun then Decide(w, first.1, v, None, instance, cutoff) else first
  }

  /** The report with one volume more, and the await after it; the row of a removed volume is deleted after it. */
  function Add(w: World, at: (Report, nat), v: Summary, live: set<string>, instance: Instance, cutoff: int, dryRun: bool)
      : (Report, nat)
  {
    var (outcome, t) := Judge(w, at.1, v, live, instance, cutoff, dryRun);
    if outcome != Remove then (at.0.(kept := at.0.kept + multiset{outcome}), t)
    else if dryRun then (at.0.(listed := at.0.listed + [v.name]), t)
    else if !w.removes(t, v.name) then (at.0.(failed := at.0.failed + [v.name]), t + 1)
    else (at.0.(listed := at.0.listed + [v.name]), t + 2)
  }

  function Sweep(w: World, t: nat, vs: seq<Summary>, live: set<string>, instance: Instance, cutoff: int, dryRun: bool): (Report, nat) {
    if vs == [] then (Report([], [], multiset{}), t)
    else Add(w, Sweep(w, t, vs[..|vs| - 1], live, instance, cutoff, dryRun), vs[|vs| - 1], live, instance, cutoff, dryRun)
  }

  lemma SweepNone(w: World, t: nat, live: set<string>, instance: Instance, cutoff: int, dryRun: bool)
    ensures Sweep(w, t, [], live, instance, cutoff, dryRun) == (Report([], [], multiset{}), t)
  {
  }

  lemma SweepNext(w: World, t: nat, vs: seq<Summary>, live: set<string>, instance: Instance, cutoff: int, dryRun: bool, i: nat)
    requires i < |vs|
    ensures Sweep(w, t, vs[..i + 1], live, instance, cutoff, dryRun)
         == Add(w, Sweep(w, t, vs[..i], live, instance, cutoff, dryRun), vs[i], live, instance, cutoff, dryRun)
  {
    assert vs[..i + 1][..i] == vs[..i];
    hide Add;
  }

  /** Every volume ends in exactly one place of the report. */
  lemma {:induction false} SweepAccounts(w: World, t: nat, vs: seq<Summary>, live: set<string>, instance: Instance, cutoff: int,
                                         dryRun: bool)
    ensures var r := Sweep(w, t, vs, live, instance, cutoff, dryRun).0;
            |r.listed| + |r.failed| + |r.kept| == |vs| && Remove !in r.kept && (dryRun ==> r.failed == [])
  {
    if vs != [] {
      SweepAccounts(w, t, vs[..|vs| - 1], live, instance, cutoff, dryRun);
    }
  }

  lemma {:induction false} ReportedNames(w: World, t: nat, vs: seq<Summary>, live: set<string>, instance: Instance, cutoff: int,
                                         dryRun: bool, name: VolumeName)
    requires var r := Sweep(w, t, vs, live, instance, cutoff, dryRun).0; name in r.listed || name in r.failed
    ensures exists i | 0 <= i < |vs| :: vs[i].name == name
  {
    hide Judge;
    var init := vs[..|vs| - 1];
    var r := Sweep(w, t, init, live, instance, cutoff, dryRun).0;
    if name in r.listed || name in r.failed {
      ReportedNames(w, t, init, live, instance, cutoff, dryRun, name);
      var i :| 0 <= i < |init| && init[i].name == name;
      assert vs[i].name == name;
    } else {
      assert vs[|vs| - 1].name == name;
    }
  }

  /** Which place each volume ends in: listed when it is judged removable and, but for a dry run, the daemon lets it go;
      failed when the daemon does not; and neither when it is kept. */
  lemma {:induction false} SweepPlaces(w: World, t: nat, vs: seq<Summary>, live: set<string>, instance: Instance, cutoff: int,
                                       dryRun: bool, i: nat)
    requires i < |vs| && forall j, k | 0 <= j < k < |vs| :: vs[j].name != vs[k].name
    ensures var r := Sweep(w, t, vs, live, instance, cutoff, dryRun).0;
            var begun := Sweep(w, t, vs[..i], live, instance, cutoff, dryRun).1;
            var (outcome, asked) := Judge(w, begun, vs[i], live, instance, cutoff, dryRun);
            && (vs[i].name in r.listed <==> outcome == Remove && (dryRun || w.removes(asked, vs[i].name)))
            && (vs[i].name in r.failed <==> outcome == Remove && !dryRun && !w.removes(asked, vs[i].name))
  {
    hide Judge, Add, Sweep;
    var n := |vs| - 1;
    assert vs[..n + 1] == vs;
    SweepNext(w, t, vs, live, instance, cutoff, dryRun, n);
    AddPlaces(w, Sweep(w, t, vs[..n], live, instance, cutoff, dryRun), vs[n], live, instance, cutoff, dryRun, vs[i].name);
    if i == n {
      NotYet(w, t, vs[..n], live, instance, cutoff, dryRun, vs[n].name);
    } else {
      SweepPlaces(w, t, vs[..n], live, instance, cutoff, dryRun, i);
      assert vs[..n][..i] == vs[..i];
    }
  }

  lemma NotYet(w: World, t: nat, vs: seq<Summary>, live: set<string>, instance: Instance, cutoff: int, dryRun: bool, name: VolumeName)
    requires forall k | 0 <= k < |vs| :: vs[k].name != name
    ensures var r := Sweep(w, t, vs, live, instance, cutoff, dryRun).0; name !in r.listed && name !in r.failed
  {
    hide Sweep;
    var r := Sweep(w, t, vs, live, instance, cutoff, dryRun).0;
    if name in r.listed || name in r.failed {
      ReportedNames(w, t, vs, live, instance, cutoff, dryRun, name);
    }
  }

  /** One more volume changes the place of its own name only. */
  lemma AddPlaces(w: World, at: (Report, nat), v: Summary, live: set<string>, instance: Instance, cutoff: int, dryRun: bool,
                  name: VolumeName)
    ensures var r, r' := at.0, Add(w, at, v, live, instance, cutoff, dryRun).0;
            var (outcome, asked) := Judge(w, at.1, v, live, instance, cutoff, dryRun);
            && (name in r'.listed <==>
                  name in r.listed || (name == v.name && outcome == Remove && (dryRun || w.removes(asked, name))))
            && (name in r'.failed <==>
                  name in r.failed || (name == v.name && outcome == Remove && !dryRun && !w.removes(asked, name)))
  {
    hide Judge;
  }

  /** A removal the sweep asked the daemon for, at some await: right before it, on facts read after every other decision
      about the volume, the volume was removable. */
  ghost predicate AskedFor(w: World, v: Summary, instance: Instance, cutoff: int, t: nat, done: bool) {
    Removable(w, t, v, instance, cutoff) && w.removes(t + (if IsPerRepo(v) then 3 else 2), v.name) == done
  }

  lemma DecideLater(w: World, t: nat, v: Summary, live: Option<set<string>>, instance: Instance, cutoff: int)
    ensures Decide(w, t, v, live, instance, cutoff).1 >= t
    ensures Decide(w, t, v, live, instance, cutoff).0 == Remove ==>
              Decide(w, t, v, live, instance, cutoff).1 == t + 1 + (if live.None? then 1 else 0) + (if IsPerRepo(v) then 1 else 0)
  {
    hide RetainVolume, Lowered;
  }

  lemma AddLater(w: World, at: (Report, nat), v: Summary, live: set<string>, instance: Instance, cutoff: int, dryRun: bool)
    ensures Add(w, at, v, live, instance, cutoff, dryRun).1 >= at.1
  {
    hide Decide;
    DecideLater(w, at.1, v, Some(live), instance, cutoff);
    DecideLater(w, Decide(w, at.1, v, Some(live), instance, cutoff).1, v, None, instance, cutoff);
  }

  /** A name that one more volume brings to the report was asked for on fresh facts. */
  lemma AddFresh(w: World, at: (Report, nat), v: Summary, live: set<string>, instance: Instance, cutoff: int, name: VolumeName)
    requires name !in at.0.listed && name !in at.0.failed
    requires var r := Add(w, at, v, live, instance, cutoff, false).0; name in r.listed || name in r.failed
    ensures v.name == name
    ensures exists t :: t > at.1 && AskedFor(w, v, instance, cutoff, t, name in Add(w, at, v, live, instance, cutoff, false).0.listed)
  {
    hide Decide, Removable;
    var first := Decide(w, at.1, v, Some(live), instance, cutoff);
    DecideLater(w, at.1, v, Some(live), instance, cutoff);
    DecideLater(w, first.1, v, None, instance, cutoff);
    RemoveIff(w, first.1, v, instance, cutoff);
    assert AskedFor(w, v, instance, cutoff, first.1, name in Add(w, at, v, live, instance, cutoff, false).0.listed);
  }

  /** Whatever the world does between the sweep's reads, a volume it removes, or tries to, was removable on facts read
      right before. */
  lemma {:induction false} RemovedOnFreshFacts(w: World, t: nat, vs: seq<Summary>, live: set<string>, instance: Instance,
                                               cutoff: int, name: VolumeName)
    requires var r := Sweep(w, t, vs, live, instance, cutoff, false).0; name in r.listed || name in r.failed
    ensures exists v, t', done :: v in vs && v.name == name && t' > t && AskedFor(w, v, instance, cutoff, t', done)
                                  && (done ==> name in Sweep(w, t, vs, live, instance, cutoff, false).0.listed)
  {
    hide Add, AskedFor;
    var init, v := vs[..|vs| - 1], vs[|vs| - 1];
    assert vs == init + [v];
    var at := Sweep(w, t, init, live, instance, cutoff, false);
    SweepLater(w, t, init, live, instance, cutoff, false);
    AddKeeps(w, at, v, live, instance, cutoff);
    if name in at.0.listed || name in at.0.failed {
      RemovedOnFreshFacts(w, t, init, live, instance, cutoff, name);
    } else {
      AddFresh(w, at, v, live, instance, cutoff, name);
      var t' :| t' > at.1 && AskedFor(w, v, instance, cutoff, t', name in Add(w, at, v, live, instance, cutoff, false).0.listed);
    }
  }

  lemma AddKeeps(w: World, at: (Report, nat), v: Summary, live: set<string>, instance: Instance, cutoff: int)
    ensures at.0.listed <= Add(w, at, v, live, instance, cutoff, false).0.listed
    ensures at.0.failed <= Add(w, at, v, live, instance, cutoff, false).0.failed
  {
    hide Decide;
  }

  lemma {:induction false} SweepLater(w: World, t: nat, vs: seq<Summary>, live: set<string>, instance: Instance, cutoff: int,
                                      dryRun: bool)
    ensures Sweep(w, t, vs, live, instance, cutoff, dryRun).1 >= t
  {
    hide Add;
    if vs != [] {
      SweepLater(w, t, vs[..|vs| - 1], live, instance, cutoff, dryRun);
      AddLater(w, Sweep(w, t, vs[..|vs| - 1], live, instance, cutoff, dryRun), vs[|vs| - 1], live, instance, cutoff, dryRun);
    }
  }

  class RetentionSweep {
    const w: World
    const instance: Instance
    const cutoff: int
    const dryRun: bool
    /** The await the sweep has come to. */
    var t: nat
    var listed: seq<VolumeName>
    var failed: seq<VolumeName>
    var kept: multiset<Outcome>
    var errors: nat

    constructor (w: World, instance: Instance, cutoff: int, dryRun: bool)
      ensures this.w == w && this.instance == instance && this.cutoff == cutoff && this.dryRun == dryRun && t == 0
      ensures listed == [] && failed == [] && kept == multiset{} && errors == 0
    {
      this.w, this.instance, this.cutoff, this.dryRun := w, instance, cutoff, dryRun;
      t, listed, failed, kept, errors := 0, [], [], multiset{}, 0;
    }

    method DecideVolume(v: Summary, live: Option<set<string>>) returns (outcome: Outcome)
      modifies this`t
      ensures (outcome, t) == Decide(w, old(t), v, live, instance, cutoff)
    {
      var repos := live;
      if repos.None? {
        repos := w.live(t);
        t := t + 1;
        if repos.None? {
          return Unchecked;
        }
      }
      var row: Option<StateRow> := None;
      if IsPerRepo(v) {
        var read := w.row(t, Key(v));
        t := t + 1;
        if read.None? {
          return Unchecked;
        }
        row := read.value;
      }
      var verdict := RetainVolume(v.name, v.volume, instance, Warmed(v, row), Lowered(repos.value), cutoff);
      if verdict != Unused {
        return Keep(verdict);
      }
      var held := w.held(t, v.name);
      t := t + 1;
      outcome := if held.None? then Unchecked else if held.value then InUse else Remove;
    }

    /** The volumes of the listings: None when one of them, or the live repositories, could not be read. */
    method Volumes(listing: Option<seq<Summary>>)
      modifies this
      requires listed == [] && failed == [] && kept == multiset{}
      ensures errors == old(errors) + (if !Resolved(instance) || listing.None? || w.live(old(t)).None? then 1 else 0)
      ensures errors > old(errors) ==> listed == [] && failed == [] && kept == multiset{}
      ensures errors == old(errors) ==>
                (Report(listed, failed, kept), t)
                == Sweep(w, old(t) + 1, listing.value, w.live(old(t)).value, instance, cutoff, dryRun)
    {
      if !Resolved(instance) || listing.None? || w.live(t).None? {
        errors := errors + 1;
        return;
      }
      var vs, live := listing.value, w.live(t).value;
      hide Add, Sweep;
      t := t + 1;
      SweepNone(w, t, live, instance, cutoff, dryRun);
      assert vs[..0] == [];
      for i := 0 to |vs|
        invariant errors == old(errors)
        invariant (Report(listed, failed, kept), t) == Sweep(w, old(t) + 1, vs[..i], live, instance, cutoff, dryRun)
      {
        SweepNext(w, old(t) + 1, vs, live, instance, cutoff, dryRun, i);
        One(vs[i], live);
      }
      assert vs[..|vs|] == vs;
    }

    method One(v: Summary, live: set<string>)
      modifies this`t, this`listed, this`failed, this`kept
      ensures (Report(listed, failed, kept), t) == Add(w, old((Report(listed, failed, kept), t)), v, live, instance, cutoff, dryRun)
    {
      hide Decide;
      var outcome := DecideVolume(v, Some(live));
      if outcome == Remove && !dryRun {
        // A job of the repository can have started since the live repositories were read.
        outcome := DecideVolume(v, None);
      }
      if outcome != Remove {
        kept := kept + multiset{outcome};
      } else if dryRun {
        listed := listed + [v.name];
      } else {
        var removed := w.removes(t, v.name);
        t := t + 1;
        if removed {
          // The row goes with its volume, or outlives it when its deletion fails.
          t := t + 1;
          listed := listed + [v.name];
        } else {
          failed := failed + [v.name];
        }
      }
    }
  }
}
