/** Deployments that share one Docker daemon, step by step: what each reads, decides on and removes, in every interleaving.

    A step is what happens between two awaits. A sweep, a recreation or a clean-up reads a volume's labels in one step and
    removes the volume's name in a later one; a token holds what was read in between. */
module VolumeProtocol {
  import opened Prelude
  import opened VolumeOwnership

  /** A resolved instance id. */
  type Id = string

  datatype Token =
    | Reading(inst: Id, adopt: bool, grace: nat, volumes: map<VolumeName, Volume>)
    | Sweeping(inst: Id, adopt: bool, grace: nat, volumes: map<VolumeName, Volume>, statuses: map<JobId, Status>, now: int)
    | Removing(inst: Id, name: VolumeName, volume: Volume, destroys: bool)

  /** What is under way has read these volumes. */
  function Seen(t: Token): map<VolumeName, Volume> {
    if t.Removing? then map[t.name := t.volume] else t.volumes
  }

  /** jobs holds every deployment's own table. */
  datatype State = State(volumes: map<VolumeName, Volume>, mounted: set<VolumeName>, jobs: map<(Id, JobId), Status>,
                         tokens: seq<Token>, nextId: nat, now: int)

  datatype Step =
    | ForeignCreate(name: VolumeName, labels: Labels)
    | ForeignRemove(name: VolumeName)
    | Create(inst: Id, scope: Scope, key: string)
    | Mount(name: VolumeName)
    | Unmount(name: VolumeName)
    | NewJob(inst: Id, job: JobId)
    | MoveJob(inst: Id, job: JobId, to: Status)
    | Tick(time: int)
    | StartSweep(inst: Id, adopt: bool, grace: nat)
    | Inspect(t: nat, name: VolumeName)
    | FetchStatuses(t: nat)
    | CheckRecreate(inst: Id, scope: Scope, key: string)
    | CheckDestroy(inst: Id, job: JobId, name: VolumeName)
    | CheckRetain(inst: Id, name: VolumeName, warmedAt: Option<int>, live: set<string>, cutoff: int)
    | FreeHolders(t: nat)
    | Remove(t: nat, name: VolumeName)

  /** A new job's id is that of no volume's owner: ids are never used twice, and a job's row precedes its volumes. */
  predicate FreshJob(s: State, job: JobId) {
    && (forall n | n in s.volumes :: OwningJobId(n, s.volumes[n].labels, true) != Some(job))
    && (forall t, n | t in s.tokens && n in Seen(t) :: OwningJobId(n, Seen(t)[n].labels, true) != Some(job))
  }

  /** What under way may remove a name: the sweep's decision on what it read, or the check that was made. */
  predicate Licensed(t: Token, name: VolumeName) {
    match t
    case Reading(_, _, _, _) => false
    case Sweeping(inst, adopt, grace, volumes, statuses, now) =>
      name in volumes && DecideVolume(name, volumes[name], Some(inst), statuses, now, grace, adopt).remove
    case Removing(_, n, _, _) => n == name
  }

  /** The rules of the daemon and the tables, and the guards of the code before each step. */
  predicate Enabled(s: State, step: Step) {
    match step
    // Nothing else stamps a deployment's instance id.
    case ForeignCreate(name, labels) => name !in s.volumes && InstanceId !in labels
    case ForeignRemove(name) => name in s.volumes && name !in s.mounted
    case Create(inst, scope, key) =>
      Deployment(inst) && VolumeNameFor(scope, key, Some(inst)) !in s.volumes && (scope == PerJob ==> (inst, key) in s.jobs)
    case Mount(name) => name in s.volumes
    case Unmount(name) => true
    case NewJob(inst, job) => (inst, job) !in s.jobs && FreshJob(s, job)
    case MoveJob(inst, job, to) => (inst, job) in s.jobs && CanMove(s.jobs[(inst, job)], to)
    case Tick(time) => time >= s.now
    case StartSweep(inst, adopt, grace) => Deployment(inst)
    case Inspect(t, name) => t < |s.tokens| && s.tokens[t].Reading? && name in s.volumes
    case FetchStatuses(t) => t < |s.tokens| && s.tokens[t].Reading?
    case CheckRecreate(inst, scope, key) =>
      var name := VolumeNameFor(scope, key, Some(inst));
      Deployment(inst) && name in s.volumes && Matches(s.volumes[name].labels, scope, key, Some(inst))
    case CheckDestroy(inst, job, name) =>
      Deployment(inst) && name in s.volumes && Matches(s.volumes[name].labels, PerJob, job, Some(inst))
    // The labels are read here; the row and the live repositories, read later, are any.
    case CheckRetain(inst, name, warmedAt, live, cutoff) =>
      Deployment(inst) && name in s.volumes && RetainVolume(name, s.volumes[name], Some(inst), warmedAt, live, cutoff) == Unused
    case FreeHolders(t) => t < |s.tokens| && s.tokens[t].Removing? && s.tokens[t].destroys
    // No force: the daemon refuses a volume a container mounts.
    case Remove(t, name) => t < |s.tokens| && Licensed(s.tokens[t], name) && name in s.volumes && name !in s.mounted
  }

  function Owners(volumes: map<VolumeName, Volume>, adopt: bool): set<Option<JobId>> {
    set n | n in volumes :: OwningJobId(n, volumes[n].labels, adopt)
  }

  function Fetched(jobs: map<(Id, JobId), Status>, inst: Id, owners: set<Option<JobId>>): map<JobId, Status> {
    map k | k in jobs && k.0 == inst && Some(k.1) in owners :: k.1 := jobs[k]
  }

  function Effect(s: State, step: Step): State
    requires Enabled(s, step)
  {
    match step
    case ForeignCreate(name, labels) => s.(volumes := s.volumes[name := Volume(s.nextId, labels, Some(s.now))], nextId := s.nextId + 1)
    case ForeignRemove(name) => s.(volumes := s.volumes - {name})
    case Create(inst, scope, key) =>
      s.(volumes := s.volumes[VolumeNameFor(scope, key, Some(inst)) := Volume(s.nextId, VolumeLabels(scope, key, Some(inst)), Some(s.now))],
         nextId := s.nextId + 1)
    case Mount(name) => s.(mounted := s.mounted + {name})
    case Unmount(name) => s.(mounted := s.mounted - {name})
    case NewJob(inst, job) => s.(jobs := s.jobs[(inst, job) := Pending])
    case MoveJob(inst, job, to) => s.(jobs := s.jobs[(inst, job) := to])
    case Tick(time) => s.(now := time)
    case StartSweep(inst, adopt, grace) => s.(tokens := s.tokens + [Reading(inst, adopt, grace, map[])])
    case Inspect(t, name) =>
      var r := s.tokens[t];
      s.(tokens := s.tokens[t := Reading(r.inst, r.adopt, r.grace, r.volumes[name := s.volumes[name]])])
    case FetchStatuses(t) =>
      var r := s.tokens[t];
      s.(tokens := s.tokens[t := Sweeping(r.inst, r.adopt, r.grace, r.volumes, Fetched(s.jobs, r.inst, Owners(r.volumes, r.adopt)), s.now)])
    case CheckRecreate(inst, scope, key) =>
      var name := VolumeNameFor(scope, key, Some(inst));
      s.(tokens := s.tokens + [Removing(inst, name, s.volumes[name], false)])
    case CheckDestroy(inst, job, name) => s.(tokens := s.tokens + [Removing(inst, name, s.volumes[name], true)])
    case CheckRetain(inst, name, _, _, _) => s.(tokens := s.tokens + [Removing(inst, name, s.volumes[name], false)])
    case FreeHolders(t) => s.(mounted := s.mounted - {s.tokens[t].name})
    case Remove(t, name) => s.(volumes := s.volumes - {name})
  }

  function Apply(s: State, step: Step): State {
    if Enabled(s, step) then Effect(s, step) else s
  }

  function Run(s: State, steps: seq<Step>): State {
    if steps == [] then s else Apply(Run(s, steps[..|steps| - 1]), steps[|steps| - 1])
  }

  // ---- What every step keeps ----------------------------------------------

  /** A hashed name that carries an instance label is the name that instance gives its key, with the labels it stamps. */
  predicate Proper(name: VolumeName, v: Volume) {
    InstanceId in v.labels && name.Hashed? ==>
      && Deployment(v.labels[InstanceId]) && ScopeKey in v.labels
      && name == VolumeNameFor(name.scope, v.labels[ScopeKey], Some(v.labels[InstanceId]))
      && v.labels == VolumeLabels(name.scope, v.labels[ScopeKey], Some(v.labels[InstanceId]))
  }

  /** A volume that was read: labels never change, and no instance label appears later under a name of another form. */
  predicate SeenOk(s: State, name: VolumeName, v: Volume) {
    && v.id < s.nextId && Proper(name, v)
    && (name in s.volumes && (s.volumes[name].id == v.id || (name.Named? && InstanceId in s.volumes[name].labels)) ==>
          s.volumes[name] == v)
  }

  /** The owner of a volume that was read, with the status that was read: released for good, or without a row for good. */
  predicate OwnerOk(jobs: map<(Id, JobId), Status>, inst: Id, statuses: map<JobId, Status>, job: JobId) {
    if job in statuses then Released(statuses[job]) ==> (inst, job) in jobs && Released(jobs[(inst, job)])
    else (inst, job) !in jobs
  }

  predicate StatusesOk(jobs: map<(Id, JobId), Status>, t: Token)
    requires t.Sweeping?
  {
    forall n | n in t.volumes && OwningJobId(n, t.volumes[n].labels, t.adopt).Some? ::
      OwnerOk(jobs, t.inst, t.statuses, OwningJobId(n, t.volumes[n].labels, t.adopt).value)
  }

  ghost predicate TokenOk(s: State, t: Token) {
    && Deployment(t.inst)
    && (forall n | n in Seen(t) :: SeenOk(s, n, Seen(t)[n]))
    && (t.Removing? ==> IsOurs(t.volume.labels, Some(t.inst)))
    && (t.Sweeping? ==> StatusesOk(s.jobs, t))
  }

  ghost predicate Start(s: State) {
    && s.mounted <= s.volumes.Keys && s.tokens == []
    && (forall n | n in s.volumes :: s.volumes[n].id < s.nextId && Proper(n, s.volumes[n]))
  }

  ghost predicate Inv(s: State) {
    && s.mounted <= s.volumes.Keys
    && (forall n | n in s.volumes :: s.volumes[n].id < s.nextId && Proper(n, s.volumes[n]))
    && (forall i | 0 <= i < |s.tokens| :: TokenOk(s, s.tokens[i]))
  }

  /** How the volumes and the tables move in one step. */
  ghost predicate Evolves(s: State, s': State) {
    && s.nextId <= s'.nextId
    && (forall n | n in s'.volumes ::
          (n in s.volumes && s'.volumes[n] == s.volumes[n])
          || (s.nextId <= s'.volumes[n].id && (n.Named? ==> InstanceId !in s'.volumes[n].labels)))
    && (forall k | k in s.jobs :: k in s'.jobs && (Released(s.jobs[k]) ==> Released(s'.jobs[k])))
    && (forall k | k in s'.jobs && k !in s.jobs :: FreshJob(s, k.1))
  }

  lemma SweepsOnlyAdoptMore(name: VolumeName, labels: Labels, adopt: bool)
    ensures OwningJobId(name, labels, adopt).Some? ==> OwningJobId(name, labels, adopt) == OwningJobId(name, labels, true)
  {
  }

  lemma TokenStays(s: State, s': State, t: Token)
    requires Evolves(s, s') && t in s.tokens && TokenOk(s, t)
    ensures TokenOk(s', t)
  {
    hide OwningJobId, Proper, IsOurs, Released;
    if t.Sweeping? {
      forall n | n in t.volumes && OwningJobId(n, t.volumes[n].labels, t.adopt).Some?
        ensures OwnerOk(s'.jobs, t.inst, t.statuses, OwningJobId(n, t.volumes[n].labels, t.adopt).value)
      {
        var job := OwningJobId(n, t.volumes[n].labels, t.adopt).value;
        SweepsOnlyAdoptMore(n, t.volumes[n].labels, t.adopt);
        assert n in Seen(t);
        assert OwnerOk(s.jobs, t.inst, t.statuses, job);
        assert !FreshJob(s, job);
      }
    }
  }

  lemma CreatedProper(inst: Id, scope: Scope, key: string, v: Volume)
    requires Deployment(inst) && v.labels == VolumeLabels(scope, key, Some(inst))
    ensures Proper(VolumeNameFor(scope, key, Some(inst)), v)
  {
  }

  lemma StepEvolves(s: State, step: Step)
    requires Inv(s) && Enabled(s, step)
    ensures Evolves(s, Effect(s, step))
    ensures var s' := Effect(s, step);
            s'.mounted <= s'.volumes.Keys && forall n | n in s'.volumes :: s'.volumes[n].id < s'.nextId && Proper(n, s'.volumes[n])
  {
    hide TokenOk, FreshJob, Licensed, Proper, VolumeLabels, Matches, RetainVolume, Fetched, Owners;
    if step.Create? {
      CreatedProper(step.inst, step.scope, step.key, Volume(s.nextId, VolumeLabels(step.scope, step.key, Some(step.inst)), Some(s.now)));
    } else if step.ForeignCreate? {
      ForeignProper(step.name, Volume(s.nextId, step.labels, Some(s.now)));
    }
  }

  lemma ForeignProper(name: VolumeName, v: Volume)
    requires InstanceId !in v.labels
    ensures Proper(name, v)
  {
  }

  lemma CheckProvesOurs(s: State, step: Step)
    requires Enabled(s, step) && (step.CheckRecreate? || step.CheckDestroy? || step.CheckRetain?)
    ensures var name := if step.CheckRecreate? then VolumeNameFor(step.scope, step.key, Some(step.inst)) else step.name;
            Deployment(step.inst) && name in s.volumes && IsOurs(s.volumes[name].labels, Some(step.inst))
  {
    match step
    case CheckRecreate(inst, scope, key) => MatchProves(s.volumes[VolumeNameFor(scope, key, Some(inst))].labels, scope, key, Some(inst));
    case CheckDestroy(inst, job, name) => MatchProves(s.volumes[name].labels, PerJob, job, Some(inst));
    case CheckRetain(_, _, _, _, _) =>
  }

  lemma FetchedOk(s: State, r: Token, now: int)
    requires r.Reading?
    ensures StatusesOk(s.jobs, Sweeping(r.inst, r.adopt, r.grace, r.volumes, Fetched(s.jobs, r.inst, Owners(r.volumes, r.adopt)), now))
  {
    var statuses := Fetched(s.jobs, r.inst, Owners(r.volumes, r.adopt));
    forall n | n in r.volumes && OwningJobId(n, r.volumes[n].labels, r.adopt).Some?
      ensures OwnerOk(s.jobs, r.inst, statuses, OwningJobId(n, r.volumes[n].labels, r.adopt).value)
    {
      var owner := OwningJobId(n, r.volumes[n].labels, r.adopt);
      assert owner in Owners(r.volumes, r.adopt);
      if (r.inst, owner.value) in s.jobs {
        assert statuses[owner.value] == s.jobs[(r.inst, owner.value)];
      }
    }
  }

  lemma ReadOk(s: State, s': State, name: VolumeName)
    requires Inv(s) && Evolves(s, s') && name in s.volumes
    ensures SeenOk(s', name, s.volumes[name])
  {
    hide TokenOk, Proper;
  }

  lemma CheckedOk(s: State, s': State, inst: Id, name: VolumeName, destroys: bool)
    requires Inv(s) && Evolves(s, s') && Deployment(inst) && name in s.volumes && IsOurs(s.volumes[name].labels, Some(inst))
    ensures TokenOk(s', Removing(inst, name, s.volumes[name], destroys))
  {
    ReadOk(s, s', name);
    hide SeenOk, IsOurs;
  }

  lemma InspectedOk(s: State, s': State, r: Token, name: VolumeName)
    requires Inv(s) && Evolves(s, s') && r.Reading? && TokenOk(s', r) && name in s.volumes
    ensures TokenOk(s', Reading(r.inst, r.adopt, r.grace, r.volumes[name := s.volumes[name]]))
  {
    ReadOk(s, s', name);
    hide SeenOk;
    var r' := Reading(r.inst, r.adopt, r.grace, r.volumes[name := s.volumes[name]]);
    forall n | n in Seen(r')
      ensures SeenOk(s', n, Seen(r')[n])
    {
      assert n != name ==> n in Seen(r);
    }
  }

  lemma FetchOk(s: State, r: Token)
    requires r.Reading? && TokenOk(s, r)
    ensures TokenOk(s, Sweeping(r.inst, r.adopt, r.grace, r.volumes, Fetched(s.jobs, r.inst, Owners(r.volumes, r.adopt)), s.now))
  {
    FetchedOk(s, r, s.now);
    hide SeenOk, StatusesOk;
    var r' := Sweeping(r.inst, r.adopt, r.grace, r.volumes, Fetched(s.jobs, r.inst, Owners(r.volumes, r.adopt)), s.now);
    assert Seen(r') == Seen(r);
  }

  lemma StepInv(s: State, step: Step)
    requires Inv(s) && Enabled(s, step)
    ensures Inv(Effect(s, step))
  {
    hide Proper, Licensed, FreshJob, Evolves, Matches, RetainVolume, IsOurs, VolumeLabels, VolumeNameFor, TokenOk, Fetched, Owners;
    var s' := Effect(s, step);
    StepEvolves(s, step);
    forall i | 0 <= i < |s'.tokens|
      ensures TokenOk(s', s'.tokens[i])
    {
      if i < |s.tokens| {
        TokenStays(s, s', s.tokens[i]);
        if step.Inspect? && step.t == i {
          InspectedOk(s, s', s.tokens[i], step.name);
        } else if step.FetchStatuses? && step.t == i {
          FetchOk(s', s.tokens[i]);
        }
      } else if step.StartSweep? {
        SweepStarts(s', step.inst, step.adopt, step.grace);
      } else {
        CheckProvesOurs(s, step);
        CheckedOk(s, s', step.inst, if step.CheckRecreate? then VolumeNameFor(step.scope, step.key, Some(step.inst)) else step.name,
                  step.CheckDestroy?);
      }
    }
  }

  lemma SweepStarts(s: State, inst: Id, adopt: bool, grace: nat)
    requires Deployment(inst)
    ensures TokenOk(s, Reading(inst, adopt, grace, map[]))
  {
  }

  lemma {:induction false} RunInv(s: State, steps: seq<Step>)
    requires Inv(s)
    ensures Inv(Run(s, steps))
  {
    if steps != [] {
      RunInv(s, steps[..|steps| - 1]);
      if Enabled(Run(s, steps[..|steps| - 1]), steps[|steps| - 1]) {
        StepInv(Run(s, steps[..|steps| - 1]), steps[|steps| - 1]);
      }
    }
  }

  // ---- What is removed ----------------------------------------------------

  /** What a removal under a token may take from under a name. */
  predicate Rightful(s: State, t: Token, name: VolumeName)
    requires name in Seen(t) && name in s.volumes
  {
    var read, v := Seen(t)[name], s.volumes[name];
    // With an instance label it is this deployment's own, still labelled as it was read: never another deployment's.
    && (InstanceId in v.labels ==> v.labels[InstanceId] == t.inst && v.labels == read.labels)
    // Without one it is not the volume that was read, unless a sweep adopts unlabelled volumes of the legacy names.
    && (InstanceId !in v.labels ==>
          v.id != read.id || (t.Sweeping? && t.adopt && v.labels == map[] && LegacyJob(name).Some?))
  }

  lemma LicensedReadOurs(s: State, t: Token, name: VolumeName)
    requires TokenOk(s, t) && Licensed(t, name)
    ensures name in Seen(t)
    ensures var labels := Seen(t)[name].labels;
            IsOurs(labels, Some(t.inst)) || (t.Sweeping? && t.adopt && labels == map[] && LegacyJob(name).Some?)
  {
    hide SeenOk, StatusesOk, LegacyJob;
  }

  lemma LicensedRightful(s: State, t: Token, name: VolumeName)
    requires Inv(s) && t in s.tokens && Licensed(t, name) && name in s.volumes
    ensures name in Seen(t) && Rightful(s, t, name)
  {
    LicensedReadOurs(s, t, name);
    hide LegacyJob, DecideVolume, Licensed, StatusesOk, VolumeLabels;
    var read, v := Seen(t)[name], s.volumes[name];
    assert SeenOk(s, name, read) && Proper(name, v);
    if InstanceId in v.labels && v != read {
      assert name.Hashed?;
      assert IsOurs(read.labels, Some(t.inst));
      NamesDistinct(name.scope, read.labels[ScopeKey], Some(t.inst), name.scope, v.labels[ScopeKey], Some(v.labels[InstanceId]));
    }
  }

  /** In every run, a volume disappears, or is replaced, only in a step that removes it while no container mounts it: a
      removal from outside, or a rightful one under a token. */
  lemma OnlyRightfulRemovals(s0: State, steps: seq<Step>, step: Step, n: VolumeName)
    requires Start(s0) && n in Run(s0, steps).volumes
    ensures var s, s' := Run(s0, steps), Apply(Run(s0, steps), step);
            (n in s'.volumes && s'.volumes[n] == s.volumes[n])
            || (n !in s'.volumes && n !in s.mounted
                && (step == ForeignRemove(n)
                    || (step.Remove? && step.name == n && step.t < |s.tokens|
                        && n in Seen(s.tokens[step.t]) && Rightful(s, s.tokens[step.t], n))))
  {
    hide Rightful, Licensed, Matches, RetainVolume, VolumeLabels, FreshJob, Fetched, Owners, TokenOk, Proper, Run;
    RunInv(s0, steps);
    var s := Run(s0, steps);
    if step.Remove? && Enabled(s, step) {
      LicensedRightful(s, s.tokens[step.t], step.name);
    }
  }

  /** No step of one deployment removes a volume labelled for another one. */
  lemma NeverAnothers(s0: State, steps: seq<Step>, step: Step, n: VolumeName)
    requires Start(s0) && n in Run(s0, steps).volumes && InstanceId in Run(s0, steps).volumes[n].labels
    requires n !in Apply(Run(s0, steps), step).volumes
    ensures step == ForeignRemove(n)
            || (step.Remove? && step.t < |Run(s0, steps).tokens|
                && Run(s0, steps).tokens[step.t].inst == Run(s0, steps).volumes[n].labels[InstanceId])
  {
    OnlyRightfulRemovals(s0, steps, step, n);
  }

  /** The containers a clean-up removes mount the deployment's own volume, still labelled as it was read; or, exactly when
      the labels under the name are no longer those, an unlabelled volume that has taken its place. */
  lemma OnlyRightfulHolders(s0: State, steps: seq<Step>, t: nat)
    requires Start(s0) && Enabled(Run(s0, steps), FreeHolders(t)) && Run(s0, steps).tokens[t].name in Run(s0, steps).mounted
    ensures var s := Run(s0, steps);
            var tok := s.tokens[t];
            && tok.name in s.volumes && Rightful(s, tok, tok.name)
            && (InstanceId !in s.volumes[tok.name].labels <==> s.volumes[tok.name].labels != tok.volume.labels)
  {
    RunInv(s0, steps);
    var s := Run(s0, steps);
    LicensedRightful(s, s.tokens[t], s.tokens[t].name);
    LicensedReadOurs(s, s.tokens[t], s.tokens[t].name);
    hide Run, Enabled, Licensed, TokenOk, LegacyJob;
  }

  /** Without adoption a removal takes a volume that carries no instance label exactly when the labels are no longer those
      that were read. */
  lemma UnlabelledGoesIff(s0: State, steps: seq<Step>, t: nat, name: VolumeName)
    requires Start(s0) && Enabled(Run(s0, steps), Remove(t, name))
    requires var tok := Run(s0, steps).tokens[t]; tok.Sweeping? ==> !tok.adopt
    ensures var s := Run(s0, steps);
            name in Seen(s.tokens[t])
            && (InstanceId !in s.volumes[name].labels <==> s.volumes[name].labels != Seen(s.tokens[t])[name].labels)
  {
    RunInv(s0, steps);
    var s := Run(s0, steps);
    LicensedRightful(s, s.tokens[t], name);
    LicensedReadOurs(s, s.tokens[t], name);
    hide Run, Enabled, Licensed, TokenOk, LegacyJob;
  }

  const A_DEPLOYMENT: Id := "0123456789abcdef"

  function Replacing(): seq<Step> {
    var name := VolumeNameFor(PerRepo, "r", Some(A_DEPLOYMENT));
    [Create(A_DEPLOYMENT, PerRepo, "r"), CheckRecreate(A_DEPLOYMENT, PerRepo, "r"), ForeignRemove(name), ForeignCreate(name, map[])]
  }

  /** Between the label read and the removal one thing can still go wrong: the volume is removed from outside, and its name
      taken by an unlabelled one, which is then removed in its place. */
  lemma ReplacedVolumeGoes(s0: State)
    requires Start(s0) && s0.volumes == map[]
    ensures var s, name := Run(s0, Replacing()), VolumeNameFor(PerRepo, "r", Some(A_DEPLOYMENT));
            name in s.volumes && s.volumes[name].labels == map[] && name !in Apply(s, Remove(0, name)).volumes
  {
    hide Run, Matches, Proper, FreshJob, VolumeLabels, RetainVolume;
    var name := VolumeNameFor(PerRepo, "r", Some(A_DEPLOYMENT));
    FreshLabelsMatch(PerRepo, "r", A_DEPLOYMENT);
    var s1 := Apply(s0, Create(A_DEPLOYMENT, PerRepo, "r"));
    var s2 := Apply(s1, CheckRecreate(A_DEPLOYMENT, PerRepo, "r"));
    assert s2.tokens == [Removing(A_DEPLOYMENT, name, s1.volumes[name], false)];
    RunOfFour(s0, Create(A_DEPLOYMENT, PerRepo, "r"), CheckRecreate(A_DEPLOYMENT, PerRepo, "r"), ForeignRemove(name), ForeignCreate(name, map[]));
  }

  lemma RunOfFour(s: State, a: Step, b: Step, c: Step, d: Step)
    ensures Run(s, [a, b, c, d]) == Apply(Apply(Apply(Apply(s, a), b), c), d)
  {
    hide Apply;
    var steps := [a, b, c, d];
    assert steps[..3] == [a, b, c] && [a, b, c][..2] == [a, b] && [a, b][..1] == [a] && [a][..0] == [];
    assert Run(s, [a]) == Apply(s, a);
    assert Run(s, [a, b]) == Apply(Apply(s, a), b);
  }

  lemma FreshLabelsMatch(scope: Scope, key: string, inst: Id)
    ensures Matches(VolumeLabels(scope, key, Some(inst)), scope, key, Some(inst))
  {
  }

  // ---- The sweep's snapshot -----------------------------------------------

  /** The job has no row, or a status it never leaves to run again. */
  predicate Done(s: State, inst: Id, job: JobId) {
    (inst, job) !in s.jobs || Released(s.jobs[(inst, job)])
  }

  function SweepDecision(t: Token, name: VolumeName): Decision
    requires t.Sweeping? && name in t.volumes
  {
    DecideVolume(name, t.volumes[name], Some(t.inst), t.statuses, t.now, t.grace, t.adopt)
  }

  lemma SweptOwnerDone(s: State, t: Token, name: VolumeName)
    requires TokenOk(s, t) && t.Sweeping? && Licensed(t, name)
    ensures var d := SweepDecision(t, name);
            d.job.Some? && d.job == OwningJobId(name, t.volumes[name].labels, t.adopt) && Done(s, t.inst, d.job.value)
  {
    hide SeenOk, LegacyJob;
    var job := OwningJobId(name, t.volumes[name].labels, t.adopt);
    assert StatusesOk(s.jobs, t);
  }

  lemma {:induction false} SweepingStays(s: State, steps: seq<Step>, t: nat)
    requires t < |s.tokens| && s.tokens[t].Sweeping?
    ensures t < |Run(s, steps).tokens| && Run(s, steps).tokens[t] == s.tokens[t]
  {
    hide Enabled;
    if steps != [] {
      SweepingStays(s, steps[..|steps| - 1], t);
      TokenKept(Run(s, steps[..|steps| - 1]), steps[|steps| - 1], t);
    }
  }

  lemma TokenKept(s: State, step: Step, t: nat)
    requires t < |s.tokens| && s.tokens[t].Sweeping?
    ensures t < |Apply(s, step).tokens| && Apply(s, step).tokens[t] == s.tokens[t]
  {
    hide Licensed, Matches, RetainVolume, VolumeLabels, FreshJob, Fetched, Owners;
  }

  /** The reaper is safe on its stale snapshot. Whatever happens between its reads and a removal, the job it decided on
      has, when the volume is removed and at every later time, no row or a status it can no longer run from. A volume read
      unlabelled is decided on for the job its name gives; and a volume that is removed is that job's if it is this
      deployment's, or labelled as what was read. */
  lemma ReaperSafe(s0: State, steps: seq<Step>, t: nat, name: VolumeName, later: seq<Step>)
    requires Start(s0) && Enabled(Run(s0, steps), Remove(t, name)) && Run(s0, steps).tokens[t].Sweeping?
    ensures var s := Run(s0, steps);
            var tok, labels, job := s.tokens[t], s.volumes[name].labels, SweepDecision(s.tokens[t], name).job;
            && job.Some? && Done(Run(s, later), tok.inst, job.value)
            && (InstanceId !in tok.volumes[name].labels ==> tok.adopt && tok.volumes[name].labels == map[] && job == LegacyJob(name))
            && (InstanceId in labels || labels == tok.volumes[name].labels ==> OwningJobId(name, labels, tok.adopt) == job)
  {
    var s := Run(s0, steps);
    RunInv(s0, steps);
    RunInv(s, later);
    SweepingStays(s, later, t);
    assert TokenOk(Run(s, later), s.tokens[t]);
    SweptOwnerDone(Run(s, later), s.tokens[t], name);
    LicensedRightful(s, s.tokens[t], name);
  }
}
