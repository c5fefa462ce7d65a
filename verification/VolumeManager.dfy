/** The shared volume manager of one deployment: creating, reusing, recreating, mounting and destroying its volumes, and
    the warmth its state rows claim. */
module VolumeManager {
  import opened Prelude
  import opened VolumeOwnership

  type ScopeAndKey = (Scope, string)

  /** A qa_volume_state row. warmedOn is the volume, by its daemon id, whose tree was warmed when the sha was written. */
  datatype Row = Row(volumeName: VolumeName, sha: Option<string>, warmedOn: nat)

  type ContainerId = nat

  /** containers holds each container's mounts. */
  datatype World = World(volumes: map<VolumeName, Volume>, containers: map<ContainerId, set<VolumeName>>, rows: map<ScopeAndKey, Row>,
                         nextId: nat)

  predicate Mounted(w: World, name: VolumeName) {
    exists c | c in w.containers :: name in w.containers[c]
  }

  datatype SharedVolume = SharedVolume(name: VolumeName, scope: Scope, key: string)

  // ---- Single steps on the daemon and the table ---------------------------

  /** docker volume create: a volume that exists is left as it is, labels included. */
  function Create(w: World, scope: Scope, key: string, instance: Instance): World {
    var name := VolumeNameFor(scope, key, instance);
    if name in w.volumes then w
    else w.(volumes := w.volumes[name := Volume(w.nextId, VolumeLabels(scope, key, instance), None)], nextId := w.nextId + 1)
  }

  /** The upsert of a volume's row without a sha: it keeps the recorded one unless told to reset it. */
  function Record(w: World, scope: Scope, key: string, name: VolumeName, reset: bool): World {
    var row := if (scope, key) in w.rows && !reset then w.rows[(scope, key)].(volumeName := name) else Row(name, None, 0);
    w.(rows := w.rows[(scope, key) := row])
  }

  /** The upsert with a sha, for the volume that was warmed. */
  function RecordSha(w: World, scope: Scope, key: string, name: VolumeName, sha: string, warmedOn: nat): World {
    w.(rows := w.rows[(scope, key) := Row(name, Some(sha), warmedOn)])
  }

  /** Something else on the daemon creates a volume. */
  function External(w: World, name: VolumeName, labels: Labels): World {
    if name in w.volumes then w else w.(volumes := w.volumes[name := Volume(w.nextId, labels, None)], nextId := w.nextId + 1)
  }

  function Without(rows: map<ScopeAndKey, Row>, names: set<VolumeName>): map<ScopeAndKey, Row> {
    map k | k in rows && rows[k].volumeName !in names :: rows[k]
  }

  function Forget(w: World, name: VolumeName): World {
    w.(rows := Without(w.rows, {name}))
  }

  /** docker volume rm without force: refused for a mounted volume; the row goes with it unless its deletion fails. */
  function Remove(w: World, name: VolumeName, forgetFails: bool): World {
    if name !in w.volumes || Mounted(w, name) then w
    else
      var gone := w.(volumes := w.volumes - {name});
      if forgetFails then gone else Forget(gone, name)
  }

  /** Re-recording a row keeps its warmth under the new volume name; a reset clears it; a key without a row has none; and
      no other key's row changes. So only a reset takes a recorded sha away. */
  lemma RecordWarmth(w: World, scope: Scope, key: string, name: VolumeName, reset: bool)
    ensures var w', k := Record(w, scope, key, name, reset), (scope, key);
            && w'.volumes == w.volumes && w'.rows.Keys == w.rows.Keys + {k} && w'.rows[k].volumeName == name
            && (w'.rows[k].sha.Some? <==> !reset && k in w.rows && w.rows[k].sha.Some?)
            && (w'.rows[k].sha.Some? ==> w'.rows[k].sha == w.rows[k].sha && w'.rows[k].warmedOn == w.rows[k].warmedOn)
            && (forall k' | k' in w.rows && k' != k :: w'.rows[k'] == w.rows[k'])
  {
  }

  /** Forgetting a volume's name undoes every row that names it, and only those: recorded again without a reset, such a key
      starts without warmth. */
  lemma ForgetUndoes(w: World, name: VolumeName, scope: Scope, key: string)
    ensures var w' := Forget(w, name);
            && (forall k :: k in w'.rows <==> k in w.rows && w.rows[k].volumeName != name)
            && (forall k | k in w'.rows :: w'.rows[k] == w.rows[k])
            && ((scope, key) in w.rows && w.rows[(scope, key)].volumeName == name ==>
                  Record(w', scope, key, name, false).rows[(scope, key)].sha == None)
  {
  }

  predicate Usable(w: World, instance: Instance, scope: Scope, key: string) {
    var name := VolumeNameFor(scope, key, instance);
    name in w.volumes && Matches(w.volumes[name].labels, scope, key, instance)
  }

  // ---- The operations -----------------------------------------------------

  predicate NamesJob(job: Option<JobId>) {
    job.Some? && job.value != ""
  }

  /** ensure: the volume for the key, or a per-job one in its place; None where the source raises. */
  function EnsureSpec(w: World, instance: Instance, scope: Scope, key: string, job: Option<JobId>): (World, Option<SharedVolume>)
    decreases scope == PerRepo
  {
    var name := VolumeNameFor(scope, key, instance);
    if scope == PerRepo && !Resolved(instance) then FallbackSpec(w, instance, scope, job)
    else if name !in w.volumes then
      (Record(Create(w, scope, key, instance), scope, key, name, true), Some(SharedVolume(name, scope, key)))
    else if Usable(w, instance, scope, key) then (Record(w, scope, key, name, false), Some(SharedVolume(name, scope, key)))
    else FallbackSpec(w, instance, scope, job)
  }

  function FallbackSpec(w: World, instance: Instance, scope: Scope, job: Option<JobId>): (World, Option<SharedVolume>)
    decreases scope == PerRepo, 0
  {
    if scope == PerRepo && NamesJob(job) then EnsureSpec(w, instance, PerJob, job.value, None) else (w, None)
  }

  function RecreateSpec(w: World, instance: Instance, scope: Scope, key: string, job: Option<JobId>, forgetFails: bool)
      : (World, Option<SharedVolume>)
  {
    var name := VolumeNameFor(scope, key, instance);
    if scope == PerRepo && !Resolved(instance) then FallbackSpec(w, instance, scope, job)
    else if name !in w.volumes then EnsureSpec(w, instance, scope, key, job)
    else if !Usable(w, instance, scope, key) || Mounted(w, name) then FallbackSpec(w, instance, scope, job)
    else EnsureSpec(Remove(w, name, forgetFails), instance, scope, key, job)
  }

  predicate VerifySpec(w: World, instance: Instance, v: SharedVolume) {
    (v.scope == PerRepo ==> Resolved(instance))
    && v.name == VolumeNameFor(v.scope, v.key, instance) && Usable(w, instance, v.scope, v.key)
  }

  /** The warmer: installs into a verified volume when the recorded sha is another one, and records the sha. */
  function WarmSpec(w: World, instance: Instance, v: SharedVolume, sha: string): World {
    if !VerifySpec(w, instance, v) then w
    else if (v.scope, v.key) in w.rows && w.rows[(v.scope, v.key)].sha == Some(sha) then Record(w, v.scope, v.key, v.name, false)
    else RecordSha(w, v.scope, v.key, v.name, sha, w.volumes[v.name].id)
  }

  // ---- Warmth -------------------------------------------------------------

  /** No row claims a warm tree of an older volume: a recorded sha was warmed into the volume that is now usable for the
      key, if there is one. */
  ghost predicate Honest(w: World, instance: Instance) {
    && (forall n | n in w.volumes :: w.volumes[n].id < w.nextId)
    && (forall k | k in w.rows && w.rows[k].sha.Some? :: w.rows[k].warmedOn < w.nextId)
    && (forall k | k in w.rows :: HonestRow(w, instance, k))
  }

  predicate HonestRow(w: World, instance: Instance, k: ScopeAndKey)
    requires k in w.rows
  {
    w.rows[k].sha.Some? && Usable(w, instance, k.0, k.1) ==>
      w.rows[k].warmedOn == w.volumes[VolumeNameFor(k.0, k.1, instance)].id
  }

  /** What a run that was handed a volume may rely on: it is there, labelled for its key, recorded under its key, and its
      row claims no warmth it has not. */
  predicate Delivered(w: World, instance: Instance, v: SharedVolume) {
    && VerifySpec(w, instance, v)
    && (v.scope, v.key) in w.rows && w.rows[(v.scope, v.key)].volumeName == v.name
    && (w.rows[(v.scope, v.key)].sha.Some? ==> w.rows[(v.scope, v.key)].warmedOn == w.volumes[v.name].id)
  }

  lemma FreshMatches(scope: Scope, key: string, instance: Instance)
    ensures Matches(VolumeLabels(scope, key, instance), scope, key, instance)
  {
  }

  lemma CreateRecordHonest(w: World, instance: Instance, scope: Scope, key: string)
    requires Honest(w, instance) && VolumeNameFor(scope, key, instance) !in w.volumes
    ensures Honest(Record(Create(w, scope, key, instance), scope, key, VolumeNameFor(scope, key, instance), true), instance)
  {
    var name := VolumeNameFor(scope, key, instance);
    var w' := Record(Create(w, scope, key, instance), scope, key, name, true);
    forall k | k in w'.rows
      ensures HonestRow(w', instance, k)
    {
      if k != (scope, key) {
        assert HonestRow(w, instance, k);
        OtherName(scope, key, k.0, k.1, instance);
      }
    }
  }

  /** Within one deployment every scope and key has its own name, whatever the instance id holds. */
  lemma OtherName(scope: Scope, key: string, scope': Scope, key': string, instance: Instance)
    requires (scope, key) != (scope', key')
    ensures VolumeNameFor(scope, key, instance) != VolumeNameFor(scope', key', instance)
  {
    var i := if instance.Some? then instance.value else "";
    var s, s' := i + "\0" + key, i + "\0" + key';
    assert s[|i| + 1..] == key && s'[|i| + 1..] == key';
  }

  lemma RecordHonest(w: World, instance: Instance, scope: Scope, key: string, name: VolumeName)
    requires Honest(w, instance)
    ensures Honest(Record(w, scope, key, name, false), instance)
  {
    var w' := Record(w, scope, key, name, false);
    forall k | k in w'.rows
      ensures HonestRow(w', instance, k)
    {
      if k in w.rows {
        assert HonestRow(w, instance, k);
      }
    }
  }

  lemma RemoveHonest(w: World, instance: Instance, name: VolumeName, forgetFails: bool)
    requires Honest(w, instance)
    ensures Honest(Remove(w, name, forgetFails), instance)
  {
    var w' := Remove(w, name, forgetFails);
    forall k | k in w'.rows
      ensures HonestRow(w', instance, k)
    {
      assert HonestRow(w, instance, k);
    }
  }

  lemma WarmHonest(w: World, instance: Instance, v: SharedVolume, sha: string)
    requires Honest(w, instance)
    ensures Honest(WarmSpec(w, instance, v, sha), instance)
  {
    if VerifySpec(w, instance, v) {
      RecordHonest(w, instance, v.scope, v.key, v.name);
      var w' := RecordSha(w, v.scope, v.key, v.name, sha, w.volumes[v.name].id);
      forall k | k in w'.rows
        ensures HonestRow(w', instance, k)
      {
        if k != (v.scope, v.key) {
          assert HonestRow(w, instance, k);
        }
      }
    }
  }

  /** ensure keeps rows honest, removes no volume, changes none, and hands out only a volume to rely on. */
  lemma EnsureDelivers(w: World, instance: Instance, scope: Scope, key: string, job: Option<JobId>)
    requires Honest(w, instance)
    ensures var (w', r) := EnsureSpec(w, instance, scope, key, job);
            && Honest(w', instance)
            && (forall n | n in w.volumes :: n in w'.volumes && w'.volumes[n] == w.volumes[n])
            && (r.None? ==> w' == w)
            && (r.Some? ==> Delivered(w', instance, r.value)
                            && ((r.value.scope, r.value.key) == (scope, key)
                                || (scope == PerRepo && job == Some(r.value.key) && r.value.scope == PerJob)))
    decreases scope == PerRepo
  {
    var name := VolumeNameFor(scope, key, instance);
    if scope == PerRepo && (!Resolved(instance) || (name in w.volumes && !Usable(w, instance, scope, key))) {
      if NamesJob(job) {
        EnsureDelivers(w, instance, PerJob, job.value, None);
      }
    } else if name !in w.volumes {
      CreateRecordHonest(w, instance, scope, key);
      FreshMatches(scope, key, instance);
    } else if Usable(w, instance, scope, key) {
      RecordHonest(w, instance, scope, key, name);
      assert (scope, key) in w.rows ==> HonestRow(w, instance, (scope, key));
    }
  }

  lemma FallbackDelivers(w: World, instance: Instance, scope: Scope, job: Option<JobId>)
    requires Honest(w, instance)
    ensures var (w', r) := FallbackSpec(w, instance, scope, job);
            && Honest(w', instance)
            && (forall n | n in w.volumes :: n in w'.volumes && w'.volumes[n] == w.volumes[n])
            && (r.Some? ==> Delivered(w', instance, r.value) && scope == PerRepo && r.value.scope == PerJob)
  {
    hide Honest, Delivered;
    if NamesJob(job) {
      EnsureDelivers(w, instance, PerJob, job.value, None);
    }
  }

  lemma EnsureCreates(w: World, instance: Instance, scope: Scope, key: string, job: Option<JobId>)
    requires VolumeNameFor(scope, key, instance) !in w.volumes && (scope == PerRepo ==> Resolved(instance))
    ensures var (w', r) := EnsureSpec(w, instance, scope, key, job);
            r == Some(SharedVolume(VolumeNameFor(scope, key, instance), scope, key))
            && w'.volumes[r.value.name].id == w.nextId && w'.rows[(scope, key)].sha == None
  {
  }

  /** recreate keeps rows honest too; what it hands out under the key's own name is a volume created anew, with no warmth
      recorded; and it removes at most the key's own volume, when its labels prove it and no container mounts it. */
  lemma RecreateDelivers(w: World, instance: Instance, scope: Scope, key: string, job: Option<JobId>, forgetFails: bool)
    requires Honest(w, instance)
    ensures var (w', r) := RecreateSpec(w, instance, scope, key, job, forgetFails);
            var name := VolumeNameFor(scope, key, instance);
            && Honest(w', instance)
            && (r.Some? ==> Delivered(w', instance, r.value))
            && (r == Some(SharedVolume(name, scope, key)) ==>
                  w'.volumes[name].id == w.nextId && w'.rows[(scope, key)].sha == None)
            && (forall n | n in w.volumes && (n != name || Mounted(w, n) || !Usable(w, instance, scope, key)) ::
                  n in w'.volumes && w'.volumes[n] == w.volumes[n])
  {
    hide Delivered, Honest, EnsureSpec, FallbackSpec, Usable, Mounted, Remove;
    var name := VolumeNameFor(scope, key, instance);
    if (scope == PerRepo && !Resolved(instance)) || (name in w.volumes && (!Usable(w, instance, scope, key) || Mounted(w, name))) {
      FallbackDelivers(w, instance, scope, job);
    } else {
      var empty := Remove(w, name, forgetFails);
      RemovedIs(w, name, forgetFails);
      RemoveHonest(w, instance, name, forgetFails);
      EnsureDelivers(empty, instance, scope, key, job);
      EnsureCreates(empty, instance, scope, key, job);
    }
  }

  lemma RemovedIs(w: World, name: VolumeName, forgetFails: bool)
    ensures var w' := Remove(w, name, forgetFails);
            w'.nextId == w.nextId && w'.volumes == (if Mounted(w, name) then w.volumes else w.volumes - {name})
            && (name !in w.volumes ==> w' == w)
  {
    hide Mounted;
  }

  // ---- Every run of whole operations --------------------------------------

  datatype Op =
    | EnsureOp(scope: Scope, key: string, job: Option<JobId>)
    | RecreateOp(scope: Scope, key: string, job: Option<JobId>, forgetFails: bool)
    | WarmOp(volume: SharedVolume, sha: string)
    | RemoveOp(name: VolumeName, forgetFails: bool)
    | StartOp(container: ContainerId, mounts: set<VolumeName>)
    | StopOp(container: ContainerId)
    | ExternalOp(name: VolumeName, labels: Labels)

  /** One operation from start to end: of this deployment, of a sweep (a removal), or of something else on the daemon. */
  function Apply(w: World, instance: Instance, op: Op): World {
    match op
    case EnsureOp(scope, key, job) => EnsureSpec(w, instance, scope, key, job).0
    case RecreateOp(scope, key, job, forgetFails) => RecreateSpec(w, instance, scope, key, job, forgetFails).0
    case WarmOp(v, sha) => WarmSpec(w, instance, v, sha)
    case RemoveOp(name, forgetFails) => Remove(w, name, forgetFails)
    case StartOp(container, mounts) => w.(containers := w.containers[container := mounts])
    case StopOp(container) => w.(containers := w.containers - {container})
    case ExternalOp(name, labels) => External(w, name, labels)
  }

  function Run(w: World, instance: Instance, ops: seq<Op>): World {
    if ops == [] then w else Apply(Run(w, instance, ops[..|ops| - 1]), instance, ops[|ops| - 1])
  }

  /** Nothing else on the daemon creates a volume with this deployment's name and labels for a key. */
  ghost predicate Foreign(op: Op, instance: Instance) {
    op.ExternalOp? ==> forall scope, key :: op.name == VolumeNameFor(scope, key, instance) ==> !Matches(op.labels, scope, key, instance)
  }

  ghost predicate InScope(instance: Instance, ops: seq<Op>) {
    forall i | 0 <= i < |ops| :: Foreign(ops[i], instance)
  }

  lemma {:induction false} RunHonest(w: World, instance: Instance, ops: seq<Op>)
    requires Honest(w, instance) && InScope(instance, ops)
    ensures Honest(Run(w, instance, ops), instance)
  {
    if ops != [] {
      var before, op := Run(w, instance, ops[..|ops| - 1]), ops[|ops| - 1];
      RunHonest(w, instance, ops[..|ops| - 1]);
      match op
      case EnsureOp(scope, key, job) => EnsureDelivers(before, instance, scope, key, job);
      case RecreateOp(scope, key, job, forgetFails) => RecreateDelivers(before, instance, scope, key, job, forgetFails);
      case WarmOp(v, sha) => WarmHonest(before, instance, v, sha);
      case RemoveOp(name, forgetFails) => RemoveHonest(before, instance, name, forgetFails);
      case _ =>
        assert Foreign(op, instance);
        OtherHonest(before, instance, op);
    }
    hide Honest, EnsureSpec, RecreateSpec, WarmSpec, Remove, Foreign;
  }

  lemma OtherHonest(w: World, instance: Instance, op: Op)
    requires Honest(w, instance) && Foreign(op, instance) && (op.StartOp? || op.StopOp? || op.ExternalOp?)
    ensures Honest(Apply(w, instance, op), instance)
  {
    hide Matches;
    var after := Apply(w, instance, op);
    forall k | k in after.rows
      ensures HonestRow(after, instance, k)
    {
      assert HonestRow(w, instance, k);
    }
  }

  /** After any such run, a volume ensure hands out has a row that claims a warm tree only of that very volume. */
  lemma WarmthIsCurrent(w: World, instance: Instance, ops: seq<Op>, scope: Scope, key: string, job: Option<JobId>)
    requires Honest(w, instance) && InScope(instance, ops)
    ensures var (w', r) := EnsureSpec(Run(w, instance, ops), instance, scope, key, job);
            r.Some? ==> Delivered(w', instance, r.value)
  {
    RunHonest(w, instance, ops);
    EnsureDelivers(Run(w, instance, ops), instance, scope, key, job);
  }

  /** Operations that are not whole break this. Between another run's create and the row reset that follows it, ensure
      hands out the new, empty volume; its row then claims a warm tree exactly when the removed volume's row was left
      behind with one. */
  lemma EnsureDuringCreate(w: World, instance: Instance, scope: Scope, key: string, job: Option<JobId>)
    requires Honest(w, instance) && VolumeNameFor(scope, key, instance) !in w.volumes
    requires scope == PerRepo ==> Resolved(instance)
    ensures var (w', r) := EnsureSpec(Create(w, scope, key, instance), instance, scope, key, job);
            r == Some(SharedVolume(VolumeNameFor(scope, key, instance), scope, key))
            && (Delivered(w', instance, r.value) <==> !((scope, key) in w.rows && w.rows[(scope, key)].sha.Some?))
  {
    FreshMatches(scope, key, instance);
    assert (scope, key) in w.rows ==> HonestRow(w, instance, (scope, key));
  }

  // ---- Every interleaving of single calls ---------------------------------

  /** One call on the daemon or the table, by whichever run, sweep or warmer. ShaCall records a sha for the volume that was
      warmed, which may have gone since. */
  datatype Call =
    | CreateCall(scope: Scope, key: string)
    | RemoveCall(name: VolumeName)
    | DeleteRowCall(name: VolumeName)
    | UpsertCall(scope: Scope, key: string, name: VolumeName, reset: bool)
    | ShaCall(scope: Scope, key: string, name: VolumeName, sha: string, warmedOn: nat)
    | StartCall(container: ContainerId, mounts: set<VolumeName>)
    | StopCall(container: ContainerId)
    | ExternalCall(name: VolumeName, labels: Labels)

  function Called(w: World, instance: Instance, call: Call): World {
    match call
    case CreateCall(scope, key) => Create(w, scope, key, instance)
    case RemoveCall(name) => Remove(w, name, true)
    case DeleteRowCall(name) => Forget(w, name)
    case UpsertCall(scope, key, name, reset) => Record(w, scope, key, name, reset)
    case ShaCall(scope, key, name, sha, warmedOn) => RecordSha(w, scope, key, name, sha, warmedOn)
    case StartCall(container, mounts) => w.(containers := w.containers[container := mounts])
    case StopCall(container) => w.(containers := w.containers - {container})
    case ExternalCall(name, labels) => External(w, name, labels)
  }

  function After(w: World, instance: Instance, calls: seq<Call>): World {
    if calls == [] then w else Called(After(w, instance, calls[..|calls| - 1]), instance, calls[|calls| - 1])
  }

  lemma {:induction false} AfterAppend(w: World, instance: Instance, calls: seq<Call>, more: seq<Call>)
    ensures After(w, instance, calls + more) == After(After(w, instance, calls), instance, more)
  {
    hide Called;
    if more == [] {
      assert calls + more == calls;
    } else {
      var init := more[..|more| - 1];
      AfterAppend(w, instance, calls, init);
      assert (calls + more)[..|calls + more| - 1] == calls + init;
    }
  }

  lemma OneCall(w: World, instance: Instance, call: Call)
    ensures After(w, instance, []) == w && After(w, instance, [call]) == Called(w, instance, call)
  {
    assert [call][..0] == [];
  }

  lemma TwoCalls(w: World, instance: Instance, a: Call, b: Call)
    ensures After(w, instance, [a, b]) == Called(Called(w, instance, a), instance, b)
  {
    hide Called;
    OneCall(w, instance, a);
    assert [a, b][..1] == [a];
  }

  lemma EnsureIsCalls(w: World, instance: Instance, scope: Scope, key: string, job: Option<JobId>) returns (calls: seq<Call>)
    ensures EnsureSpec(w, instance, scope, key, job).0 == After(w, instance, calls)
    decreases scope == PerRepo
  {
    hide After, Usable;
    var name := VolumeNameFor(scope, key, instance);
    if (scope == PerRepo && !Resolved(instance)) || (name in w.volumes && !Usable(w, instance, scope, key)) {
      calls := FallbackIsCalls(w, instance, scope, job);
    } else if name !in w.volumes {
      calls := [CreateCall(scope, key), UpsertCall(scope, key, name, true)];
      TwoCalls(w, instance, calls[0], calls[1]);
    } else {
      calls := [UpsertCall(scope, key, name, false)];
      OneCall(w, instance, calls[0]);
    }
  }

  lemma FallbackIsCalls(w: World, instance: Instance, scope: Scope, job: Option<JobId>) returns (calls: seq<Call>)
    ensures FallbackSpec(w, instance, scope, job).0 == After(w, instance, calls)
    decreases scope == PerRepo, 0
  {
    if scope == PerRepo && NamesJob(job) {
      calls := EnsureIsCalls(w, instance, PerJob, job.value, None);
    } else {
      calls := [];
    }
  }

  lemma RemoveIsCalls(w: World, instance: Instance, name: VolumeName, forgetFails: bool) returns (calls: seq<Call>)
    ensures Remove(w, name, forgetFails) == After(w, instance, calls)
  {
    hide After;
    OneCall(w, instance, RemoveCall(name));
    TwoCalls(w, instance, RemoveCall(name), DeleteRowCall(name));
    calls := if name !in w.volumes || Mounted(w, name) then []
             else if forgetFails then [RemoveCall(name)] else [RemoveCall(name), DeleteRowCall(name)];
  }

  lemma RecreateIsCalls(w: World, instance: Instance, scope: Scope, key: string, job: Option<JobId>, forgetFails: bool)
      returns (calls: seq<Call>)
    ensures RecreateSpec(w, instance, scope, key, job, forgetFails).0 == After(w, instance, calls)
  {
    hide After, Usable, EnsureSpec, FallbackSpec, Remove;
    var name := VolumeNameFor(scope, key, instance);
    if scope == PerRepo && !Resolved(instance) {
      calls := FallbackIsCalls(w, instance, scope, job);
    } else if name !in w.volumes {
      calls := EnsureIsCalls(w, instance, scope, key, job);
    } else if !Usable(w, instance, scope, key) || Mounted(w, name) {
      calls := FallbackIsCalls(w, instance, scope, job);
    } else {
      var removal := RemoveIsCalls(w, instance, name, forgetFails);
      var rest := EnsureIsCalls(Remove(w, name, forgetFails), instance, scope, key, job);
      AfterAppend(w, instance, removal, rest);
      calls := removal + rest;
    }
  }

  /** Every whole operation is a list of such calls, so a run of whole operations is one of the interleavings. */
  lemma WholeIsCalls(w: World, instance: Instance, op: Op) returns (calls: seq<Call>)
    ensures Apply(w, instance, op) == After(w, instance, calls)
  {
    hide After, EnsureSpec, RecreateSpec, Remove, VerifySpec;
    match op
    case EnsureOp(scope, key, job) => calls := EnsureIsCalls(w, instance, scope, key, job);
    case RecreateOp(scope, key, job, forgetFails) => calls := RecreateIsCalls(w, instance, scope, key, job, forgetFails);
    case RemoveOp(name, forgetFails) => calls := RemoveIsCalls(w, instance, name, forgetFails);
    case WarmOp(v, sha) => calls := WarmIsCalls(w, instance, v, sha);
    case StartOp(container, mounts) =>
      calls := [StartCall(container, mounts)];
      OneCall(w, instance, calls[0]);
    case StopOp(container) =>
      calls := [StopCall(container)];
      OneCall(w, instance, calls[0]);
    case ExternalOp(name, labels) =>
      calls := [ExternalCall(name, labels)];
      OneCall(w, instance, calls[0]);
  }

  lemma WarmIsCalls(w: World, instance: Instance, v: SharedVolume, sha: string) returns (calls: seq<Call>)
    ensures WarmSpec(w, instance, v, sha) == After(w, instance, calls)
  {
    hide After, Matches;
    if !VerifySpec(w, instance, v) {
      OneCall(w, instance, RemoveCall(v.name));
      calls := [];
    } else {
      calls := [if (v.scope, v.key) in w.rows && w.rows[(v.scope, v.key)].sha == Some(sha)
                then UpsertCall(v.scope, v.key, v.name, false)
                else ShaCall(v.scope, v.key, v.name, sha, w.volumes[v.name].id)];
      OneCall(w, instance, calls[0]);
    }
  }

  // ---- When a row claims too much -----------------------------------------

  /** The volume the row's recorded sha was warmed into, if it records one. */
  function ClaimedOn(w: World, k: ScopeAndKey): Option<nat> {
    if k in w.rows && w.rows[k].sha.Some? then Some(w.rows[k].warmedOn) else None
  }

  /** The call records or clears the key's sha. A row is deleted by the name of its volume, whichever key it is of. */
  predicate Writes(w: World, call: Call, k: ScopeAndKey) {
    match call
    case UpsertCall(scope, key, _, reset) => reset && (scope, key) == k
    case ShaCall(scope, key, _, _, _) => (scope, key) == k
    case DeleteRowCall(name) => k in w.rows && w.rows[k].volumeName == name
    case _ => false
  }

  lemma CallClaims(w: World, instance: Instance, call: Call, k: ScopeAndKey)
    ensures ClaimedOn(Called(w, instance, call), k)
         == if !Writes(w, call, k) then ClaimedOn(w, k) else if call.ShaCall? then Some(call.warmedOn) else None
  {
  }

  /** Call i is the last to write the key's sha. */
  predicate LastWrite(w: World, instance: Instance, calls: seq<Call>, k: ScopeAndKey, i: nat) {
    && i < |calls| && Writes(After(w, instance, calls[..i]), calls[i], k)
    && forall j | i < j < |calls| :: !Writes(After(w, instance, calls[..j]), calls[j], k)
  }

  lemma LastWriteNext(w: World, instance: Instance, calls: seq<Call>, k: ScopeAndKey, i: nat)
    requires calls != []
    ensures var init, last := calls[..|calls| - 1], calls[|calls| - 1];
            LastWrite(w, instance, calls, k, i) <==>
              if Writes(After(w, instance, init), last, k) then i == |calls| - 1
              else LastWrite(w, instance, init, k, i)
  {
    hide Writes, After;
    var init := calls[..|calls| - 1];
    assert forall j | 0 <= j < |init| :: calls[j] == init[j] && calls[..j] == init[..j];
  }

  /** Call i is the last to write the key's sha, and recorded one for this volume. */
  predicate ClaimedAt(w: World, instance: Instance, calls: seq<Call>, k: ScopeAndKey, id: nat, i: nat) {
    LastWrite(w, instance, calls, k, i) && calls[i].ShaCall? && calls[i].warmedOn == id
  }

  ghost predicate LastClaims(w: World, instance: Instance, calls: seq<Call>, k: ScopeAndKey, id: nat) {
    exists i: nat :: ClaimedAt(w, instance, calls, k, id, i)
  }

  lemma ClaimedAtNext(w: World, instance: Instance, calls: seq<Call>, k: ScopeAndKey, id: nat, i: nat)
    requires calls != []
    ensures var init, n := calls[..|calls| - 1], |calls| - 1;
            ClaimedAt(w, instance, calls, k, id, i) <==>
              if Writes(After(w, instance, init), calls[n], k) then i == n && calls[n].ShaCall? && calls[n].warmedOn == id
              else ClaimedAt(w, instance, init, k, id, i)
  {
    LastWriteNext(w, instance, calls, k, i);
    LastWriteBound(w, instance, calls[..|calls| - 1], k, i);
    hide LastWrite, Writes, After;
  }

  lemma ClaimNext(w: World, instance: Instance, calls: seq<Call>, k: ScopeAndKey, id: nat)
    requires calls != []
    ensures var init, last := calls[..|calls| - 1], calls[|calls| - 1];
            LastClaims(w, instance, calls, k, id) <==>
              if Writes(After(w, instance, init), last, k) then last.ShaCall? && last.warmedOn == id
              else LastClaims(w, instance, init, k, id)
  {
    hide Writes, After, ClaimedAt;
    var init, n := calls[..|calls| - 1], |calls| - 1;
    ClaimedAtNext(w, instance, calls, k, id, n);
    if LastClaims(w, instance, init, k, id) {
      var i: nat :| ClaimedAt(w, instance, init, k, id, i);
      ClaimedAtNext(w, instance, calls, k, id, i);
    }
    if LastClaims(w, instance, calls, k, id) {
      var i: nat :| ClaimedAt(w, instance, calls, k, id, i);
      ClaimedAtNext(w, instance, calls, k, id, i);
    }
  }

  lemma {:induction false} ClaimedByLast(w: World, instance: Instance, calls: seq<Call>, k: ScopeAndKey, id: nat)
    requires ClaimedOn(w, k) == None
    ensures ClaimedOn(After(w, instance, calls), k) == Some(id) <==> LastClaims(w, instance, calls, k, id)
  {
    hide Called, Writes, ClaimedOn, LastClaims;
    if calls == [] {
      NoClaim(w, instance, k, id);
    } else {
      var init, n := calls[..|calls| - 1], |calls| - 1;
      ClaimedByLast(w, instance, init, k, id);
      CallClaims(After(w, instance, init), instance, calls[n], k);
      ClaimNext(w, instance, calls, k, id);
    }
  }

  lemma NoClaim(w: World, instance: Instance, k: ScopeAndKey, id: nat)
    ensures !LastClaims(w, instance, [], k, id)
  {
  }

  lemma LastWriteBound(w: World, instance: Instance, calls: seq<Call>, k: ScopeAndKey, i: nat)
    ensures LastWrite(w, instance, calls, k, i) ==> i < |calls|
  {
    hide After, Writes;
  }

  /** The key's row claims a warm tree that the volume to be handed out for it does not hold. */
  predicate IsStale(w: World, instance: Instance, k: ScopeAndKey) {
    k in w.rows && !HonestRow(w, instance, k)
  }

  /** In every interleaving of single calls, a key's row claims a warmth its volume has not exactly when the last write of
      the row recorded a sha for another volume than the one that is now there to be handed out. */
  lemma StaleIff(w: World, instance: Instance, calls: seq<Call>, k: ScopeAndKey)
    requires ClaimedOn(w, k) == None
    ensures var now := After(w, instance, calls);
            IsStale(now, instance, k) <==>
              && Usable(now, instance, k.0, k.1)
              && exists id: nat :: LastClaims(w, instance, calls, k, id) && id != now.volumes[VolumeNameFor(k.0, k.1, instance)].id
  {
    var now := After(w, instance, calls);
    hide After, LastClaims, Matches;
    if ClaimedOn(now, k).Some? {
      ClaimedByLast(w, instance, calls, k, ClaimedOn(now, k).value);
    }
    forall id: nat | LastClaims(w, instance, calls, k, id)
      ensures ClaimedOn(now, k) == Some(id)
    {
      ClaimedByLast(w, instance, calls, k, id);
    }
  }

  predicate FreshIds(w: World) {
    forall n | n in w.volumes :: w.volumes[n].id < w.nextId
  }

  /** One of the calls from the first given one on creates a volume under the name anew. */
  predicate Anew(w: World, instance: Instance, calls: seq<Call>, first: nat, name: VolumeName) {
    first < |calls|
    && (var init := calls[..|calls| - 1];
        Anew(w, instance, init, first, name)
        || (name !in After(w, instance, init).volumes && name in After(w, instance, calls).volumes))
  }

  lemma CallVolumes(w: World, instance: Instance, call: Call, name: VolumeName)
    ensures var w' := Called(w, instance, call);
            && w.nextId <= w'.nextId
            && (FreshIds(w) ==> FreshIds(w'))
            && (name in w'.volumes ==> if name in w.volumes then w'.volumes[name] == w.volumes[name]
                                       else w'.volumes[name].id == w.nextId)
  {
  }

  /** A volume that was there, and what is there now under its name. */
  predicate Traced(s: World, now: World, name: VolumeName, anew: bool) {
    && name in s.volumes && s.volumes[name].id < s.nextId <= now.nextId
    && (name in now.volumes && anew ==> s.nextId <= now.volumes[name].id)
    && (name in now.volumes && !anew ==> now.volumes[name] == s.volumes[name])
  }

  lemma {:induction false} SameUnlessAnew(w: World, instance: Instance, calls: seq<Call>, first: nat, name: VolumeName)
    requires FreshIds(w) && first <= |calls| && name in After(w, instance, calls[..first]).volumes
    ensures FreshIds(After(w, instance, calls))
    ensures Traced(After(w, instance, calls[..first]), After(w, instance, calls), name, Anew(w, instance, calls, first, name))
    decreases |calls|
  {
    if first == |calls| {
      assert calls[..first] == calls;
      AllFresh(w, instance, calls);
      hide After;
    } else {
      hide Called;
      var init := calls[..|calls| - 1];
      assert init[..first] == calls[..first];
      SameUnlessAnew(w, instance, init, first, name);
      CallVolumes(After(w, instance, init), instance, calls[|calls| - 1], name);
      assert After(w, instance, calls) == Called(After(w, instance, init), instance, calls[|calls| - 1]);
      hide After, FreshIds;
    }
  }

  lemma {:induction false} AllFresh(w: World, instance: Instance, calls: seq<Call>)
    requires FreshIds(w)
    ensures FreshIds(After(w, instance, calls))
  {
    if calls != [] {
      AllFresh(w, instance, calls[..|calls| - 1]);
      CallVolumes(After(w, instance, calls[..|calls| - 1]), instance, calls[|calls| - 1], Named(""));
      hide Called, FreshIds;
    }
  }

  /** When the volume that was warmed is still there as its sha is recorded, the row comes to claim too much exactly when a
      volume is created under the name anew, with the row neither reset nor deleted yet. */
  lemma StaleOnceAnew(w: World, instance: Instance, calls: seq<Call>, k: ScopeAndKey, i: nat)
    requires ClaimedOn(w, k) == None && FreshIds(w) && LastWrite(w, instance, calls, k, i) && calls[i].ShaCall?
    requires var name, s := VolumeNameFor(k.0, k.1, instance), After(w, instance, calls[..i]);
             name in s.volumes && s.volumes[name].id == calls[i].warmedOn
    ensures var now := After(w, instance, calls);
            IsStale(now, instance, k) <==>
              Usable(now, instance, k.0, k.1) && Anew(w, instance, calls, i, VolumeNameFor(k.0, k.1, instance))
  {
    var id := calls[i].warmedOn;
    assert ClaimedAt(w, instance, calls, k, id, i);
    assert LastClaims(w, instance, calls, k, id);
    ClaimedByLast(w, instance, calls, k, id);
    hide After, LastClaims, ClaimedAt, Writes, LastWrite, Matches, Anew;
    SameUnlessAnew(w, instance, calls, i, VolumeNameFor(k.0, k.1, instance));
  }

  // ---- Mounting -----------------------------------------------------------

  /** mountable: the volume of a name from the job's state, as this run may mount it. */
  function MountableSpec(w: World, instance: Instance, name: Option<VolumeName>, repo: string, job: JobId): Option<SharedVolume> {
    if name.None? || name.value == Named("") then None
    else
      var own := SharedVolume(VolumeNameFor(PerJob, job, instance), PerJob, job);
      var shared := SharedVolume(VolumeNameFor(PerRepo, repo, instance), PerRepo, repo);
      var v := if name.value == own.name then own else if repo != "" && name.value == shared.name then shared else own;
      if VerifySpec(w, instance, v) then Some(v) else None
  }

  /** What is mounted exists, is labelled as this deployment's for the run's own job or repository and nothing else, and is
      never the volume of another name: any other name resolves to the job's own volume or to none. */
  lemma MountableIff(w: World, instance: Instance, name: VolumeName, repo: string, job: JobId, v: SharedVolume)
    ensures MountableSpec(w, instance, Some(name), repo, job) == Some(v) <==>
              && name != Named("")
              && v.name in w.volumes && Matches(w.volumes[v.name].labels, v.scope, v.key, instance)
              && v.name == VolumeNameFor(v.scope, v.key, instance)
              && (if repo != "" && name == VolumeNameFor(PerRepo, repo, instance)
                  then v.scope == PerRepo && v.key == repo && Resolved(instance)
                  else v.scope == PerJob && v.key == job)
  {
  }

  // ---- The manager itself -------------------------------------------------

  /** The daemon and the state table, as the manager reaches them. */
  class Host {
    var volumes: map<VolumeName, Volume>
    var containers: map<ContainerId, set<VolumeName>>
    var rows: map<ScopeAndKey, Row>
    var nextId: nat

    function World_(): World
      reads this
    {
      World(volumes, containers, rows, nextId)
    }

    constructor (w: World)
      ensures World_() == w
    {
      volumes, containers, rows, nextId := w.volumes, w.containers, w.rows, w.nextId;
    }

    method CreateVolume(scope: Scope, key: string, instance: Instance)
      modifies this
      ensures World_() == Create(old(World_()), scope, key, instance)
    {
      var name := VolumeNameFor(scope, key, instance);
      if name !in volumes {
        volumes, nextId := volumes[name := Volume(nextId, VolumeLabels(scope, key, instance), None)], nextId + 1;
      }
    }

    method Upsert(scope: Scope, key: string, name: VolumeName, reset: bool)
      modifies this
      ensures World_() == Record(old(World_()), scope, key, name, reset)
    {
      if (scope, key) in rows && !reset {
        rows := rows[(scope, key) := rows[(scope, key)].(volumeName := name)];
      } else {
        rows := rows[(scope, key) := Row(name, None, 0)];
      }
    }

    /** Refused for a mounted volume. */
    method RemoveVolume(name: VolumeName) returns (removed: bool)
      modifies this
      ensures removed <==> name in old(volumes) && !Mounted(old(World_()), name)
      ensures World_() == Remove(old(World_()), name, true)
    {
      removed := name in volumes && !Mounted(World_(), name);
      if removed {
        volumes := volumes - {name};
      }
    }

    /** The containers that mount the volume are removed by force. */
    method RemoveHolders(name: VolumeName)
      modifies this
      ensures World_() == Freed(old(World_()), {name})
    {
      containers := map c | c in containers && containers[c] !! {name} :: containers[c];
    }

    method DeleteRow(name: VolumeName, fails: bool)
      modifies this
      ensures World_() == if fails then old(World_()) else Forget(old(World_()), name)
    {
      if !fails {
        rows := Without(rows, {name});
      }
    }
  }

  class SharedVolumeManager {
    const host: Host
    const instance: Instance
    var warnedNoInstance: bool

    constructor (host: Host, instance: Instance)
      ensures this.host == host && this.instance == instance && !warnedNoInstance
    {
      this.host, this.instance, warnedNoInstance := host, instance, false;
    }

    method Ensure(scope: Scope, key: string, job: Option<JobId>) returns (r: Option<SharedVolume>)
      modifies host, this
      ensures (host.World_(), r) == EnsureSpec(old(host.World_()), instance, scope, key, job)
      ensures warnedNoInstance == (old(warnedNoInstance) || (scope == PerRepo && !Resolved(instance)))
      decreases scope == PerRepo
    {
      if scope == PerRepo && !Resolved(instance) {
        r := PerJobInstead(job);
        return;
      }
      var name := VolumeNameFor(scope, key, instance);
      if name in host.volumes {
        if LabelMismatches(host.volumes[name].labels, VolumeLabels(scope, key, instance)) == [] {
          host.Upsert(scope, key, name, false);
          return Some(SharedVolume(name, scope, key));
        }
        r := Fallback(scope, job);
        return;
      }
      host.CreateVolume(scope, key, instance);
      host.Upsert(scope, key, name, true);
      r := Some(SharedVolume(name, scope, key));
    }

    method PerJobInstead(job: Option<JobId>) returns (r: Option<SharedVolume>)
      modifies host, this
      ensures (host.World_(), r) == FallbackSpec(old(host.World_()), instance, PerRepo, job)
      ensures warnedNoInstance
      decreases true, 0
    {
      warnedNoInstance := true;
      if !NamesJob(job) {
        return None;
      }
      r := Ensure(PerJob, job.value, None);
    }

    method Fallback(scope: Scope, job: Option<JobId>) returns (r: Option<SharedVolume>)
      modifies host, this
      ensures (host.World_(), r) == FallbackSpec(old(host.World_()), instance, scope, job)
      ensures warnedNoInstance == old(warnedNoInstance)
      decreases scope == PerRepo, 0
    {
      if scope == PerRepo && NamesJob(job) {
        r := Ensure(PerJob, job.value, None);
      } else {
        r := None;
      }
    }

    method Recreate(scope: Scope, key: string, job: Option<JobId>, forgetFails: bool) returns (r: Option<SharedVolume>)
      modifies host, this
      ensures (host.World_(), r) == RecreateSpec(old(host.World_()), instance, scope, key, job, forgetFails)
    {
      if scope == PerRepo && !Resolved(instance) {
        r := PerJobInstead(job);
        return;
      }
      var name := VolumeNameFor(scope, key, instance);
      if name in host.volumes {
        if LabelMismatches(host.volumes[name].labels, VolumeLabels(scope, key, instance)) != [] {
          r := Fallback(scope, job);
          return;
        }
        var removed := host.RemoveVolume(name);
        if !removed {
          r := Fallback(scope, job);
          return;
        }
        host.DeleteRow(name, forgetFails);
      }
      r := Ensure(scope, key, job);
    }

    method Verify(v: SharedVolume) returns (ok: bool)
      ensures ok == VerifySpec(host.World_(), instance, v)
    {
      if v.scope == PerRepo && !Resolved(instance) {
        return false;
      }
      if v.name != VolumeNameFor(v.scope, v.key, instance) {
        return false;
      }
      if v.name !in host.volumes {
        return false;
      }
      ok := LabelMismatches(host.volumes[v.name].labels, VolumeLabels(v.scope, v.key, instance)) == [];
    }

    method Mountable(name: Option<VolumeName>, repo: string, job: JobId) returns (r: Option<SharedVolume>)
      ensures r == MountableSpec(host.World_(), instance, name, repo, job)
    {
      if name.None? || name.value == Named("") {
        return None;
      }
      var candidates := [SharedVolume(VolumeNameFor(PerJob, job, instance), PerJob, job)];
      if repo != "" {
        candidates := candidates + [SharedVolume(VolumeNameFor(PerRepo, repo, instance), PerRepo, repo)];
      }
      var v := candidates[0];
      if v.name != name.value && |candidates| > 1 && candidates[1].name == name.value {
        v := candidates[1];
      }
      var ok := Verify(v);
      r := if ok then Some(v) else None;
    }

    /** One owned volume: its holders go unless they cannot, then it goes unless it is refused or still mounted. */
    method RemoveOwned(name: VolumeName, held: bool, refused: bool, forgetFails: bool) returns (removed: bool)
      modifies host
      ensures var w := if held then old(host.World_()) else Freed(old(host.World_()), {name});
              && (removed <==> name in w.volumes && !Mounted(w, name) && !refused)
              && host.World_() == if refused then w else Remove(w, name, forgetFails)
    {
      if !held {
        host.RemoveHolders(name);
      }
      removed := false;
      if !refused {
        removed := host.RemoveVolume(name);
        if removed {
          host.DeleteRow(name, forgetFails);
        }
      }
    }

    /** destroy_for_job: byLabel are the volumes that the daemon lists under the job's label. Every volume of the job, and no
        other, loses its holders but for the held, whose containers would not go; and each goes with its row, but for the
        refused and those still mounted. */
    method DestroyForJob(job: JobId, byLabel: seq<VolumeName>, held: set<VolumeName>, refused: set<VolumeName>,
                         unforgotten: set<VolumeName>) returns (removed: seq<VolumeName>)
      requires LabelledFor(host.World_(), instance, job, byLabel)
      modifies host
      ensures var w, own := old(host.World_()), JobVolumes(old(host.World_()), instance, job);
              && removed == GoneOf(w, own, held, refused, Listed(w, instance, job, byLabel))
              && host.World_() == Destroyed(w, own - held, removed, unforgotten)
    {
      hide JobVolumes, GoneOf, Destroyed, Progress, Listed, LabelledFor, Freed, Matches, NamesIn, Mounted, Remove, LabelMismatches,
        VolumeLabels, AreVolumes;
      ghost var w := host.World_();
      ghost var own := JobVolumes(w, instance, job);
      var names := Listed(host.World_(), instance, job, byLabel);
      ListedHas(w, instance, job, byLabel);
      removed := [];
      ProgressNone(w, own, held, refused, unforgotten, names);
      for i := 0 to |names|
        invariant Progress(w, own, held, refused, unforgotten, names[..i], removed, host.World_())
      {
        var name := names[i];
        ghost var before := host.World_();
        ProgressLeaves(w, own, held, refused, unforgotten, names, i, removed, before);
        JobVolumesHas(w, instance, job, name);
        if LabelMismatches(host.volumes[name].labels, VolumeLabels(PerJob, job, instance)) == [] {
          var ok := RemoveOwned(name, name in held, name in refused, name in unforgotten);
          ProgressOwn(w, own, held, refused, unforgotten, names, i, removed, before, host.World_(), ok);
          if ok {
            removed := removed + [name];
          }
        } else {
          ProgressOther(w, own, held, refused, unforgotten, names, i, removed, before);
        }
      }
      ProgressAll(w, own, held, refused, unforgotten, names, removed, host.World_());
    }
  }

  // ---- Destroying a job's volumes -----------------------------------------

  /** Without the containers that mount one of these volumes. */
  function Freed(w: World, freed: set<VolumeName>): World {
    w.(containers := map c | c in w.containers && w.containers[c] !! freed :: w.containers[c])
  }

  /** The names of the job that the clean-up looks at, in order. */
  function Listed(w: World, instance: Instance, job: JobId, byLabel: seq<VolumeName>): seq<VolumeName> {
    var own := VolumeNameFor(PerJob, job, instance);
    if own in w.volumes then [own] + Besides(byLabel, own) else byLabel
  }

  function Besides(names: seq<VolumeName>, own: VolumeName): (r: seq<VolumeName>)
    ensures forall n :: n in r <==> n in names && n != own
  {
    if names == [] then [] else
      Besides(names[..|names| - 1], own) + (if names[|names| - 1] == own then [] else [names[|names| - 1]])
  }

  /** What the daemon lists for the job's label, and the deployment's where its id is known. */
  ghost predicate LabelledFor(w: World, instance: Instance, job: JobId, byLabel: seq<VolumeName>) {
    && Distinct(byLabel)
    && forall n :: n in byLabel <==>
         n in w.volumes && Get(w.volumes[n].labels, OwnerJob) == Some(job)
         && (Resolved(instance) ==> Get(w.volumes[n].labels, InstanceId) == instance)
  }

  function NamesIn(names: seq<VolumeName>): set<VolumeName> {
    set n | n in names
  }

  /** The last of these names goes: owned, not refused, and without holders once those of the names up to it are gone. */
  predicate LastGoes(w: World, own: set<VolumeName>, held: set<VolumeName>, refused: set<VolumeName>, names: seq<VolumeName>)
    requires names != []
  {
    var name := names[|names| - 1];
    name in own && name !in refused && !Mounted(Freed(w, (own - held) * NamesIn(names)), name)
  }

  function GoneOf(w: World, own: set<VolumeName>, held: set<VolumeName>, refused: set<VolumeName>, names: seq<VolumeName>)
      : seq<VolumeName>
  {
    if names == [] then [] else
      GoneOf(w, own, held, refused, names[..|names| - 1])
      + (if LastGoes(w, own, held, refused, names) then [names[|names| - 1]] else [])
  }

  /** Some volumes freed of the containers that mount them, and some gone, with their rows but for those whose deletion failed. */
  function Destroyed(w: World, freed: set<VolumeName>, gone: seq<VolumeName>, unforgotten: set<VolumeName>): World {
    World(w.volumes - NamesIn(gone), Freed(w, freed).containers, Without(w.rows, NamesIn(gone) - unforgotten), w.nextId)
  }

  /** The state of a destruction that has dealt with some names. */
  predicate Progress(w: World, own: set<VolumeName>, held: set<VolumeName>, refused: set<VolumeName>, unforgotten: set<VolumeName>,
                     names: seq<VolumeName>, removed: seq<VolumeName>, now: World)
  {
    && removed == GoneOf(w, own, held, refused, names)
    && now == Destroyed(w, (own - held) * NamesIn(names), removed, unforgotten)
  }

  lemma ProgressNone(w: World, own: set<VolumeName>, held: set<VolumeName>, refused: set<VolumeName>, unforgotten: set<VolumeName>,
                     names: seq<VolumeName>)
    ensures Progress(w, own, held, refused, unforgotten, names[..0], [], w)
  {
    assert Freed(w, (own - held) * NamesIn([])).containers == w.containers;
    assert Without(w.rows, NamesIn([]) - unforgotten) == w.rows;
    assert w.volumes - NamesIn([]) == w.volumes;
  }

  lemma NamesInMore(names: seq<VolumeName>, name: VolumeName)
    ensures NamesIn(names + [name]) == NamesIn(names) + {name}
  {
  }

  lemma {:induction false} GoneAmong(w: World, own: set<VolumeName>, held: set<VolumeName>, refused: set<VolumeName>,
                                     names: seq<VolumeName>)
    ensures NamesIn(GoneOf(w, own, held, refused, names)) <= NamesIn(names)
  {
    hide LastGoes;
    if names != [] {
      var init, last := names[..|names| - 1], names[|names| - 1];
      GoneAmong(w, own, held, refused, init);
      assert names == init + [last];
      NamesInMore(init, last);
      NamesInMore(GoneOf(w, own, held, refused, init), last);
      hide NamesIn;
    }
  }

  predicate AreVolumes(w: World, names: seq<VolumeName>) {
    Distinct(names) && forall i | 0 <= i < |names| :: names[i] in w.volumes
  }

  lemma ProgressLeaves(w: World, own: set<VolumeName>, held: set<VolumeName>, refused: set<VolumeName>, unforgotten: set<VolumeName>,
                       names: seq<VolumeName>, i: nat, removed: seq<VolumeName>, now: World)
    requires i < |names| && AreVolumes(w, names) && Progress(w, own, held, refused, unforgotten, names[..i], removed, now)
    ensures names[i] in w.volumes && names[i] in now.volumes && now.volumes[names[i]] == w.volumes[names[i]]
  {
    hide GoneOf, Without, Freed;
    GoneAmong(w, own, held, refused, names[..i]);
    assert names[i] !in NamesIn(names[..i]);
  }

  lemma FreedTwice(w: World, a: set<VolumeName>, b: set<VolumeName>)
    ensures Freed(Freed(w, a), b) == Freed(w, a + b)
  {
  }

  /** Some more freed and perhaps one more gone. */
  lemma DestroyedThen(w: World, freed: set<VolumeName>, gone: seq<VolumeName>, unforgotten: set<VolumeName>, name: VolumeName,
                      more: set<VolumeName>)
    ensures var now := Freed(Destroyed(w, freed, gone, unforgotten), more);
            && now == Destroyed(w, freed + more, gone, unforgotten)
            && (name in now.volumes && !Mounted(now, name) ==>
                  Remove(now, name, name in unforgotten) == Destroyed(w, freed + more, gone + [name], unforgotten))
  {
    FreedTwice(w, freed, more);
    var now := Destroyed(w, freed + more, gone, unforgotten);
    assert Freed(Destroyed(w, freed, gone, unforgotten), more).containers == Freed(Freed(w, freed), more).containers;
    NamesInMore(gone, name);
    hide Freed, Mounted, NamesIn;
    assert now.volumes - {name} == w.volumes - (NamesIn(gone) + {name});
    assert Without(Without(w.rows, NamesIn(gone) - unforgotten), {name})
        == Without(w.rows, (NamesIn(gone) - unforgotten) + {name});
    if name in unforgotten {
      assert NamesIn(gone) + {name} - unforgotten == NamesIn(gone) - unforgotten;
    } else {
      assert NamesIn(gone) + {name} - unforgotten == NamesIn(gone) - unforgotten + {name};
    }
  }

  lemma NotFreed(w: World)
    ensures Freed(w, {}) == w
  {
    assert Freed(w, {}).containers == w.containers;
  }

  lemma GoneNext(w: World, own: set<VolumeName>, held: set<VolumeName>, refused: set<VolumeName>, names: seq<VolumeName>, i: nat)
    requires i < |names|
    ensures var name, freed := names[i], (own - held) * NamesIn(names[..i]);
            && (own - held) * NamesIn(names[..i + 1]) == freed + (if name in own && name !in held then {name} else {})
            && GoneOf(w, own, held, refused, names[..i + 1])
               == GoneOf(w, own, held, refused, names[..i])
                  + (if name in own && name !in refused && !Mounted(Freed(w, (own - held) * NamesIn(names[..i + 1])), name)
                     then [name] else [])
  {
    hide Freed, Mounted;
    assert names[..i + 1] == names[..i] + [names[i]];
    NamesInMore(names[..i], names[i]);
    hide NamesIn;
    assert names[..i + 1][..i] == names[..i];
  }

  lemma ProgressOwn(w: World, own: set<VolumeName>, held: set<VolumeName>, refused: set<VolumeName>, unforgotten: set<VolumeName>,
                    names: seq<VolumeName>, i: nat, removed: seq<VolumeName>, before: World, now: World, ok: bool)
    requires i < |names| && names[i] in own && names[i] in before.volumes
    requires Progress(w, own, held, refused, unforgotten, names[..i], removed, before)
    requires var name := names[i];
             var freed := if name in held then before else Freed(before, {name});
             && (ok <==> name in freed.volumes && !Mounted(freed, name) && name !in refused)
             && now == if name in refused then freed else Remove(freed, name, name in unforgotten)
    ensures Progress(w, own, held, refused, unforgotten, names[..i + 1], if ok then removed + [names[i]] else removed, now)
  {
    var name := names[i];
    var more := if name in held then {} else {name};
    var freed := (own - held) * NamesIn(names[..i]);
    NotFreed(before);
    GoneNext(w, own, held, refused, names, i);
    DestroyedThen(w, freed, removed, unforgotten, name, more);
    SameMounts(w, freed + more, removed, unforgotten, name);
    hide GoneOf, NamesIn, Freed, Mounted, Destroyed;
  }

  lemma SameMounts(w: World, freed: set<VolumeName>, gone: seq<VolumeName>, unforgotten: set<VolumeName>, name: VolumeName)
    ensures Mounted(Destroyed(w, freed, gone, unforgotten), name) <==> Mounted(Freed(w, freed), name)
  {
  }

  lemma ProgressOther(w: World, own: set<VolumeName>, held: set<VolumeName>, refused: set<VolumeName>, unforgotten: set<VolumeName>,
                      names: seq<VolumeName>, i: nat, removed: seq<VolumeName>, now: World)
    requires i < |names| && names[i] !in own && Progress(w, own, held, refused, unforgotten, names[..i], removed, now)
    ensures Progress(w, own, held, refused, unforgotten, names[..i + 1], removed, now)
  {
    GoneNext(w, own, held, refused, names, i);
    assert (own - held) * NamesIn(names[..i]) + {} == (own - held) * NamesIn(names[..i]);
    hide GoneOf, NamesIn, Freed, Mounted, Destroyed;
  }

  lemma ProgressAll(w: World, own: set<VolumeName>, held: set<VolumeName>, refused: set<VolumeName>, unforgotten: set<VolumeName>,
                    names: seq<VolumeName>, removed: seq<VolumeName>, now: World)
    requires Progress(w, own, held, refused, unforgotten, names[..|names|], removed, now) && own <= NamesIn(names)
    ensures removed == GoneOf(w, own, held, refused, names) && now == Destroyed(w, own - held, removed, unforgotten)
  {
    assert names[..|names|] == names;
    assert (own - held) * NamesIn(names) == own - held;
    hide GoneOf, NamesIn, Destroyed;
  }

  lemma JobVolumesHas(w: World, instance: Instance, job: JobId, name: VolumeName)
    requires name in w.volumes
    ensures name in JobVolumes(w, instance, job)
       <==> LabelMismatches(w.volumes[name].labels, VolumeLabels(PerJob, job, instance)) == []
  {
  }

  /** The volumes whose labels are exactly a per-job volume of the job on this deployment. */
  function JobVolumes(w: World, instance: Instance, job: JobId): set<VolumeName> {
    set n | n in w.volumes && Matches(w.volumes[n].labels, PerJob, job, instance)
  }

  predicate Distinct(names: seq<VolumeName>) {
    forall i, j | 0 <= i < j < |names| :: names[i] != names[j]
  }

  lemma DistinctJoined(a: seq<VolumeName>, b: seq<VolumeName>)
    requires Distinct(a) && Distinct(b) && forall n | n in a :: n !in b
    ensures Distinct(a + b)
  {
    forall i, j | 0 <= i < j < |a + b|
      ensures (a + b)[i] != (a + b)[j]
    {
      if i < |a| <= j {
        assert a[i] in a && b[j - |a|] in b;
      }
    }
  }

  lemma DistinctInit(names: seq<VolumeName>)
    requires Distinct(names) && names != []
    ensures Distinct(names[..|names| - 1]) && names[|names| - 1] !in names[..|names| - 1]
  {
  }

  lemma {:induction false} BesidesDistinct(names: seq<VolumeName>, own: VolumeName)
    requires Distinct(names)
    ensures Distinct(Besides(names, own))
  {
    hide Distinct;
    if names == [] {
      assert Besides(names, own) == names;
    } else {
      DistinctInit(names);
      BesidesDistinct(names[..|names| - 1], own);
      var before, last := Besides(names[..|names| - 1], own), names[|names| - 1];
      DistinctLone(last);
      DistinctJoined(before, [last]);
      assert Besides(names, own) == if last == own then before else before + [last];
    }
  }

  lemma DistinctLone(name: VolumeName)
    ensures Distinct([name])
  {
  }

  lemma ListedHas(w: World, instance: Instance, job: JobId, byLabel: seq<VolumeName>)
    requires LabelledFor(w, instance, job, byLabel)
    ensures var names := Listed(w, instance, job, byLabel);
            AreVolumes(w, names) && JobVolumes(w, instance, job) <= NamesIn(names)
  {
    hide VolumeNameFor, Matches, Distinct;
    var own := VolumeNameFor(PerJob, job, instance);
    BesidesDistinct(byLabel, own);
    DistinctLone(own);
    DistinctJoined([own], Besides(byLabel, own));
    var names := Listed(w, instance, job, byLabel);
    hide Besides;
    assert forall n | n in names :: n in w.volumes;
    forall n | n in JobVolumes(w, instance, job)
      ensures n in names
    {
      MatchProves(w.volumes[n].labels, PerJob, job, instance);
    }
  }

  lemma LastGoesIs(w: World, own: set<VolumeName>, held: set<VolumeName>, refused: set<VolumeName>, names: seq<VolumeName>)
    requires names != []
    ensures var i := |names| - 1;
            LastGoes(w, own, held, refused, names) <==>
              && names[i] in own && names[i] !in refused
              && (names[i] in held ==> forall c | c in w.containers && names[i] in w.containers[c] :: HeldBefore(w, own, held, names, i, c))
  {
    var i, freed := |names| - 1, (own - held) * NamesIn(names);
    var name, left := names[i], Freed(w, freed);
    forall c | c in w.containers && name in w.containers[c] && name in own
      ensures c !in left.containers <==> name !in held || HeldBefore(w, own, held, names, i, c)
    {
      if name !in held {
        assert name in freed && name in w.containers[c];
      }
      if c !in left.containers && name in held {
        var f :| f in freed && f in w.containers[c];
        var j :| 0 <= j < |names| && names[j] == f;
        assert j < i;
      }
    }
    hide NamesIn;
    if Mounted(left, name) {
      var c :| c in left.containers && name in left.containers[c];
      assert c in w.containers && name in w.containers[c];
    }
    forall c | c in w.containers && name in w.containers[c] && c in left.containers
      ensures Mounted(left, name)
    {
      assert name in left.containers[c];
    }
  }

  /** The container mounts a volume of the job that comes before name i, whose holders go. */
  predicate HeldBefore(w: World, own: set<VolumeName>, held: set<VolumeName>, names: seq<VolumeName>, i: nat, c: ContainerId)
    requires i <= |names| && c in w.containers
  {
    exists j | 0 <= j < i :: names[j] in own && names[j] !in held && names[j] in w.containers[c]
  }

  /** What that comes to, name by name: a volume of the job goes exactly when the daemon does not refuse it, and its holders
      go, for its own sake or as each of them also holds one that comes before it. */
  lemma {:induction false} GoneExactly(w: World, own: set<VolumeName>, held: set<VolumeName>, refused: set<VolumeName>,
                                       names: seq<VolumeName>, i: nat)
    requires AreVolumes(w, names) && i < |names|
    ensures names[i] in GoneOf(w, own, held, refused, names) <==>
              && names[i] in own && names[i] !in refused
              && (names[i] in held ==> forall c | c in w.containers && names[i] in w.containers[c] :: HeldBefore(w, own, held, names, i, c))
  {
    var n := |names| - 1;
    var init := names[..n];
    if i < n {
      GoneExactly(w, own, held, refused, init, i);
      forall c | c in w.containers
        ensures HeldBefore(w, own, held, names, i, c) <==> HeldBefore(w, own, held, init, i, c)
      {
        assert forall j | 0 <= j < i :: names[j] == init[j];
      }
      hide LastGoes, HeldBefore;
    } else {
      LastGoesIs(w, own, held, refused, names);
      GoneAmong(w, own, held, refused, init);
      assert names[n] !in NamesIn(init);
      hide LastGoes, HeldBefore;
    }
  }
}
