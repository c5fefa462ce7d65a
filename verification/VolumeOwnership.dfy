/** Names, labels and owners of the QA cache volumes, and the two pure decisions to remove one. */
module VolumeOwnership {
  import opened Prelude

  datatype Scope = PerJob | PerRepo

  function ScopeText(scope: Scope): string {
    if scope == PerJob then "per-job" else "per-repo"
  }

  type JobId = string
  type Instance = Option<string>

  predicate Resolved(instance: Instance) {
    instance.Some? && instance.value != ""
  }

  // ---- Names --------------------------------------------------------------

  /** A volume's name: the scope's prefix with the digest of a text, or any name of another form. SHA-256 is taken as
      injective, so the digest is represented by the text it is of. */
  datatype VolumeName = Hashed(scope: Scope, preimage: string) | Named(name: string)

  function VolumeNameFor(scope: Scope, key: string, instance: Instance): VolumeName {
    Hashed(scope, (if instance.Some? then instance.value else "") + "\0" + key)
  }

  /** An instance id as it is derived: the first 16 hexadecimal digits of a digest. */
  predicate Deployment(instance: string) {
    |instance| == 16 && forall i | 0 <= i < |instance| :: instance[i] in "0123456789abcdef"
  }

  lemma {:induction false} SplitAtNul(a: string, x: string, b: string, y: string)
    requires '\0' !in a && '\0' !in b && a + "\0" + x == b + "\0" + y
    ensures a == b && x == y
  {
    var s := a + "\0" + x;
    assert forall i | 0 <= i < |a| :: s[i] == a[i];
    assert forall i | 0 <= i < |b| :: s[i] == b[i];
    assert s[|a|] == '\0' && s[|b|] == '\0';
    assert s[..|a|] == a && s[..|b|] == b;
    assert s[|a| + 1..] == x && s[|b| + 1..] == y;
  }

  /** Deployments share a volume name only for the same id, scope and key; one whose id is not known yet shares names with
      others like it alone. */
  lemma NamesDistinct(scope: Scope, key: string, i: Instance, scope': Scope, key': string, i': Instance)
    requires (i.Some? ==> Deployment(i.value)) && (i'.Some? ==> Deployment(i'.value))
    ensures VolumeNameFor(scope, key, i) == VolumeNameFor(scope', key', i')
       <==> scope == scope' && key == key' && i == i'
  {
    if VolumeNameFor(scope, key, i) == VolumeNameFor(scope', key', i') {
      SplitAtNul(if i.Some? then i.value else "", key, if i'.Some? then i'.value else "", key');
    }
  }

  // ---- Labels -------------------------------------------------------------

  datatype LabelKey = Managed | InstanceId | ScopeName | ScopeKey | OwnerJob | OtherKey(key: string)
  type Labels = map<LabelKey, string>

  function Get(labels: Labels, key: LabelKey): Option<string> {
    if key in labels then Some(labels[key]) else None
  }

  const OWNERSHIP_LABELS := [Managed, InstanceId, ScopeName, ScopeKey, OwnerJob]

  /** The labels stamped on a volume at creation. */
  function VolumeLabels(scope: Scope, key: string, instance: Instance): Labels {
    var base := map[Managed := "true", ScopeName := ScopeText(scope), ScopeKey := key];
    var stamped := if Resolved(instance) then base[InstanceId := instance.value] else base;
    if scope == PerJob then stamped[OwnerJob := key] else stamped
  }

  function LabelMismatches(have: Labels, want: Labels): (bad: seq<LabelKey>)
    ensures bad == [] <==> forall k | k in OWNERSHIP_LABELS :: Get(have, k) == Get(want, k)
  {
    MismatchesIn(have, want, OWNERSHIP_LABELS)
  }

  function MismatchesIn(have: Labels, want: Labels, keys: seq<LabelKey>): (bad: seq<LabelKey>)
    ensures bad == [] <==> forall k | k in keys :: Get(have, k) == Get(want, k)
  {
    if keys == [] then [] else
      assert forall k :: k in keys <==> k == keys[0] || k in keys[1..];
      (if Get(have, keys[0]) != Get(want, keys[0]) then [keys[0]] else []) + MismatchesIn(have, want, keys[1..])
  }

  predicate Matches(have: Labels, scope: Scope, key: string, instance: Instance) {
    LabelMismatches(have, VolumeLabels(scope, key, instance)) == []
  }

  /** Labels that match prove every part of the ownership: whose volume it is, for what, and which job's. */
  lemma MatchProves(have: Labels, scope: Scope, key: string, instance: Instance)
    ensures Matches(have, scope, key, instance) <==>
              && Get(have, Managed) == Some("true")
              && Get(have, ScopeName) == Some(ScopeText(scope))
              && Get(have, ScopeKey) == Some(key)
              && Get(have, InstanceId) == (if Resolved(instance) then instance else None)
              && Get(have, OwnerJob) == (if scope == PerJob then Some(key) else None)
  {
    var want := VolumeLabels(scope, key, instance);
    var keys := OWNERSHIP_LABELS;
    assert keys[0] == Managed && keys[1] == InstanceId && keys[2] == ScopeName && keys[3] == ScopeKey && keys[4] == OwnerJob;
    assert Get(want, Managed) == Some("true") && Get(want, ScopeKey) == Some(key);
  }

  // ---- Owners -------------------------------------------------------------

  predicate IsManaged(labels: Labels) {
    Get(labels, Managed) == Some("true")
  }

  predicate IsOurs(labels: Labels, instance: Instance) {
    Resolved(instance) && Get(labels, InstanceId) == instance
  }

  const LEGACY_PREFIX := "embry0-qa-vol-"

  predicate IsHex(c: char) {
    '0' <= c <= '9' || 'a' <= c <= 'f'
  }

  /** The job a volume of before ownership labels is named after: embry0-qa-vol-job-<12 hex digits>. */
  function LegacyJob(name: VolumeName): Option<JobId> {
    if name.Named? && |name.name| == |LEGACY_PREFIX| + 16 && LEGACY_PREFIX <= name.name
       && name.name[|LEGACY_PREFIX|..|LEGACY_PREFIX| + 4] == "job-"
       && forall i | |LEGACY_PREFIX| + 4 <= i < |name.name| :: IsHex(name.name[i])
    then Some(name.name[|LEGACY_PREFIX|..]) else None
  }

  function OwningJobId(name: VolumeName, labels: Labels, adoptLegacy: bool): Option<JobId> {
    if IsManaged(labels) then
      if Get(labels, ScopeName) != Some("per-job") then None
      else if Get(labels, OwnerJob) == Some("") then None else Get(labels, OwnerJob)
    else if adoptLegacy && labels == map[] then LegacyJob(name)
    else None
  }

  // ---- Job statuses -------------------------------------------------------

  datatype Status =
    | Pending | Running | Completed | Failed | Partial | Cancelled | AwaitingInput | Paused | Expired | Skipped | PrMerged | PrClosed

  predicate Released(s: Status) {
    s in {Completed, Partial, Failed, Cancelled, Expired, Skipped, PrMerged, PrClosed}
  }

  /** The status transitions the jobs table allows, with the budget gate's pending to failed. */
  predicate CanMove(a: Status, b: Status) {
    match a
    case Pending => b in {Running, Cancelled, Failed}
    case Running => b in {Completed, Skipped, Failed, Partial, Cancelled, AwaitingInput, Paused}
    case AwaitingInput => b in {Running, Cancelled, Failed}
    case Paused => b in {Running, Cancelled, Failed, Expired}
    case Completed => b in {PrMerged, PrClosed}
    case PrClosed => b in {PrMerged, Completed}
    case _ => false
  }

  /** A job that starts from a status, along any allowed moves. */
  predicate Trajectory(statuses: seq<Status>) {
    forall i | 0 <= i < |statuses| - 1 :: CanMove(statuses[i], statuses[i + 1])
  }

  /** No allowed sequence of moves leaves the released statuses, so a released job never runs again. */
  lemma {:induction false} ReleasedForever(statuses: seq<Status>, k: nat)
    requires Trajectory(statuses) && k < |statuses| && Released(statuses[0])
    ensures Released(statuses[k]) && statuses[k] != Running
  {
    if k > 0 {
      ReleasedForever(statuses, k - 1);
      assert CanMove(statuses[k - 1], statuses[k - 1 + 1]);
    }
  }

  // ---- The reaper's decision ----------------------------------------------

  datatype Reason =
    | NotEmbry0 | ForeignInstance | SharedScope | NoOwnerLabel | OwnerActive | OwnerTerminal | OwnerUnknown | OwnerUnknownInGrace
  datatype Decision = Decision(remove: bool, reason: Reason, job: Option<JobId>)

  datatype Volume = Volume(id: nat, labels: Labels, createdAt: Option<int>)

  function DecideVolume(name: VolumeName, v: Volume, instance: Instance, statuses: map<JobId, Status>, now: int, grace: int,
                        adoptLegacy: bool): Decision
  {
    if IsManaged(v.labels) && !IsOurs(v.labels, instance) then Decision(false, ForeignInstance, None)
    else
      var job := OwningJobId(name, v.labels, adoptLegacy);
      if job.None? then
        Decision(false,
                 if !IsManaged(v.labels) then NotEmbry0
                 else if Get(v.labels, ScopeName) != Some("per-job") then SharedScope else NoOwnerLabel, None)
      else if job.value !in statuses then
        if v.createdAt.None? || now - v.createdAt.value < grace then Decision(false, OwnerUnknownInGrace, job)
        else Decision(true, OwnerUnknown, job)
      else if Released(statuses[job.value]) then Decision(true, OwnerTerminal, job)
      else Decision(false, OwnerActive, job)
  }

  // ---- The retention's decision -------------------------------------------

  function Lower(s: string): string {
    seq(|s|, i requires 0 <= i < |s| => if 'A' <= s[i] <= 'Z' then (s[i] as int + 32) as char else s[i])
  }

  datatype Verdict = NotOurs | LiveJob | Recent | Unused

  function LatestOf(a: Option<int>, b: Option<int>): Option<int> {
    if a.None? then b else if b.None? || b.value <= a.value then a else b
  }

  /** A per-repo volume under any other name than this release gives its key: it is never mounted again. */
  predicate IsSuperseded(name: VolumeName, labels: Labels, instance: Instance) {
    Get(labels, ScopeName) == Some("per-repo")
    && name != VolumeNameFor(PerRepo, if ScopeKey in labels then labels[ScopeKey] else "", instance)
  }

  function RetainVolume(name: VolumeName, v: Volume, instance: Instance, lastWarmedAt: Option<int>, liveRepos: set<string>,
                        cutoff: int): Verdict
  {
    if !(Resolved(instance) && IsManaged(v.labels) && Get(v.labels, InstanceId) == instance
         && (Get(v.labels, ScopeName) == Some("per-repo") || Get(v.labels, ScopeName) == Some("maven"))) then NotOurs
    else
      var key := if ScopeKey in v.labels then v.labels[ScopeKey] else "";
      var used := LatestOf(v.createdAt, lastWarmedAt);
      if !IsSuperseded(name, v.labels, instance) && Lower(key) in liveRepos then LiveJob
      else if used.None? || used.value >= cutoff then Recent
      else Unused
  }
}
