/** The base image digest resolver: a short-lived cache with one refresh at a time per image. */
module DigestCache {
  import opened Prelude

  type Image = string
  type Digest = string
  type TaskId = nat

  datatype Freshness = Fresh | Stale | Unknown

  /** A pre-built image against the current base digest; a missing digest, or an empty one, is unknown. */
  function Classify(recorded: Digest, current: Option<Digest>): (f: Freshness)
    ensures f.Stale? ==> recorded != "" && current.Some? && current.value != "" && current.value != recorded
    ensures f.Fresh? ==> current == Some(recorded)
    ensures f.Unknown? <==> recorded == "" || current.None? || current.value == ""
  {
    if recorded == "" || current.None? || current.value == "" then Unknown
    else if recorded == current.value then Fresh else Stale
  }

  /** A refresh that ended: what it found and when it stored it. */
  datatype Stored = Stored(at: int, digest: Option<Digest>)

  /** A caller that awaits a refresh: which one of the callers, since when, and for which image. */
  datatype Waiter = Waiter(caller: nat, task: TaskId, since: int, image: Image)

  /** Where an answer came from. */
  datatype Basis = Pin | Cached(stored: Stored) | Refreshed(stored: Stored)
  datatype Answer = Answer(caller: nat, image: Image, askedAt: int, answeredAt: int, digest: Option<Digest>, basis: Basis)

  datatype Config = Config(pins: map<Image, Digest>, ttl: int, failureTtl: int)

  /** The resolver's cache and in-flight refreshes, with the running tasks and the callers around them: those that wait,
      those answered and those that gave up. */
  datatype State = State(clock: int, cache: map<Image, Stored>, inflight: map<Image, TaskId>, running: map<TaskId, Image>,
                         nextTask: TaskId, waiters: seq<Waiter>, answers: seq<Answer>, left: set<nat>)

  function Initial(now: int): State {
    State(now, map[], map[], map[], 0, [], [], {})
  }

  // ---- What each event does -----------------------------------------------

  /** How long a stored result answers callers. */
  function Ttl(c: Config, digest: Option<Digest>): int {
    if digest.Some? then c.ttl else c.failureTtl
  }

  predicate HasFresh(c: Config, s: State, image: Image) {
    image in s.cache && s.clock - s.cache[image].at < Ttl(c, s.cache[image].digest)
  }

  /** A caller asks: answered at once from the pin or the cache, or left waiting on the image's refresh, which is started
      only when none runs. */
  function Asked(c: Config, s: State, caller: nat, image: Image): State {
    if image in c.pins then s.(answers := s.answers + [Answer(caller, image, s.clock, s.clock, Some(c.pins[image]), Pin)])
    else if HasFresh(c, s, image) then
      var hit := s.cache[image];
      s.(answers := s.answers + [Answer(caller, image, s.clock, s.clock, hit.digest, Cached(hit))])
    else if image in s.inflight && s.inflight[image] in s.running then
      s.(waiters := s.waiters + [Waiter(caller, s.inflight[image], s.clock, image)])
    else
      s.(inflight := s.inflight[image := s.nextTask], running := s.running[s.nextTask := image], nextTask := s.nextTask + 1,
         waiters := s.waiters + [Waiter(caller, s.nextTask, s.clock, image)])
  }

  predicate IsWaiting(waiters: seq<Waiter>, caller: nat) {
    exists i | 0 <= i < |waiters| :: waiters[i].caller == caller
  }

  function WithoutCaller(waiters: seq<Waiter>, caller: nat): seq<Waiter> {
    if waiters == [] then [] else
      var last := waiters[|waiters| - 1];
      WithoutCaller(waiters[..|waiters| - 1], caller) + (if last.caller == caller then [] else [last])
  }

  /** A caller gives up. The refresh it waits on is shielded: nothing but the waiter changes. */
  function GivenUp(s: State, caller: nat): State {
    if IsWaiting(s.waiters, caller) then s.(waiters := WithoutCaller(s.waiters, caller), left := s.left + {caller}) else s
  }

  function AnswerTo(w: Waiter, now: Stored): Answer {
    Answer(w.caller, w.image, w.since, now.at, now.digest, Refreshed(now))
  }

  function Answered(waiters: seq<Waiter>, task: TaskId, now: Stored): seq<Answer> {
    if waiters == [] then [] else
      var last := waiters[|waiters| - 1];
      Answered(waiters[..|waiters| - 1], task, now) + (if last.task == task then [AnswerTo(last, now)] else [])
  }

  function StillWaiting(waiters: seq<Waiter>, task: TaskId): seq<Waiter> {
    if waiters == [] then [] else
      var last := waiters[|waiters| - 1];
      StillWaiting(waiters[..|waiters| - 1], task) + (if last.task == task then [] else [last])
  }

  /** A running refresh ends: its result is cached, and answers everyone who waits on it. */
  function Ended(s: State, task: TaskId, digest: Option<Digest>): State {
    if task !in s.running then s
    else
      var image, now := s.running[task], Stored(s.clock, digest);
      s.(cache := s.cache[image := now], running := s.running - {task},
         inflight := if image in s.inflight && s.inflight[image] == task then s.inflight - {image} else s.inflight,
         waiters := StillWaiting(s.waiters, task), answers := s.answers + Answered(s.waiters, task, now))
  }

  datatype Event = Ask(image: Image) | GiveUp(caller: nat) | End(task: TaskId, digest: Option<Digest>) | Wait(seconds: nat)

  /** Event number n; a caller is known by the number of its Ask. */
  function Step(c: Config, s: State, e: Event, n: nat): State {
    match e
    case Ask(image) => Asked(c, s, n, image)
    case GiveUp(caller) => GivenUp(s, caller)
    case End(task, digest) => Ended(s, task, digest)
    case Wait(seconds) => s.(clock := s.clock + seconds)
  }

  function Run(c: Config, now: int, events: seq<Event>): State {
    if events == [] then Initial(now) else
      Step(c, Run(c, now, events[..|events| - 1]), events[|events| - 1], |events| - 1)
  }

  // ---- Refreshes and answers ----------------------------------------------

  /** A running refresh is the one in flight for its image. */
  predicate Refreshes(c: Config, s: State) {
    && (forall t | t in s.running ::
          s.running[t] in s.inflight && s.inflight[s.running[t]] == t && t < s.nextTask && s.running[t] !in c.pins)
    && (forall i | i in s.inflight && s.inflight[i] in s.running :: s.running[s.inflight[i]] == i)
    && (forall i | i in s.inflight :: s.inflight[i] < s.nextTask)
    && (forall w | w in s.waiters :: w.task in s.running && s.running[w.task] == w.image)
  }

  lemma {:induction false} StillWaitingMembers(waiters: seq<Waiter>, task: TaskId)
    ensures forall w :: w in StillWaiting(waiters, task) <==> w in waiters && w.task != task
  {
    if waiters != [] {
      StillWaitingMembers(waiters[..|waiters| - 1], task);
      assert waiters == waiters[..|waiters| - 1] + [waiters[|waiters| - 1]];
    }
  }

  lemma {:induction false} WithoutCallerMembers(waiters: seq<Waiter>, caller: nat)
    ensures forall w :: w in WithoutCaller(waiters, caller) <==> w in waiters && w.caller != caller
  {
    if waiters != [] {
      WithoutCallerMembers(waiters[..|waiters| - 1], caller);
      assert waiters == waiters[..|waiters| - 1] + [waiters[|waiters| - 1]];
    }
  }

  lemma {:induction false} AnsweredMembers(waiters: seq<Waiter>, task: TaskId, now: Stored)
    ensures forall a | a in Answered(waiters, task, now) :: exists w :: w in waiters && w.task == task && a == AnswerTo(w, now)
    ensures forall w | w in waiters && w.task == task :: AnswerTo(w, now) in Answered(waiters, task, now)
  {
    if waiters != [] {
      var init, last := waiters[..|waiters| - 1], waiters[|waiters| - 1];
      AnsweredMembers(init, task, now);
      assert waiters == init + [last];
      forall a | a in Answered(waiters, task, now)
        ensures exists w :: w in waiters && w.task == task && a == AnswerTo(w, now)
      {
        if a in Answered(init, task, now) {
          var w :| w in init && w.task == task && a == AnswerTo(w, now);
          assert w in waiters;
        } else {
          assert last in waiters;
        }
      }
    }
  }

  lemma RefreshesStep(c: Config, s: State, e: Event, n: nat)
    requires Refreshes(c, s)
    ensures Refreshes(c, Step(c, s, e, n))
  {
    match e
    case Ask(image) => RefreshesAsked(c, s, n, image);
    case GiveUp(caller) => WithoutCallerMembers(s.waiters, caller);
    case End(task, _) => StillWaitingMembers(s.waiters, task);
    case Wait(_) =>
  }

  lemma RefreshesAsked(c: Config, s: State, caller: nat, image: Image)
    requires Refreshes(c, s)
    ensures Refreshes(c, Asked(c, s, caller, image))
  {
    var s' := Asked(c, s, caller, image);
    forall t | t in s'.running
      ensures s'.running[t] in s'.inflight && s'.inflight[s'.running[t]] == t && t < s'.nextTask && s'.running[t] !in c.pins
    {
      if t in s.running {
        assert s.inflight[s.running[t]] == t && t < s.nextTask;
      }
    }
    forall w | w in s'.waiters
      ensures w.task in s'.running && s'.running[w.task] == w.image
    {
      if w in s.waiters {
        assert w.task in s.running && w.task < s.nextTask;
      } else if image in s.inflight && s.inflight[image] in s.running {
        assert s.inflight[s.running[s.inflight[image]]] == s.inflight[image];
      }
    }
  }

  /** At every point of every run at most one refresh runs for an image, none for a pinned one, and whoever waits, waits on
      a running refresh of the image it asked for. */
  lemma {:induction false} OneRefreshPerImage(c: Config, now: int, events: seq<Event>)
    ensures var s := Run(c, now, events);
            && Refreshes(c, s)
            && (forall a, b | a in s.running && b in s.running && s.running[a] == s.running[b] :: a == b)
  {
    hide Step;
    if events != [] {
      OneRefreshPerImage(c, now, events[..|events| - 1]);
      RefreshesStep(c, Run(c, now, events[..|events| - 1]), events[|events| - 1], |events| - 1);
    }
    var s := Run(c, now, events);
    forall a, b | a in s.running && b in s.running && s.running[a] == s.running[b]
      ensures a == b
    {
      assert s.inflight[s.running[a]] == a && s.inflight[s.running[b]] == b;
    }
  }

  /** The time of event n, by the clock alone. */
  function TimeOf(now: int, events: seq<Event>, n: nat): int
    requires n <= |events|
  {
    if n == 0 then now else TimeOf(now, events, n - 1) + (if events[n - 1].Wait? then events[n - 1].seconds else 0)
  }

  /** Event k ends a refresh of the image: one that was started, and had not ended. */
  ghost predicate Ends(c: Config, now: int, events: seq<Event>, k: int, image: Image) {
    && 0 <= k < |events| && events[k].End?
    && var s := Run(c, now, events[..k]);
       events[k].task in s.running && s.running[events[k].task] == image
  }

  /** And that is its result, stored at its time. */
  ghost predicate EndedAt(c: Config, now: int, events: seq<Event>, k: int, image: Image, stored: Stored) {
    Ends(c, now, events, k, image) && events[k].digest == stored.digest && stored.at == TimeOf(now, events, k)
  }

  /** The result is that of the last refresh of the image to end before event n. */
  ghost predicate LastStored(c: Config, now: int, events: seq<Event>, n: nat, image: Image, stored: Stored) {
    exists k :: k < n && EndedAt(c, now, events, k, image, stored) && NoneEnds(c, now, events, k, n, image)
  }

  /** No refresh of the image ends strictly between events i and n. */
  ghost predicate NoneEnds(c: Config, now: int, events: seq<Event>, i: int, n: int, image: Image) {
    forall j | i < j < n :: !Ends(c, now, events, j, image)
  }

  /** The answer is to a question that was asked, at its time; and it is the image's pin; or the result of the image's last
      refresh before the question, stored less than its kind's time to live before it; or the result of the image's first
      refresh to end after it. */
  ghost predicate Justified(c: Config, now: int, events: seq<Event>, a: Answer) {
    && a.caller < |events| && events[a.caller] == Ask(a.image) && a.askedAt == TimeOf(now, events, a.caller)
    && match a.basis
       case Pin => a.image in c.pins && a.digest == Some(c.pins[a.image]) && a.answeredAt == a.askedAt
       case Cached(stored) =>
         && a.image !in c.pins && a.digest == stored.digest && a.answeredAt == a.askedAt
         && a.askedAt - stored.at < Ttl(c, stored.digest) && LastStored(c, now, events, a.caller, a.image, stored)
       case Refreshed(stored) =>
         && a.image !in c.pins && a.digest == stored.digest && a.answeredAt == stored.at
         && FirstStored(c, now, events, a.caller, a.image, stored)
  }

  ghost predicate FirstStored(c: Config, now: int, events: seq<Event>, n: nat, image: Image, stored: Stored) {
    exists k :: n < k && EndedAt(c, now, events, k, image, stored) && NoneEnds(c, now, events, n, k, image)
  }

  /** A caller that waits asked, and no refresh of its image has ended since. */
  ghost predicate Waits(c: Config, now: int, events: seq<Event>, w: Waiter) {
    && w.caller < |events| && events[w.caller] == Ask(w.image) && w.since == TimeOf(now, events, w.caller)
    && NoneEnds(c, now, events, w.caller, |events|, w.image)
  }

  ghost predicate Results(c: Config, now: int, events: seq<Event>, s: State) {
    && s.clock == TimeOf(now, events, |events|)
    && (forall i | i in s.cache :: LastStored(c, now, events, |events|, i, s.cache[i]))
    && (forall w | w in s.waiters :: Waits(c, now, events, w))
    && (forall a | a in s.answers :: Justified(c, now, events, a))
  }

  // What is said of the events so far stays true of them when one more comes.

  lemma {:induction false} TimeOfPrefix(now: int, events: seq<Event>, more: seq<Event>, n: nat)
    requires n <= |events| && events <= more
    ensures TimeOf(now, more, n) == TimeOf(now, events, n)
  {
    if n > 0 {
      TimeOfPrefix(now, events, more, n - 1);
      assert more[n - 1] == events[n - 1];
    }
  }

  lemma EndsPrefix(c: Config, now: int, events: seq<Event>, more: seq<Event>, k: int, image: Image)
    requires k < |events| && events <= more
    ensures Ends(c, now, more, k, image) <==> Ends(c, now, events, k, image)
  {
    if 0 <= k {
      assert more[k] == events[k] && more[..k] == events[..k];
    }
  }

  lemma NoneEndsPrefix(c: Config, now: int, events: seq<Event>, more: seq<Event>, i: int, n: int, image: Image)
    requires n <= |events| && events <= more
    ensures NoneEnds(c, now, more, i, n, image) <==> NoneEnds(c, now, events, i, n, image)
  {
    hide Ends;
    forall j | i < j < n
      ensures Ends(c, now, more, j, image) <==> Ends(c, now, events, j, image)
    {
      EndsPrefix(c, now, events, more, j, image);
    }
  }

  lemma EndedPrefix(c: Config, now: int, events: seq<Event>, more: seq<Event>, k: int, image: Image, stored: Stored)
    requires events <= more && EndedAt(c, now, events, k, image, stored)
    ensures 0 <= k < |events| && EndedAt(c, now, more, k, image, stored)
  {
    EndsPrefix(c, now, events, more, k, image);
    TimeOfPrefix(now, events, more, k);
    assert more[k] == events[k];
  }

  lemma LastPrefix(c: Config, now: int, events: seq<Event>, more: seq<Event>, n: nat, image: Image, stored: Stored)
    requires n <= |events| && events <= more && LastStored(c, now, events, n, image, stored)
    ensures LastStored(c, now, more, n, image, stored)
  {
    hide EndedAt, NoneEnds;
    var k :| k < n && EndedAt(c, now, events, k, image, stored) && NoneEnds(c, now, events, k, n, image);
    EndedPrefix(c, now, events, more, k, image, stored);
    NoneEndsPrefix(c, now, events, more, k, n, image);
  }

  lemma FirstPrefix(c: Config, now: int, events: seq<Event>, more: seq<Event>, n: nat, image: Image, stored: Stored)
    requires events <= more && FirstStored(c, now, events, n, image, stored)
    ensures FirstStored(c, now, more, n, image, stored)
  {
    hide EndedAt, NoneEnds;
    var k :| n < k && EndedAt(c, now, events, k, image, stored) && NoneEnds(c, now, events, n, k, image);
    EndedPrefix(c, now, events, more, k, image, stored);
    NoneEndsPrefix(c, now, events, more, n, k, image);
  }

  lemma JustifiedPrefix(c: Config, now: int, events: seq<Event>, more: seq<Event>, a: Answer)
    requires events <= more && Justified(c, now, events, a)
    ensures Justified(c, now, more, a)
  {
    hide LastStored, FirstStored, Ttl, TimeOf;
    TimeOfPrefix(now, events, more, a.caller);
    assert more[a.caller] == events[a.caller];
    match a.basis
    case Pin =>
    case Cached(stored) => LastPrefix(c, now, events, more, a.caller, a.image, stored);
    case Refreshed(stored) => FirstPrefix(c, now, events, more, a.caller, a.image, stored);
  }

  lemma AnswersKeep(c: Config, now: int, events: seq<Event>, e: Event, s: State)
    requires Results(c, now, events, s)
    ensures s.clock == TimeOf(now, events + [e], |events|)
    ensures forall a | a in s.answers :: Justified(c, now, events + [e], a)
    ensures forall i | i in s.cache :: LastStored(c, now, events + [e], |events|, i, s.cache[i])
  {
    hide LastStored, Justified, Waits, TimeOf;
    var more := events + [e];
    TimeOfPrefix(now, events, more, |events|);
    forall a | a in s.answers
      ensures Justified(c, now, more, a)
    {
      JustifiedPrefix(c, now, events, more, a);
    }
    forall i | i in s.cache
      ensures LastStored(c, now, more, |events|, i, s.cache[i])
    {
      LastPrefix(c, now, events, more, |events|, i, s.cache[i]);
    }
  }

  lemma NoneEndsLater(c: Config, now: int, events: seq<Event>, e: Event, i: int, image: Image)
    requires NoneEnds(c, now, events, i, |events|, image) && !Ends(c, now, events + [e], |events|, image)
    ensures NoneEnds(c, now, events + [e], i, |events| + 1, image)
  {
    NoneEndsPrefix(c, now, events, events + [e], i, |events|, image);
    hide Ends;
  }

  lemma LastLater(c: Config, now: int, events: seq<Event>, e: Event, image: Image, stored: Stored)
    requires LastStored(c, now, events, |events|, image, stored) && !Ends(c, now, events + [e], |events|, image)
    ensures LastStored(c, now, events + [e], |events| + 1, image, stored)
  {
    hide EndedAt, NoneEnds, Ends;
    var k :| k < |events| && EndedAt(c, now, events, k, image, stored) && NoneEnds(c, now, events, k, |events|, image);
    EndedPrefix(c, now, events, events + [e], k, image, stored);
    NoneEndsLater(c, now, events, e, k, image);
  }

  lemma WaitsLater(c: Config, now: int, events: seq<Event>, e: Event, w: Waiter)
    requires Waits(c, now, events, w) && !Ends(c, now, events + [e], |events|, w.image)
    ensures Waits(c, now, events + [e], w)
  {
    hide NoneEnds, Ends;
    TimeOfPrefix(now, events, events + [e], w.caller);
    NoneEndsLater(c, now, events, e, w.caller, w.image);
  }

  lemma EndsNow(c: Config, now: int, events: seq<Event>, e: Event, image: Image)
    ensures Ends(c, now, events + [e], |events|, image) <==>
            e.End? && e.task in Run(c, now, events).running && Run(c, now, events).running[e.task] == image
  {
    assert (events + [e])[..|events|] == events;
    hide Run;
  }

  lemma ClockStep(now: int, events: seq<Event>, e: Event)
    ensures TimeOf(now, events + [e], |events| + 1) == TimeOf(now, events, |events|) + (if e.Wait? then e.seconds else 0)
  {
    TimeOfPrefix(now, events, events + [e], |events|);
  }

  /** An event that ends no refresh leaves every cached result and every caller that waits as they were. */
  lemma NothingEnds(c: Config, now: int, events: seq<Event>, e: Event, s: State)
    requires s == Run(c, now, events) && Results(c, now, events, s) && !e.End?
    ensures forall i | i in s.cache :: LastStored(c, now, events + [e], |events| + 1, i, s.cache[i])
    ensures forall w | w in s.waiters :: Waits(c, now, events + [e], w)
  {
    hide LastStored, Waits, Ends, TimeOf, Justified, Run;
    forall i | i in s.cache
      ensures LastStored(c, now, events + [e], |events| + 1, i, s.cache[i])
    {
      EndsNow(c, now, events, e, i);
      LastLater(c, now, events, e, i, s.cache[i]);
    }
    forall w | w in s.waiters
      ensures Waits(c, now, events + [e], w)
    {
      EndsNow(c, now, events, e, w.image);
      WaitsLater(c, now, events, e, w);
    }
  }

  lemma AskedGood(c: Config, now: int, events: seq<Event>, image: Image, s: State)
    requires s == Run(c, now, events) && Results(c, now, events, s)
    ensures Results(c, now, events + [Ask(image)], Asked(c, s, |events|, image))
  {
    hide LastStored, TimeOf, Ttl, Ends, Run, NoneEnds, Justified;
    var e := Ask(image);
    var more := events + [e];
    AnswersKeep(c, now, events, e, s);
    ClockStep(now, events, e);
    NothingEnds(c, now, events, e, s);
    var task := if image in s.inflight && s.inflight[image] in s.running then s.inflight[image] else s.nextTask;
    AskedWaits(c, now, events, Waiter(|events|, task, s.clock, image));
    AskedAnswered(c, now, events, image, s);
    hide Waits;
  }

  lemma AskedWaits(c: Config, now: int, events: seq<Event>, w: Waiter)
    requires w.caller == |events| && w.since == TimeOf(now, events + [Ask(w.image)], |events|)
    ensures Waits(c, now, events + [Ask(w.image)], w)
  {
    hide Ends, TimeOf;
  }

  lemma AskedAnswered(c: Config, now: int, events: seq<Event>, image: Image, s: State)
    requires s.clock == TimeOf(now, events + [Ask(image)], |events|)
    requires image in s.cache ==> LastStored(c, now, events + [Ask(image)], |events|, image, s.cache[image])
    ensures image in c.pins ==>
              Justified(c, now, events + [Ask(image)], Answer(|events|, image, s.clock, s.clock, Some(c.pins[image]), Pin))
    ensures image !in c.pins && HasFresh(c, s, image) ==>
              && image in s.cache
              && Justified(c, now, events + [Ask(image)],
                           Answer(|events|, image, s.clock, s.clock, s.cache[image].digest, Cached(s.cache[image])))
  {
    hide LastStored, TimeOf, Ttl;
  }

  lemma EndedGood(c: Config, now: int, events: seq<Event>, task: TaskId, digest: Option<Digest>, s: State)
    requires s == Run(c, now, events) && Results(c, now, events, s) && Refreshes(c, s)
    ensures Results(c, now, events + [End(task, digest)], Ended(s, task, digest))
  {
    var e := End(task, digest);
    AnswersKeep(c, now, events, e, s);
    ClockStep(now, events, e);
    OthersKeep(c, now, events, task, digest, s);
    if task in s.running {
      EndStores(c, now, events, task, digest, s);
      EndAnswers(c, now, events, task, digest, s);
    }
    StillWaitingMembers(s.waiters, task);
    hide LastStored, Waits, Ends, Justified, Run, TimeOf, Refreshes;
  }

  /** The end of one image's refresh leaves the other images' results and callers as they were. */
  lemma OthersKeep(c: Config, now: int, events: seq<Event>, task: TaskId, digest: Option<Digest>, s: State)
    requires s == Run(c, now, events) && Results(c, now, events, s) && Refreshes(c, s)
    ensures var e := End(task, digest);
            && (forall i | i in s.cache && !(task in s.running && s.running[task] == i) ::
                  LastStored(c, now, events + [e], |events| + 1, i, s.cache[i]))
            && (forall w | w in s.waiters && w.task != task :: Waits(c, now, events + [e], w))
  {
    hide LastStored, Waits, Ends, TimeOf, Justified, Run;
    var e := End(task, digest);
    forall i | i in s.cache && !(task in s.running && s.running[task] == i)
      ensures LastStored(c, now, events + [e], |events| + 1, i, s.cache[i])
    {
      EndsNow(c, now, events, e, i);
      LastLater(c, now, events, e, i, s.cache[i]);
    }
    forall w | w in s.waiters && w.task != task
      ensures Waits(c, now, events + [e], w)
    {
      EndsNow(c, now, events, e, w.image);
      WaitsLater(c, now, events, e, w);
    }
  }

  /** The result of the refresh that ends is its image's last, from now on. */
  lemma EndStores(c: Config, now: int, events: seq<Event>, task: TaskId, digest: Option<Digest>, s: State)
    requires s == Run(c, now, events) && task in s.running && s.clock == TimeOf(now, events, |events|)
    ensures var more, stored := events + [End(task, digest)], Stored(s.clock, digest);
            && EndedAt(c, now, more, |events|, s.running[task], stored)
            && LastStored(c, now, more, |events| + 1, s.running[task], stored)
  {
    EndsNow(c, now, events, End(task, digest), s.running[task]);
    TimeOfPrefix(now, events, events + [End(task, digest)], |events|);
    hide Ends, Run, TimeOf;
    assert NoneEnds(c, now, events + [End(task, digest)], |events|, |events| + 1, s.running[task]);
  }

  /** And it is the first its waiters saw end, so their answers are justified. */
  lemma EndAnswers(c: Config, now: int, events: seq<Event>, task: TaskId, digest: Option<Digest>, s: State)
    requires s == Run(c, now, events) && Results(c, now, events, s) && Refreshes(c, s) && task in s.running
    ensures forall a | a in Answered(s.waiters, task, Stored(s.clock, digest)) :: Justified(c, now, events + [End(task, digest)], a)
  {
    var more, stored := events + [End(task, digest)], Stored(s.clock, digest);
    EndStores(c, now, events, task, digest, s);
    AnsweredMembers(s.waiters, task, stored);
    hide Run, Ends, EndedAt, TimeOf, LastStored;
    forall a | a in Answered(s.waiters, task, stored)
      ensures Justified(c, now, more, a)
    {
      var w :| w in s.waiters && w.task == task && a == AnswerTo(w, stored);
      assert Waits(c, now, events, w);
      TimeOfPrefix(now, events, more, w.caller);
      NoneEndsPrefix(c, now, events, more, w.caller, |events|, w.image);
      hide NoneEnds;
      assert FirstStored(c, now, more, w.caller, w.image, stored);
    }
  }

  lemma ResultsStep(c: Config, now: int, events: seq<Event>, e: Event, s: State)
    requires s == Run(c, now, events) && Results(c, now, events, s) && Refreshes(c, s)
    ensures Results(c, now, events + [e], Step(c, s, e, |events|))
  {
    hide *;
    StepIs(c, s, e, |events|);
    match e
    case Ask(image) => AskedGood(c, now, events, image, s);
    case End(task, digest) => EndedGood(c, now, events, task, digest, s);
    case GiveUp(caller) => QuietGood(c, now, events, e, s);
    case Wait(_) => QuietGood(c, now, events, e, s);
  }

  lemma QuietGood(c: Config, now: int, events: seq<Event>, e: Event, s: State)
    requires s == Run(c, now, events) && Results(c, now, events, s) && (e.GiveUp? || e.Wait?)
    ensures Results(c, now, events + [e], Step(c, s, e, |events|))
  {
    hide LastStored, TimeOf, Justified, Waits, Ends, Run;
    AnswersKeep(c, now, events, e, s);
    NothingEnds(c, now, events, e, s);
    ClockStep(now, events, e);
    if e.GiveUp? {
      WithoutCallerMembers(s.waiters, e.caller);
    }
  }

  /** Under any interleaving of callers, callers that give up, refreshes that end and time: every answer is justified. */
  lemma {:induction false} AnswersJustified(c: Config, now: int, events: seq<Event>)
    ensures Results(c, now, events, Run(c, now, events))
  {
    hide Step, Refreshes;
    if events != [] {
      var init := events[..|events| - 1];
      AnswersJustified(c, now, init);
      OneRefreshPerImage(c, now, init);
      ResultsStep(c, now, init, events[|events| - 1], Run(c, now, init));
      assert init + [events[|events| - 1]] == events;
    }
  }

  // ---- No caller is lost or answered twice --------------------------------

  function TimesAnswered(answers: seq<Answer>, caller: nat): nat {
    if answers == [] then 0 else
      TimesAnswered(answers[..|answers| - 1], caller) + (if answers[|answers| - 1].caller == caller then 1 else 0)
  }

  function TimesWaiting(waiters: seq<Waiter>, caller: nat): nat {
    if waiters == [] then 0 else
      TimesWaiting(waiters[..|waiters| - 1], caller) + (if waiters[|waiters| - 1].caller == caller then 1 else 0)
  }

  /** In how many places a caller is: answered, waiting, or gone. */
  function Places(s: State, caller: nat): nat {
    TimesAnswered(s.answers, caller) + TimesWaiting(s.waiters, caller) + (if caller in s.left then 1 else 0)
  }

  lemma {:induction false} AnsweredAppend(a: seq<Answer>, b: seq<Answer>, caller: nat)
    ensures TimesAnswered(a + b, caller) == TimesAnswered(a, caller) + TimesAnswered(b, caller)
  {
    if b == [] {
      assert a + b == a;
    } else {
      AnsweredAppend(a, b[..|b| - 1], caller);
      assert (a + b)[..|a + b| - 1] == a + b[..|b| - 1];
    }
  }

  lemma AnsweredOne(answers: seq<Answer>, a: Answer, caller: nat)
    ensures TimesAnswered(answers + [a], caller) == TimesAnswered(answers, caller) + (if a.caller == caller then 1 else 0)
  {
    assert (answers + [a])[..|answers|] == answers;
  }

  lemma WaitingOne(waiters: seq<Waiter>, w: Waiter, caller: nat)
    ensures TimesWaiting(waiters + [w], caller) == TimesWaiting(waiters, caller) + (if w.caller == caller then 1 else 0)
  {
    assert (waiters + [w])[..|waiters|] == waiters;
  }

  /** Ending a refresh moves its waiters to the answers, one for one. */
  lemma {:induction false} EndMoves(waiters: seq<Waiter>, task: TaskId, now: Stored, caller: nat)
    ensures TimesAnswered(Answered(waiters, task, now), caller) + TimesWaiting(StillWaiting(waiters, task), caller)
         == TimesWaiting(waiters, caller)
  {
    hide TimesAnswered, TimesWaiting;
    if waiters == [] {
      NoTimes(caller);
    } else {
      var init, last := waiters[..|waiters| - 1], waiters[|waiters| - 1];
      EndMoves(init, task, now, caller);
      AnsweredOne(Answered(init, task, now), AnswerTo(last, now), caller);
      WaitingOne(StillWaiting(init, task), last, caller);
      WaitingOne(init, last, caller);
      assert init + [last] == waiters;
      assert Answered(init, task, now) + [] == Answered(init, task, now);
      assert StillWaiting(init, task) + [] == StillWaiting(init, task);
    }
  }

  lemma NoTimes(caller: nat)
    ensures TimesAnswered([], caller) == 0 && TimesWaiting([], caller) == 0
  {
  }

  lemma {:induction false} WithoutCallerTimes(waiters: seq<Waiter>, caller: nat, other: nat)
    ensures TimesWaiting(WithoutCaller(waiters, caller), other) == if other == caller then 0 else TimesWaiting(waiters, other)
  {
    hide TimesWaiting;
    if waiters == [] {
      NoTimes(other);
    } else {
      var init, last := waiters[..|waiters| - 1], waiters[|waiters| - 1];
      WithoutCallerTimes(init, caller, other);
      WaitingOne(WithoutCaller(init, caller), last, other);
      WaitingOne(init, last, other);
      assert init + [last] == waiters;
      assert WithoutCaller(init, caller) + [] == WithoutCaller(init, caller);
    }
  }

  lemma {:induction false} WaitingIff(waiters: seq<Waiter>, caller: nat)
    ensures IsWaiting(waiters, caller) <==> TimesWaiting(waiters, caller) > 0
  {
    if waiters != [] {
      var init := waiters[..|waiters| - 1];
      WaitingIff(init, caller);
      if i :| 0 <= i < |init| && init[i].caller == caller {
        assert waiters[i].caller == caller;
      }
    }
  }

  lemma PlacesStep(c: Config, s: State, e: Event, n: nat, caller: nat)
    requires Places(s, caller) <= 1
    ensures Places(Step(c, s, e, n), caller) == Places(s, caller) + (if e.Ask? && caller == n then 1 else 0)
  {
    hide HasFresh, TimesAnswered, TimesWaiting, IsWaiting;
    match e
    case Ask(image) =>
      if image in c.pins {
        AnsweredOne(s.answers, Answer(n, image, s.clock, s.clock, Some(c.pins[image]), Pin), caller);
      } else if HasFresh(c, s, image) {
        FreshIsCached(c, s, image);
        AnsweredOne(s.answers, Answer(n, image, s.clock, s.clock, s.cache[image].digest, Cached(s.cache[image])), caller);
      } else {
        var task := if image in s.inflight && s.inflight[image] in s.running then s.inflight[image] else s.nextTask;
        WaitingOne(s.waiters, Waiter(n, task, s.clock, image), caller);
      }
    case GiveUp(other) =>
      WithoutCallerTimes(s.waiters, other, caller);
      WaitingIff(s.waiters, other);
    case End(task, digest) =>
      if task in s.running {
        EndMoves(s.waiters, task, Stored(s.clock, digest), caller);
        AnsweredAppend(s.answers, Answered(s.waiters, task, Stored(s.clock, digest)), caller);
      }
    case Wait(_) =>
  }

  lemma FreshIsCached(c: Config, s: State, image: Image)
    requires HasFresh(c, s, image)
    ensures image in s.cache
  {
  }

  /** At every point of every run each caller is in exactly one place: answered once, or still waiting, or gone. */
  lemma {:induction false} EveryCallerOnce(c: Config, now: int, events: seq<Event>, caller: nat)
    ensures Places(Run(c, now, events), caller) == if caller < |events| && events[caller].Ask? then 1 else 0
  {
    hide Step, Places;
    if events == [] {
      NobodyYet(now, caller);
    } else {
      EveryCallerOnce(c, now, events[..|events| - 1], caller);
      PlacesStep(c, Run(c, now, events[..|events| - 1]), events[|events| - 1], |events| - 1, caller);
    }
  }

  lemma NobodyYet(now: int, caller: nat)
    ensures Places(Initial(now), caller) == 0
  {
  }

  /** A caller that is gone gave up, after it asked. */
  lemma {:induction false} GoneGaveUp(c: Config, now: int, events: seq<Event>, caller: nat)
    requires caller in Run(c, now, events).left
    ensures exists k | caller < k < |events| :: events[k] == GiveUp(caller)
  {
    var init, n := events[..|events| - 1], |events| - 1;
    if caller in Run(c, now, init).left {
      GoneGaveUp(c, now, init, caller);
      var k :| caller < k < |init| && init[k] == GiveUp(caller);
      assert events[k] == GiveUp(caller);
    } else {
      assert events[n] == GiveUp(caller);
      WaitingIff(Run(c, now, init).waiters, caller);
      EveryCallerOnce(c, now, init, caller);
    }
  }

  // ---- The resolver -------------------------------------------------------

  class Resolver {
    const c: Config
    var clock: int
    var cache: map<Image, Stored>
    var inflight: map<Image, TaskId>
    /** The refreshes that have not ended, each with the image it reads. */
    var running: map<TaskId, Image>
    var nextTask: TaskId
    var waiters: seq<Waiter>
    var answers: seq<Answer>
    var left: set<nat>

    function Now(): State
      reads this
    {
      State(clock, cache, inflight, running, nextTask, waiters, answers, left)
    }

    constructor (c: Config, now: int)
      ensures this.c == c && Now() == Initial(now)
    {
      this.c := c;
      clock, cache, inflight, running, nextTask, waiters, answers, left := now, map[], map[], map[], 0, [], [], {};
    }

    /** The answer, or None for a caller left to wait. */
    method Current(caller: nat, image: Image) returns (answer: Option<Option<Digest>>)
      modifies this
      ensures Now() == Asked(c, old(Now()), caller, image)
      ensures answer.None? <==> image !in c.pins && !HasFresh(c, old(Now()), image)
      ensures answer.Some? ==> answers == old(answers) + [answers[|answers| - 1]] && answer == Some(answers[|answers| - 1].digest)
    {
      if image in c.pins {
        answers := answers + [Answer(caller, image, clock, clock, Some(c.pins[image]), Pin)];
        return Some(Some(c.pins[image]));
      }
      if image in cache {
        var hit := cache[image];
        if clock - hit.at < (if hit.digest.Some? then c.ttl else c.failureTtl) {
          answers := answers + [Answer(caller, image, clock, clock, hit.digest, Cached(hit))];
          return Some(hit.digest);
        }
      }
      if image !in inflight || inflight[image] !in running {
        inflight, running, nextTask := inflight[image := nextTask], running[nextTask := image], nextTask + 1;
      }
      waiters := waiters + [Waiter(caller, inflight[image], clock, image)];
      answer := None;
    }

    method Cancel(caller: nat)
      modifies this`waiters, this`left
      ensures Now() == GivenUp(old(Now()), caller)
    {
      if IsWaiting(waiters, caller) {
        waiters, left := WithoutCaller(waiters, caller), left + {caller};
      }
    }

    /** A refresh that runs ends. */
    method Refresh(task: TaskId, digest: Option<Digest>)
      modifies this
      ensures Now() == Ended(old(Now()), task, digest)
    {
      if task !in running {
        return;
      }
      var image, now := running[task], Stored(clock, digest);
      cache := cache[image := now];
      if image in inflight && inflight[image] == task {
        inflight := inflight - {image};
      }
      running := running - {task};
      var still, given := Deliver(waiters, task, now);
      waiters, answers := still, answers + given;
    }
  }

  /** The waiters of one refresh answered, the others left waiting. */
  method Deliver(waiters: seq<Waiter>, task: TaskId, now: Stored) returns (still: seq<Waiter>, given: seq<Answer>)
    ensures still == StillWaiting(waiters, task) && given == Answered(waiters, task, now)
  {
    still, given := [], [];
    for i := 0 to |waiters|
      invariant still == StillWaiting(waiters[..i], task) && given == Answered(waiters[..i], task, now)
    {
      assert waiters[..i + 1][..i] == waiters[..i];
      var w := waiters[i];
      if w.task == task {
        given := given + [AnswerTo(w, now)];
      } else {
        still := still + [w];
      }
    }
    assert waiters[..|waiters|] == waiters;
  }

  /** Any interleaving of callers, cancellations, refreshes that end and time. Events that name no waiting caller or no
      running refresh change nothing. */
  method Interleave(c: Config, now: int, events: seq<Event>) returns (s: State)
    ensures s == Run(c, now, events)
  {
    hide Step;
    var r := new Resolver(c, now);
    for i := 0 to |events|
      invariant fresh(r) && r.c == c && r.Now() == Run(c, now, events[..i])
    {
      assert events[..i + 1][..i] == events[..i];
      StepIs(c, r.Now(), events[i], i);
      match events[i]
      case Ask(image) =>
        var _ := r.Current(i, image);
      case GiveUp(caller) =>
        r.Cancel(caller);
      case End(task, digest) =>
        r.Refresh(task, digest);
      case Wait(seconds) =>
        r.clock := r.clock + seconds;
    }
    assert events[..|events|] == events;
    s := r.Now();
  }

  lemma StepIs(c: Config, s: State, e: Event, n: nat)
    ensures Step(c, s, e, n) == match e
                                case Ask(image) => Asked(c, s, n, image)
                                case GiveUp(caller) => GivenUp(s, caller)
                                case End(task, digest) => Ended(s, task, digest)
                                case Wait(seconds) => s.(clock := s.clock + seconds)
  {
  }
}
