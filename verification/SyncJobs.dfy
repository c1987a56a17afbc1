/** Sync jobs: `register_sync_job`, `reserve_sync_watch`, `release_sync_watch`, `stop_sync`'s
    `remove_sync_job_if_current` and the shutdown clear, interleaved one shared access at a time
    (crates/handshaker-application/src/runtime.rs, crates/handshaker-application/src/sync.rs).

    The status flags of a job rise only under the registry lock; they may fall at any moment, by
    the run or watch task ending, by `stop_sync_watch` or by the panic path of `stop_sync`. */
module SyncJobs {
  datatype Job = Job(profile: nat, running: bool, monitoring: bool)

  /** `start_sync` up to registration; the lock is held from `RegisterCheck` on. */
  datatype Register = RegisterLock | RegisterCheck | RegisterInsert

  /** `start_sync_watch`; the lock is held from `Identity` to `Raise`, and at `ReleaseCheck`. */
  datatype Watch =
    | WatchFind
    | WatchLock(job: nat)
    | Identity(job: nat)
    | StatusCheck(job: nat)
    | Raise(job: nat)
    | Activate(job: nat)
    | ReleaseLock(job: nat)
    | ReleaseCheck(job: nat)

  datatype Stop = StopFind | Remove(job: nat)

  datatype Actor =
    | Registering(profile: nat, register: Register)
    | Watching(profile: nat, watch: Watch)
    | Stopping(profile: nat, stop: Stop)
    | Finished

  /** Jobs are known by allocation number, which is what pointer identity compares.  The sets
      are history: `replaced` are jobs that a registration has overwritten, `started` those registered
      whose run has not ended, `watched` those reserved for a watch and neither released nor ended. */
  datatype Shared = Shared(
    locked: bool,
    registry: map<nat, nat>,
    jobs: map<nat, Job>,
    next: nat,
    replaced: set<nat>,
    started: set<nat>,
    watched: set<nat>)

  datatype State = State(g: Shared, actors: seq<Actor>)

  /** `refuse` resolves what the model leaves open: a missing session, a rejected monitor request,
      a shutdown already flagged.  `RunEnds` and `WatchEnds` are the falls of the flags. */
  datatype Step =
    | Act(i: nat, refuse: bool)
    | RunEnds(job: nat)
    | WatchEnds(job: nat)
    | ShutdownClear

  predicate Initial(a: Actor) {
    match a
    case Registering(_, r) => r.RegisterLock?
    case Watching(_, w) => w.WatchFind?
    case Stopping(_, st) => st.StopFind?
    case Finished => true
  }

  predicate Init(s: State) {
    && s.g == Shared(false, map[], map[], s.g.next, {}, {}, {})
    && (forall i | 0 <= i < |s.actors| :: Initial(s.actors[i]))
  }

  predicate HoldsLock(a: Actor) {
    match a
    case Registering(_, r) => !r.RegisterLock?
    case Watching(_, w) => w.Identity? || w.StatusCheck? || w.Raise? || w.ReleaseCheck?
    case _ => false
  }

  predicate Idle(g: Shared, job: nat) {
    job in g.jobs && !g.jobs[job].running && !g.jobs[job].monitoring
  }

  predicate Current(g: Shared, job: nat) {
    job in g.jobs && g.jobs[job].profile in g.registry && g.registry[g.jobs[job].profile] == job
  }

  predicate CanAct(g: Shared, a: Actor) {
    match a
    case Registering(p, r) => (r.RegisterLock? ==> !g.locked) && (p in g.registry ==> g.registry[p] in g.jobs)
    case Watching(_, w) =>
      && (w.WatchFind? || w.WatchLock? || w.ReleaseLock? ==> !g.locked)
      && (!w.WatchFind? ==> w.job in g.jobs)
    case Stopping(_, st) => !g.locked
    case Finished => false
  }

  function SetMonitoring(g: Shared, job: nat, on: bool): Shared
    requires job in g.jobs
  {
    g.(jobs := g.jobs[job := g.jobs[job].(monitoring := on)])
  }

  function DoRegister(g: Shared, p: nat, r: Register, refuse: bool): (Shared, Actor)
    requires CanAct(g, Registering(p, r))
  {
    match r
    case RegisterLock => (g.(locked := true), Registering(p, RegisterCheck))
    case RegisterCheck =>
      if refuse || (p in g.registry && !Idle(g, g.registry[p])) then (g.(locked := false), Finished)
      else (g, Registering(p, RegisterInsert))
    case RegisterInsert =>
      var previous := if p in g.registry then {g.registry[p]} else {};
      (g.(locked := false, next := g.next + 1, jobs := g.jobs[g.next := Job(p, true, false)],
          registry := g.registry[p := g.next], replaced := g.replaced + previous, started := g.started + {g.next}),
       Finished)
  }

  function DoWatch(g: Shared, p: nat, w: Watch, refuse: bool): (Shared, Actor)
    requires CanAct(g, Watching(p, w))
  {
    match w
    case WatchFind => (g, if p in g.registry then Watching(p, WatchLock(g.registry[p])) else Finished)
    case WatchLock(job) => (g.(locked := true), Watching(p, Identity(job)))
    case Identity(job) =>
      if Current(g, job) then (g, Watching(p, StatusCheck(job))) else (g.(locked := false), Finished)
    case StatusCheck(job) =>
      if Idle(g, job) then (g, Watching(p, Raise(job))) else (g.(locked := false), Finished)
    case Raise(job) =>
      (SetMonitoring(g, job, true).(locked := false, watched := g.watched + {job}), Watching(p, Activate(job)))
    case Activate(job) => (g, if refuse then Watching(p, ReleaseLock(job)) else Finished)
    case ReleaseLock(job) => (g.(locked := true), Watching(p, ReleaseCheck(job)))
    case ReleaseCheck(job) =>
      ((if Current(g, job) then SetMonitoring(g, job, false).(watched := g.watched - {job}) else g).(locked := false),
       Finished)
  }

  function DoStop(g: Shared, p: nat, st: Stop): (Shared, Actor) {
    match st
    case StopFind => (g, if p in g.registry then Stopping(p, Remove(g.registry[p])) else Finished)
    case Remove(job) =>
      (if p in g.registry && g.registry[p] == job then g.(registry := g.registry - {p}) else g, Finished)
  }

  function Advance(g: Shared, a: Actor, refuse: bool): (Shared, Actor)
    requires CanAct(g, a)
  {
    match a
    case Registering(p, r) => DoRegister(g, p, r, refuse)
    case Watching(p, w) => DoWatch(g, p, w, refuse)
    case Stopping(p, st) => DoStop(g, p, st)
  }

  predicate Enabled(s: State, step: Step) {
    match step
    case Act(i, _) => i < |s.actors| && CanAct(s.g, s.actors[i])
    case RunEnds(job) => job in s.g.jobs
    case WatchEnds(job) => job in s.g.jobs
    case ShutdownClear => !s.g.locked
  }

  function Do(s: State, step: Step): State
    requires Enabled(s, step)
  {
    match step
    case Act(i, refuse) =>
      var (g, a) := Advance(s.g, s.actors[i], refuse);
      State(g, s.actors[i := a])
    case RunEnds(job) =>
      s.(g := s.g.(jobs := s.g.jobs[job := s.g.jobs[job].(running := false)], started := s.g.started - {job}))
    case WatchEnds(job) => s.(g := SetMonitoring(s.g, job, false).(watched := s.g.watched - {job}))
    case ShutdownClear => s.(g := s.g.(registry := map[]))
  }

  predicate Legal(s: State, trace: seq<Step>)
    decreases |trace|
  {
    trace == [] || (Enabled(s, trace[0]) && Legal(Do(s, trace[0]), trace[1..]))
  }

  function Final(s: State, trace: seq<Step>): State
    requires Legal(s, trace)
    decreases |trace|
  {
    if trace == [] then s else Final(Do(s, trace[0]), trace[1..])
  }

  // ---- the invariant ----

  predicate JobOk(g: Shared, job: nat) {
    && (job in g.jobs ==> job < g.next && !(g.jobs[job].running && g.jobs[job].monitoring))
    && (job in g.replaced ==> Idle(g, job) && !Current(g, job))
    && (job in g.started <==> job in g.jobs && g.jobs[job].running)
    && (job in g.watched <==> job in g.jobs && g.jobs[job].monitoring)
  }

  predicate RegistryOk(g: Shared, p: nat) {
    p in g.registry ==> g.registry[p] in g.jobs && g.jobs[g.registry[p]].profile == p
  }

  ghost predicate SharedInv(g: Shared) {
    (forall job: nat :: JobOk(g, job)) && (forall p: nat :: RegistryOk(g, p))
  }

  predicate ActorInv(g: Shared, a: Actor) {
    && (HoldsLock(a) ==> g.locked)
    && match a {
         case Registering(p, r) => r.RegisterInsert? && p in g.registry ==> Idle(g, g.registry[p])
         case Watching(_, w) =>
           && (!w.WatchFind? ==> w.job in g.jobs)
           && (w.StatusCheck? ==> Current(g, w.job))
           && (w.Raise? ==> Current(g, w.job) && Idle(g, w.job))
         case Stopping(p, st) => st.Remove? ==> st.job in g.jobs && g.jobs[st.job].profile == p
         case Finished => true
       }
  }

  predicate Apart(a: Actor, b: Actor) {
    !(HoldsLock(a) && HoldsLock(b))
  }

  ghost predicate Inv(s: State) {
    && SharedInv(s.g)
    && (forall i | 0 <= i < |s.actors| :: ActorInv(s.g, s.actors[i]))
    && (forall i, j | 0 <= i < j < |s.actors| :: Apart(s.actors[i], s.actors[j]))
  }

  lemma JobKept(g: Shared, a: Actor, refuse: bool, job: nat)
    requires CanAct(g, a) && ActorInv(g, a) && JobOk(g, job) && JobOk(g, g.next) && RegistryOk(g, a.profile)
    ensures JobOk(Advance(g, a, refuse).0, job)
  {
  }

  lemma RegistryKept(g: Shared, a: Actor, refuse: bool, p: nat)
    requires CanAct(g, a) && ActorInv(g, a) && RegistryOk(g, p) && JobOk(g, g.next)
    ensures RegistryOk(Advance(g, a, refuse).0, p)
  {
  }

  lemma OwnInvKept(g: Shared, a: Actor, refuse: bool)
    requires CanAct(g, a) && ActorInv(g, a) && RegistryOk(g, a.profile)
    ensures ActorInv(Advance(g, a, refuse).0, Advance(g, a, refuse).1)
  {
  }

  lemma OtherInvKept(g: Shared, a: Actor, refuse: bool, b: Actor)
    requires CanAct(g, a) && ActorInv(g, a) && ActorInv(g, b) && Apart(a, b) && JobOk(g, g.next)
    ensures ActorInv(Advance(g, a, refuse).0, b) && Apart(Advance(g, a, refuse).1, b)
  {
  }

  lemma ActKeepsInv(s: State, i: nat, refuse: bool)
    requires Inv(s) && Enabled(s, Act(i, refuse))
    ensures Inv(Do(s, Act(i, refuse)))
  {
    var a, s' := s.actors[i], Do(s, Act(i, refuse));
    assert JobOk(s.g, s.g.next) && RegistryOk(s.g, a.profile) && ActorInv(s.g, a);
    OwnInvKept(s.g, a, refuse);
    forall job: nat ensures JobOk(s'.g, job) {
      assert JobOk(s.g, job);
      JobKept(s.g, a, refuse, job);
    }
    forall p: nat ensures RegistryOk(s'.g, p) {
      assert RegistryOk(s.g, p);
      RegistryKept(s.g, a, refuse, p);
    }
    forall j | 0 <= j < |s.actors| && j != i
      ensures ActorInv(s'.g, s'.actors[j]) && Apart(s'.actors[i], s'.actors[j])
    {
      assert Apart(a, s.actors[j]) by {
        assert if i < j then Apart(s.actors[i], s.actors[j]) else Apart(s.actors[j], s.actors[i]);
      }
      OtherInvKept(s.g, a, refuse, s.actors[j]);
    }
  }

  lemma StepKeepsInv(s: State, step: Step)
    requires Inv(s) && Enabled(s, step)
    ensures Inv(Do(s, step))
  {
    if step.Act? {
      ActKeepsInv(s, step.i, step.refuse);
    } else {
      var g, g' := s.g, Do(s, step).g;
      forall job: nat ensures JobOk(g', job) {
        assert JobOk(g, job);
      }
      forall p: nat ensures RegistryOk(g', p) {
        assert RegistryOk(g, p);
      }
      forall i | 0 <= i < |s.actors| ensures ActorInv(g', s.actors[i]) {
        assert ActorInv(g, s.actors[i]);
      }
    }
  }

  lemma {:induction false} RunKeepsInv(s: State, trace: seq<Step>)
    requires Inv(s) && Legal(s, trace)
    ensures Inv(Final(s, trace))
    decreases |trace|
  {
    if trace != [] {
      StepKeepsInv(s, trace[0]);
      RunKeepsInv(Do(s, trace[0]), trace[1..]);
    }
  }

  // ---- the results ----

  /** Exclusion over all histories: no job is ever running and monitoring at once, and a job that a
      registration replaced is neither. */
  lemma RunExcludesWatch(s: State, trace: seq<Step>, job: nat)
    requires Init(s) && Legal(s, trace)
    ensures var g := Final(s, trace).g;
            && (job in g.jobs ==> !(g.jobs[job].running && g.jobs[job].monitoring))
            && (job in g.replaced ==> Idle(g, job) && !Current(g, job))
  {
    RunKeepsInv(s, trace);
    assert JobOk(Final(s, trace).g, job);
  }

  /** The flags say what is at work, in every reachable state: `running` is up exactly from a job's
      registration to its run's end, `monitoring` exactly from a reservation to its release or end.
      Hence no job is ever running and watched at once, and none of either kind has been replaced. */
  lemma FlagsTellTheTruth(s: State, trace: seq<Step>, job: nat)
    requires Init(s) && Legal(s, trace)
    ensures var g := Final(s, trace).g;
            && (job in g.started <==> job in g.jobs && g.jobs[job].running)
            && (job in g.watched <==> job in g.jobs && g.jobs[job].monitoring)
            && !(job in g.started && job in g.watched)
            && (job in g.replaced ==> job !in g.started && job !in g.watched)
  {
    RunKeepsInv(s, trace);
    assert JobOk(Final(s, trace).g, job);
  }

  /** Nothing starts beside live work: in every reachable state a registration or a reservation that
      meets a job at work gives the lock back and changes nothing else. */
  lemma LiveJobsRefuse(s: State, trace: seq<Step>, i: nat, refuse: bool, p: nat, job: nat)
    requires Init(s) && Legal(s, trace) && i < |Final(s, trace).actors|
    requires var g := Final(s, trace).g;
             (job in g.started || job in g.watched) && p in g.registry && g.registry[p] == job
    requires || Final(s, trace).actors[i] == Registering(p, RegisterCheck)
             || Final(s, trace).actors[i] == Watching(p, StatusCheck(job))
    ensures Enabled(Final(s, trace), Act(i, refuse))
    ensures Do(Final(s, trace), Act(i, refuse)).g == Final(s, trace).g.(locked := false)
    ensures Do(Final(s, trace), Act(i, refuse)).actors[i] == Finished
  {
    RunKeepsInv(s, trace);
    var f := Final(s, trace);
    assert JobOk(f.g, job) && RegistryOk(f.g, p) && ActorInv(f.g, f.actors[i]);
  }

  /** And an insertion never comes upon one either: between check and insertion the job found idle stays
      idle. */
  lemma InsertsOverIdle(s: State, trace: seq<Step>, i: nat, p: nat)
    requires Init(s) && Legal(s, trace) && i < |Final(s, trace).actors|
    requires Final(s, trace).actors[i] == Registering(p, RegisterInsert) && p in Final(s, trace).g.registry
    ensures var g := Final(s, trace).g; g.registry[p] !in g.started && g.registry[p] !in g.watched
  {
    RunKeepsInv(s, trace);
    var f := Final(s, trace);
    assert ActorInv(f.g, f.actors[i]) && JobOk(f.g, f.g.registry[p]);
  }

  // ---- each call when nobody interferes ----

  /** The actor's next `n` accesses end like this; no request is refused from outside. */
  predicate LeadsIn(n: nat, g: Shared, a: Actor, g': Shared, a': Actor)
    decreases n
  {
    if n == 0 then (g, a) == (g', a')
    else CanAct(g, a) && LeadsIn(n - 1, Advance(g, a, false).0, Advance(g, a, false).1, g', a')
  }

  ghost predicate Leads(g: Shared, a: Actor, g': Shared, a': Actor) {
    exists n: nat :: LeadsIn(n, g, a, g', a')
  }

  lemma Here(g: Shared, a: Actor)
    ensures Leads(g, a, g, a)
  {
    assert LeadsIn(0, g, a, g, a);
  }

  lemma OneFirst(g: Shared, a: Actor, g1: Shared, a1: Actor, g': Shared, a': Actor)
    requires CanAct(g, a) && Advance(g, a, false) == (g1, a1) && Leads(g1, a1, g', a')
    ensures Leads(g, a, g', a')
  {
    var n: nat :| LeadsIn(n, g1, a1, g', a');
    assert LeadsIn(n + 1, g, a, g', a');
  }

  /** A registration for a profile whose job, if any, is idle makes a new one, running and current, and
      the old one, if any, replaced. */
  lemma RegisterAlone(g: Shared, p: nat)
    requires !g.locked && (p in g.registry ==> Idle(g, g.registry[p]))
    ensures Leads(g, Registering(p, RegisterLock),
                  g.(jobs := g.jobs[g.next := Job(p, true, false)], registry := g.registry[p := g.next],
                     next := g.next + 1, started := g.started + {g.next},
                     replaced := g.replaced + if p in g.registry then {g.registry[p]} else {}), Finished)
  {
    var locked := g.(locked := true);
    var there := DoRegister(locked, p, RegisterInsert, false).0;
    Here(there, Finished);
    hide Leads;
    OneFirst(locked, Registering(p, RegisterInsert), there, Finished, there, Finished);
    OneFirst(locked, Registering(p, RegisterCheck), locked, Registering(p, RegisterInsert), there, Finished);
    OneFirst(g, Registering(p, RegisterLock), locked, Registering(p, RegisterCheck), there, Finished);
  }

  /** A watch of a profile whose job is idle raises its flag. */
  lemma WatchAlone(g: Shared, p: nat)
    requires !g.locked && p in g.registry && Idle(g, g.registry[p]) && g.jobs[g.registry[p]].profile == p
    ensures var job := g.registry[p];
            Leads(g, Watching(p, WatchFind),
                  g.(jobs := g.jobs[job := Job(p, false, true)], watched := g.watched + {job}), Finished)
  {
    var job, locked := g.registry[p], g.(locked := true);
    var there := g.(jobs := g.jobs[job := Job(p, false, true)], watched := g.watched + {job});
    Here(there, Finished);
    hide Leads;
    OneFirst(there, Watching(p, Activate(job)), there, Finished, there, Finished);
    OneFirst(locked, Watching(p, Raise(job)), there, Watching(p, Activate(job)), there, Finished);
    OneFirst(locked, Watching(p, StatusCheck(job)), locked, Watching(p, Raise(job)), there, Finished);
    OneFirst(locked, Watching(p, Identity(job)), locked, Watching(p, StatusCheck(job)), there, Finished);
    OneFirst(g, Watching(p, WatchLock(job)), locked, Watching(p, Identity(job)), there, Finished);
    OneFirst(g, Watching(p, WatchFind), g, Watching(p, WatchLock(job)), there, Finished);
  }

  /** A rejected one that still finds its job registered lowers it again. */
  lemma ReleaseAlone(g: Shared, p: nat, job: nat)
    requires !g.locked && Current(g, job)
    ensures Leads(g, Watching(p, ReleaseLock(job)),
                  g.(jobs := g.jobs[job := g.jobs[job].(monitoring := false)], watched := g.watched - {job}), Finished)
    ensures Advance(g, Watching(p, Activate(job)), true) == (g, Watching(p, ReleaseLock(job)))
  {
    var locked := g.(locked := true);
    var there := g.(jobs := g.jobs[job := g.jobs[job].(monitoring := false)], watched := g.watched - {job});
    Here(there, Finished);
    hide Leads;
    OneFirst(locked, Watching(p, ReleaseCheck(job)), there, Finished, there, Finished);
    OneFirst(g, Watching(p, ReleaseLock(job)), locked, Watching(p, ReleaseCheck(job)), there, Finished);
  }

  /** A stop takes its profile's job out of the registry. */
  lemma StopAlone(g: Shared, p: nat)
    requires !g.locked
    ensures Leads(g, Stopping(p, StopFind), g.(registry := g.registry - {p}), Finished)
  {
    var there := g.(registry := g.registry - {p});
    Here(there, Finished);
    hide Leads;
    if p in g.registry {
      var job := g.registry[p];
      OneFirst(g, Stopping(p, Remove(job)), there, Finished, there, Finished);
      OneFirst(g, Stopping(p, StopFind), g, Stopping(p, Remove(job)), there, Finished);
    } else {
      assert there.registry == g.registry;
      OneFirst(g, Stopping(p, StopFind), there, Finished, there, Finished);
    }
  }

  /** A watch whose job has been replaced meanwhile gives the lock back and changes nothing else. */
  lemma StaleWatchRefuses(g: Shared, p: nat, job: nat)
    requires !g.locked && job in g.jobs && !Current(g, job)
    ensures Leads(g, Watching(p, WatchLock(job)), g, Finished)
  {
    var locked := g.(locked := true);
    Here(g, Finished);
    hide Leads;
    OneFirst(locked, Watching(p, Identity(job)), g, Finished, g, Finished);
    OneFirst(g, Watching(p, WatchLock(job)), locked, Watching(p, Identity(job)), g, Finished);
  }

  /** The end of a run and of a watch lower that one flag of that one job, the shutdown clear empties the
      registry; and a new runtime starts unlocked and empty. */
  lemma EndsLowerFlags(s: State, job: nat)
    requires job in s.g.jobs
    ensures var g := Do(s, RunEnds(job)).g;
            && g.jobs[job] == Job(s.g.jobs[job].profile, false, s.g.jobs[job].monitoring)
            && g.jobs - {job} == s.g.jobs - {job} && g.registry == s.g.registry && g.locked == s.g.locked
    ensures var g := Do(s, WatchEnds(job)).g;
            && g.jobs[job] == Job(s.g.jobs[job].profile, s.g.jobs[job].running, false)
            && g.jobs - {job} == s.g.jobs - {job} && g.registry == s.g.registry && g.locked == s.g.locked
    ensures !s.g.locked ==> Do(s, ShutdownClear).g == s.g.(registry := map[])
    ensures Init(s) ==> !s.g.locked && s.g.registry == map[]
  {
  }

  // ---- how flags and entries change ----

  /** A flag rises only for a job that is current before or after the step, `running` only when the
      job is created; and a replacement happens only to an idle job. */
  lemma FlagsRiseOnlyForCurrent(s: State, step: Step, job: nat)
    requires Inv(s) && Enabled(s, step) && job in Do(s, step).g.jobs
    ensures var g, g' := s.g, Do(s, step).g;
            && (g'.jobs[job].running && !(job in g.jobs && g.jobs[job].running) ==> job !in g.jobs && Current(g', job))
            && (g'.jobs[job].monitoring && !(job in g.jobs && g.jobs[job].monitoring) ==>
                  Current(g, job) && Idle(g, job))
            && (job in g'.replaced && job !in g.replaced ==> Current(g, job) && Idle(g, job))
  {
    assert JobOk(s.g, s.g.next) && JobOk(s.g, job);
    if step.Act? {
      assert ActorInv(s.g, s.actors[step.i]) && RegistryOk(s.g, s.actors[step.i].profile);
    }
  }

  lemma {:induction false} RunStaysReplaced(s: State, trace: seq<Step>, job: nat)
    requires Inv(s) && Legal(s, trace) && job in s.g.replaced
    ensures job in Final(s, trace).g.replaced && Inv(Final(s, trace))
    decreases |trace|
  {
    if trace != [] {
      StepKeepsInv(s, trace[0]);
      RunStaysReplaced(Do(s, trace[0]), trace[1..], job);
    }
  }

  /** A replaced job never becomes running, monitoring or current again. */
  lemma ReplacedForGood(s: State, before: seq<Step>, after: seq<Step>, job: nat)
    requires Init(s) && Legal(s, before) && Legal(Final(s, before), after)
    requires job in Final(s, before).g.replaced
    ensures var g := Final(Final(s, before), after).g; Idle(g, job) && !Current(g, job)
  {
    RunKeepsInv(s, before);
    RunStaysReplaced(Final(s, before), after, job);
    assert JobOk(Final(Final(s, before), after).g, job);
  }

  /** How a registry entry can go: its own stop, a registration that found it idle, or the shutdown
      clear.  In particular a stop that holds another job leaves the entry alone. */
  lemma EntryLeaves(s: State, step: Step, p: nat)
    requires Inv(s) && Enabled(s, step) && p in s.g.registry
    requires var g' := Do(s, step).g; !(p in g'.registry && g'.registry[p] == s.g.registry[p])
    ensures || step == ShutdownClear
            || (step.Act? && s.actors[step.i] == Stopping(p, Remove(s.g.registry[p])))
            || (step.Act? && s.actors[step.i] == Registering(p, RegisterInsert) && Idle(s.g, s.g.registry[p]))
  {
    if step.Act? {
      assert ActorInv(s.g, s.actors[step.i]);
    }
  }

  /** A stale stop: whenever the job it found is no longer the registered one, in whatever state the
      run has reached, its removal changes nothing that is shared. */
  lemma StaleStopIsHarmless(s: State, trace: seq<Step>, i: nat, refuse: bool, p: nat, job: nat)
    requires Init(s) && Legal(s, trace)
    requires var f := Final(s, trace);
             i < |f.actors| && f.actors[i] == Stopping(p, Remove(job)) && !Current(f.g, job) && !f.g.locked
    ensures Enabled(Final(s, trace), Act(i, refuse))
    ensures Do(Final(s, trace), Act(i, refuse)).g == Final(s, trace).g
  {
    RunKeepsInv(s, trace);
    var f := Final(s, trace);
    assert ActorInv(f.g, f.actors[i]) && RegistryOk(f.g, p);
  }
}
