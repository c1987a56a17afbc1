/** `shutdown` against everybody who starts work: `start_download`/`start_upload` behind the launch
    gate, `start_batch_plan` without it, `start_sync` and `stop_sync`, interleaved one shared access
    at a time (crates/handshaker-application/src/runtime.rs).

    The gate alone is not enough (it is free again once shutdown has returned) and neither is the
    flag (a launcher may have read it before it was set): launchers are kept out by both. */
module ShutdownProtocol {
  import opened Wrappers

  datatype Progress = Queued | Running | Terminal

  /** A registered transfer.  `gated` tells the two kinds of launcher apart; `published` is set
      when the launcher has stored the task handle in the entry. */
  datatype Transfer = Transfer(gated: bool, progress: Progress, published: bool)

  /** `start_download` / `start_upload` (gated) and `start_batch_plan` (not), by program point.  A
      gated launch holds the read guard of the gate from `FlagCheck` to `Release`. */
  datatype Launch =
    | GateWait
    | FlagCheck
    | EnsureOpen
    | FindSession
    | Register
    | SpawnTask(id: nat)
    | Publish(id: nat)
    | Release

  /** The spawned task: `Over` once it has reported its end. */
  datatype Task = Start | Finish | Over

  /** `start_sync`; the job lock is held from `LiveCheck` to `Insert`. */
  datatype SyncStart = SyncOpen | SyncLock | SyncFlagCheck | LiveCheck | Insert

  /** `stop_sync` of a profile. */
  datatype SyncStop = StopOpen | FindJob | CancelJob(job: nat) | RemoveJob(job: nat)

  /** `shutdown`; the write guard of the gate is held from `ListTransfers` to `Reopen`. */
  datatype Shutdown =
    | SetFlag
    | CloseGate
    | ListTransfers
    | CancelTransfers(left: set<nat>)
    | ListJobs
    | CancelJobs(jobsLeft: set<nat>)
    | ClearJobs
    | Reopen

  datatype Actor =
    | Launcher(gated: bool, launch: Launch)
    | TransferTask(id: nat, task: Task)
    | Starter(profile: nat, start: SyncStart)
    | StopperOf(profile: nat, stop: SyncStop)
    | Stopper(shutdown: Shutdown)
    | Finished

  /** The launch gate and the transfer registry.  `closed`, `listing` and `swept` are history: the
      gate has been closed by a shutdown, the transfers it listed, and its cancel loop over them has
      ended. */
  datatype Gate = Gate(
    writer: bool,
    closed: bool,
    listing: Option<set<nat>>,
    swept: bool,
    next: nat,
    transfers: map<nat, Transfer>)

  /** The sync jobs by profile; a job is known by its allocation number.  `listed` and `cleared` are
      history: a shutdown has enumerated the jobs, has cleared the map. */
  datatype Table = Table(
    locked: bool,
    listed: bool,
    cleared: bool,
    next: nat,
    jobs: map<nat, nat>,
    cancelled: set<nat>)

  datatype Shared = Shared(shuttingDown: bool, gate: Gate, table: Table)

  datatype State = State(g: Shared, actors: seq<Actor>)

  /** `refuse` resolves a choice the model leaves open: the session is gone, the existing job is
      live.  `CancelOne` is `cancel_transfer`; `Evict` is the history reaper, which may take any
      terminal transfer, also one whose session was closed before its handle was stored. */
  datatype Step =
    | Act(i: nat, refuse: bool)
    | ShutdownCancel(i: nat, id: nat)
    | ShutdownCancelJob(i: nat, job: nat)
    | CancelOne(id: nat)
    | Evict(id: nat)

  predicate Initial(a: Actor) {
    match a
    case Launcher(gated, l) => if gated then l.GateWait? else l.EnsureOpen?
    case Starter(_, st) => st.SyncOpen?
    case StopperOf(_, st) => st.StopOpen?
    case Stopper(d) => d.SetFlag?
    case TransferTask(_, _) => false
    case Finished => true
  }

  predicate Init(s: State) {
    && s.g == Shared(false, Gate(false, false, None, false, s.g.gate.next, map[]),
                     Table(false, false, false, s.g.table.next, map[], {}))
    && (forall i | 0 <= i < |s.actors| :: Initial(s.actors[i]))
  }

  predicate HoldsRead(a: Actor) {
    a.Launcher? && a.gated && !a.launch.GateWait?
  }

  predicate HoldsJobs(a: Actor) {
    a.Starter? && !a.start.SyncOpen? && !a.start.SyncLock?
  }

  predicate CanAct(g: Shared, a: Actor) {
    match a
    case Launcher(_, l) => l.GateWait? ==> !g.gate.writer
    case TransferTask(_, t) => !t.Over?
    case Starter(_, st) => st.SyncLock? ==> !g.table.locked
    case StopperOf(_, st) => (st.FindJob? || st.RemoveJob?) ==> !g.table.locked
    case Stopper(d) =>
      && (d.CloseGate? ==> !g.gate.writer)
      && (d.ListJobs? || d.ClearJobs? ==> !g.table.locked)
      && (d.CancelTransfers? ==> d.left == {})
      && (d.CancelJobs? ==> d.jobsLeft == {})
    case Finished => false
  }

  /** `TransferRegistry::transition`: a terminal state is never overwritten, a missing id ignored. */
  function Transition(transfers: map<nat, Transfer>, id: nat, next: Progress): map<nat, Transfer> {
    if id in transfers && transfers[id].progress != Terminal
    then transfers[id := transfers[id].(progress := next)] else transfers
  }

  /** The next access of a launch: the registry, the launch, and the task it spawned. */
  function DoLaunch(down: bool, q: Gate, gated: bool, l: Launch, refuse: bool): (Gate, Actor, seq<Actor>) {
    match l
    case GateWait => (q, Launcher(gated, FlagCheck), [])
    case FlagCheck => (q, if down then Finished else Launcher(gated, EnsureOpen), [])
    case EnsureOpen => (q, if down then Finished else Launcher(gated, FindSession), [])
    case FindSession => (q, if refuse then Finished else Launcher(gated, Register), [])
    case Register =>
      (q.(next := q.next + 1, transfers := q.transfers[q.next := Transfer(gated, Queued, false)]),
       Launcher(gated, SpawnTask(q.next)), [])
    case SpawnTask(id) => (q, Launcher(gated, Publish(id)), [TransferTask(id, Start)])
    case Publish(id) =>
      (if id in q.transfers then q.(transfers := q.transfers[id := q.transfers[id].(published := true)]) else q,
       Launcher(gated, Release), [])
    case Release => (q, Finished, [])
  }

  function DoTask(q: Gate, id: nat, t: Task): (Gate, Actor) {
    match t
    case Start => (q.(transfers := Transition(q.transfers, id, Running)), TransferTask(id, Finish))
    case Finish => (q.(transfers := Transition(q.transfers, id, Terminal)), TransferTask(id, Over))
    case Over => (q, TransferTask(id, Over))
  }

  function DoStart(down: bool, t: Table, profile: nat, st: SyncStart, refuse: bool): (Table, Actor) {
    match st
    case SyncOpen => (t, if down then Finished else Starter(profile, SyncLock))
    case SyncLock => (t.(locked := true), Starter(profile, SyncFlagCheck))
    case SyncFlagCheck => if down then (t.(locked := false), Finished) else (t, Starter(profile, LiveCheck))
    case LiveCheck =>
      if profile in t.jobs && refuse then (t.(locked := false), Finished) else (t, Starter(profile, Insert))
    case Insert => (t.(locked := false, next := t.next + 1, jobs := t.jobs[profile := t.next]), Finished)
  }

  function DoStop(down: bool, t: Table, profile: nat, st: SyncStop): (Table, Actor) {
    match st
    case StopOpen => (t, if down then Finished else StopperOf(profile, FindJob))
    case FindJob => (t, if profile in t.jobs then StopperOf(profile, CancelJob(t.jobs[profile])) else Finished)
    case CancelJob(job) => (t.(cancelled := t.cancelled + {job}), StopperOf(profile, RemoveJob(job)))
    case RemoveJob(job) =>
      (if profile in t.jobs && t.jobs[profile] == job then t.(jobs := t.jobs - {profile}) else t, Finished)
  }

  function DoShutdown(g: Shared, d: Shutdown): (Shared, Actor) {
    match d
    case SetFlag => (g.(shuttingDown := true), if g.shuttingDown then Finished else Stopper(CloseGate))
    case CloseGate => (g.(gate := g.gate.(writer := true, closed := true)), Stopper(ListTransfers))
    case ListTransfers =>
      (g.(gate := g.gate.(listing := Some(g.gate.transfers.Keys))), Stopper(CancelTransfers(g.gate.transfers.Keys)))
    case CancelTransfers(_) => (g.(gate := g.gate.(swept := true)), Stopper(ListJobs))
    case ListJobs =>
      (g.(table := g.table.(listed := true)), Stopper(CancelJobs(set p | p in g.table.jobs :: g.table.jobs[p])))
    case CancelJobs(_) => (g, Stopper(ClearJobs))
    case ClearJobs => (g.(table := g.table.(jobs := map[], cleared := true)), Stopper(Reopen))
    case Reopen => (g.(gate := g.gate.(writer := false)), Finished)
  }

  function Advance(g: Shared, a: Actor, refuse: bool): (Shared, Actor, seq<Actor>)
    requires CanAct(g, a)
  {
    match a
    case Launcher(gated, l) =>
      var (q, a', spawned) := DoLaunch(g.shuttingDown, g.gate, gated, l, refuse);
      (g.(gate := q), a', spawned)
    case TransferTask(id, t) =>
      var (q, a') := DoTask(g.gate, id, t);
      (g.(gate := q), a', [])
    case Starter(p, st) =>
      var (t, a') := DoStart(g.shuttingDown, g.table, p, st, refuse);
      (g.(table := t), a', [])
    case StopperOf(p, st) =>
      var (t, a') := DoStop(g.shuttingDown, g.table, p, st);
      (g.(table := t), a', [])
    case Stopper(d) =>
      var (g', a') := DoShutdown(g, d);
      (g', a', [])
  }

  /** `TransferRegistry::cancel`. */
  function Cancel(g: Shared, id: nat): Shared {
    g.(gate := g.gate.(transfers := Transition(g.gate.transfers, id, Terminal)))
  }

  predicate Enabled(s: State, step: Step) {
    match step
    case Act(i, _) =>
      && i < |s.actors| && CanAct(s.g, s.actors[i])
      && (s.actors[i] == Stopper(CloseGate) ==> forall j | 0 <= j < |s.actors| :: !HoldsRead(s.actors[j]))
    case ShutdownCancel(i, id) =>
      i < |s.actors| && s.actors[i].Stopper? && s.actors[i].shutdown.CancelTransfers? && id in s.actors[i].shutdown.left
    case ShutdownCancelJob(i, job) =>
      i < |s.actors| && s.actors[i].Stopper? && s.actors[i].shutdown.CancelJobs? && job in s.actors[i].shutdown.jobsLeft
    case CancelOne(_) => true
    case Evict(id) => id in s.g.gate.transfers && s.g.gate.transfers[id].progress == Terminal
  }

  function Do(s: State, step: Step): State
    requires Enabled(s, step)
  {
    match step
    case Act(i, refuse) =>
      var (g, a, spawned) := Advance(s.g, s.actors[i], refuse);
      State(g, s.actors[i := a] + spawned)
    case ShutdownCancel(i, id) =>
      State(Cancel(s.g, id), s.actors[i := Stopper(CancelTransfers(s.actors[i].shutdown.left - {id}))])
    case ShutdownCancelJob(i, job) =>
      State(s.g.(table := s.g.table.(cancelled := s.g.table.cancelled + {job})),
            s.actors[i := Stopper(CancelJobs(s.actors[i].shutdown.jobsLeft - {job}))])
    case CancelOne(id) => s.(g := Cancel(s.g, id))
    case Evict(id) => s.(g := s.g.(gate := s.g.gate.(transfers := s.g.gate.transfers - {id})))
  }

  predicate Legal(s: State, trace: seq<Step>)
    decreases |trace|
  {
    trace == [] || (Enabled(s, trace[0]) && Legal(Do(s, trace[0]), trace[1..]))
  }

  function Final(s: State, trace: seq<Step>): State
    requires Legal(s, trace)
    decreases |trace|
  {
    if trace == [] then s else Final(Do(s, trace[0]), trace[1..])
  }

  // ---- the invariant ----

  /** A gated launch that has seen the flag down. */
  predicate Admitted(a: Actor) {
    HoldsRead(a) && !a.launch.FlagCheck?
  }

  predicate PastFlag(a: Actor) {
    a.Stopper? && !a.shutdown.SetFlag?
  }

  /** The launch still has to publish the handle of this transfer. */
  predicate Launching(a: Actor, id: nat) {
    a.Launcher? && (a.launch.SpawnTask? || a.launch.Publish?) && a.launch.id == id
  }

  predicate Apart(a: Actor, b: Actor) {
    && !(PastFlag(a) && PastFlag(b))
    && !(HoldsJobs(a) && HoldsJobs(b))
  }

  predicate IsGated(q: Gate, id: nat) {
    id in q.transfers && q.transfers[id].gated
  }

  /** The transfer was registered when the shutdown listed the transfers. */
  predicate Listed(q: Gate, id: nat) {
    id in q.transfers && q.listing.Some? && id in q.listing.value
  }

  ghost predicate ActorInv(g: Shared, a: Actor) {
    match a
    case Launcher(gated, l) => gated && Admitted(a) ==> !g.gate.closed
    case TransferTask(_, _) => true
    case Starter(_, st) =>
      (HoldsJobs(a) ==> g.table.locked) && (st.LiveCheck? || st.Insert? ==> !g.table.listed)
    case StopperOf(_, st) => st.RemoveJob? ==> st.job in g.table.cancelled
    case Stopper(d) => ShutdownInv(g, d)
    case Finished => true
  }

  ghost predicate ShutdownInv(g: Shared, d: Shutdown) {
    && (!d.SetFlag? ==> g.shuttingDown)
    && (d.CloseGate? <==> !d.SetFlag? && !g.gate.closed)
    && (d.CloseGate? || d.ListTransfers? ==> g.gate.listing.None?)
    && (d.CloseGate? || d.ListTransfers? || d.CancelTransfers? || d.ListJobs? ==> !g.table.listed)
    && (d.ListJobs? || d.CancelJobs? || d.ClearJobs? || d.Reopen? ==> g.gate.swept)
    && (d.CancelJobs? || d.ClearJobs? || d.Reopen? ==> g.table.listed)
    && (d.CancelTransfers? ==>
          && g.gate.listing.Some?
          && d.left <= g.gate.listing.value
          && (forall id | Listed(g.gate, id) :: id in d.left || g.gate.transfers[id].progress == Terminal))
    && (d.CancelJobs? ==>
          forall p | p in g.table.jobs :: g.table.jobs[p] in d.jobsLeft || g.table.jobs[p] in g.table.cancelled)
    && (d.ClearJobs? ==> forall p | p in g.table.jobs :: g.table.jobs[p] in g.table.cancelled)
  }

  /** What holds of one registered transfer. */
  ghost predicate TransferOk(q: Gate, id: nat) {
    id in q.transfers ==>
      && id < q.next
      && (q.transfers[id].gated && q.listing.Some? ==> Listed(q, id))
      && (Listed(q, id) && q.swept ==> q.transfers[id].progress == Terminal)
      && (q.transfers[id].gated && q.closed ==> q.transfers[id].published)
  }

  ghost predicate PhasesInv(g: Shared) {
    && (g.gate.closed ==> g.shuttingDown)
    && (g.gate.listing.Some? ==> g.gate.closed && forall id | id in g.gate.listing.value :: id < g.gate.next)
    && (g.gate.swept ==> g.gate.listing.Some?)
    && (g.table.listed ==> g.shuttingDown)
    && (g.table.cleared ==> g.table.listed && g.table.jobs == map[])
  }

  ghost predicate SharedInv(g: Shared) {
    PhasesInv(g) && forall id: nat :: TransferOk(g.gate, id)
  }

  /** A gated transfer without a published handle has its launch still at work. */
  ghost predicate Accounted(s: State, id: nat) {
    IsGated(s.g.gate, id) && !s.g.gate.transfers[id].published ==>
      exists j :: 0 <= j < |s.actors| && HoldsRead(s.actors[j]) && Launching(s.actors[j], id)
  }

  ghost predicate Inv(s: State) {
    && SharedInv(s.g)
    && (forall i | 0 <= i < |s.actors| :: ActorInv(s.g, s.actors[i]))
    && (forall i, j | 0 <= i < j < |s.actors| :: Apart(s.actors[i], s.actors[j]))
    && (forall id: nat :: Accounted(s, id))
  }

  lemma StaysApart(g: Shared, a: Actor, b: Actor, refuse: bool)
    requires CanAct(g, a) && ActorInv(g, a) && ActorInv(g, b) && Apart(a, b)
    ensures Apart(Advance(g, a, refuse).1, b)
  {
  }

  lemma PhasesKept(g: Shared, a: Actor, refuse: bool)
    requires CanAct(g, a) && SharedInv(g) && ActorInv(g, a)
    ensures PhasesInv(Advance(g, a, refuse).0)
  {
    assert forall id | id in g.gate.transfers :: TransferOk(g.gate, id);
  }

  /** Closing the gate relies on every gated handle being published by then. */
  lemma TransferKept(g: Shared, a: Actor, refuse: bool, id: nat)
    requires CanAct(g, a) && PhasesInv(g) && ActorInv(g, a) && TransferOk(g.gate, id)
    requires a == Stopper(CloseGate) && IsGated(g.gate, id) ==> g.gate.transfers[id].published
    ensures TransferOk(Advance(g, a, refuse).0.gate, id)
  {
  }

  lemma OwnInvKept(g: Shared, a: Actor, refuse: bool)
    requires CanAct(g, a) && PhasesInv(g) && ActorInv(g, a)
    ensures ActorInv(Advance(g, a, refuse).0, Advance(g, a, refuse).1)
  {
  }

  lemma OtherInvKept(g: Shared, a: Actor, b: Actor, refuse: bool)
    requires CanAct(g, a) && PhasesInv(g) && ActorInv(g, a) && ActorInv(g, b) && Apart(a, b)
    requires a == Stopper(CloseGate) ==> !HoldsRead(b)
    ensures ActorInv(Advance(g, a, refuse).0, b)
  {
  }

  /** An actor that leaves a gated transfer unpublished found it so or has just registered it, and
      one that was launching it still is. */
  lemma UnpublishedIsLaunched(g: Shared, a: Actor, refuse: bool, id: nat)
    requires CanAct(g, a) && ActorInv(g, a) && TransferOk(g.gate, id)
    ensures var (g', a', _) := Advance(g, a, refuse);
            IsGated(g'.gate, id) && !g'.gate.transfers[id].published ==>
              && ((IsGated(g.gate, id) && !g.gate.transfers[id].published) || (HoldsRead(a') && Launching(a', id)))
              && (HoldsRead(a) && Launching(a, id) ==> HoldsRead(a') && Launching(a', id))
  {
  }

  lemma ActKeepsAccounts(s: State, i: nat, refuse: bool, id: nat)
    requires Inv(s) && Enabled(s, Act(i, refuse))
    ensures Accounted(Do(s, Act(i, refuse)), id)
  {
    var a, s' := s.actors[i], Do(s, Act(i, refuse));
    assert Accounted(s, id) && TransferOk(s.g.gate, id) && ActorInv(s.g, a);
    UnpublishedIsLaunched(s.g, a, refuse, id);
    hide Advance, ActorInv, CanAct;
    if IsGated(s'.g.gate, id) && !s'.g.gate.transfers[id].published {
      if IsGated(s.g.gate, id) && !s.g.gate.transfers[id].published {
        var j :| 0 <= j < |s.actors| && HoldsRead(s.actors[j]) && Launching(s.actors[j], id);
        assert HoldsRead(s'.actors[j]) && Launching(s'.actors[j], id);
      } else {
        assert HoldsRead(s'.actors[i]) && Launching(s'.actors[i], id);
      }
    }
  }

  lemma ActKeepsInv(s: State, i: nat, refuse: bool)
    requires Inv(s) && Enabled(s, Act(i, refuse))
    ensures Inv(Do(s, Act(i, refuse)))
  {
    var a, s' := s.actors[i], Do(s, Act(i, refuse));
    assert ActorInv(s.g, a);
    hide DoLaunch, DoTask, DoStart, DoStop, DoShutdown, ActorInv, TransferOk, PhasesInv;
    PhasesKept(s.g, a, refuse);
    OwnInvKept(s.g, a, refuse);
    forall id: nat ensures TransferOk(s'.g.gate, id) && Accounted(s', id) {
      assert TransferOk(s.g.gate, id) && Accounted(s, id);
      TransferKept(s.g, a, refuse, id);
      ActKeepsAccounts(s, i, refuse, id);
    }
    forall j | 0 <= j < |s.actors| && j != i
      ensures ActorInv(s'.g, s'.actors[j]) && Apart(s'.actors[i], s'.actors[j])
    {
      assert Apart(a, s.actors[j]) by {
        assert if i < j then Apart(s.actors[i], s.actors[j]) else Apart(s.actors[j], s.actors[i]);
      }
      OtherInvKept(s.g, a, s.actors[j], refuse);
      StaysApart(s.g, a, s.actors[j], refuse);
    }
  }

  /** The registry-only steps: somebody cancels or evicts a transfer. */
  lemma RegistryStepKeepsInv(s: State, step: Step)
    requires Inv(s) && Enabled(s, step) && (step.CancelOne? || step.Evict?)
    ensures Inv(Do(s, step))
  {
    var s' := Do(s, step);
    forall id: nat ensures TransferOk(s'.g.gate, id) && Accounted(s', id) {
      assert TransferOk(s.g.gate, id) && Accounted(s, id);
    }
    forall j | 0 <= j < |s.actors| ensures ActorInv(s'.g, s'.actors[j]) {
      assert ActorInv(s.g, s.actors[j]);
    }
  }

  lemma SweepStepKeepsInv(s: State, step: Step)
    requires Inv(s) && Enabled(s, step) && (step.ShutdownCancel? || step.ShutdownCancelJob?)
    ensures Inv(Do(s, step))
  {
    var s' := Do(s, step);
    assert ActorInv(s.g, s.actors[step.i]);
    assert s.g.gate.closed;
    forall id: nat ensures TransferOk(s'.g.gate, id) && Accounted(s', id) {
      assert TransferOk(s.g.gate, id);
    }
    forall j | 0 <= j < |s.actors| ensures ActorInv(s'.g, s'.actors[j]) {
      assert ActorInv(s.g, s.actors[j]);
      if j != step.i {
        assert if j < step.i then Apart(s.actors[j], s.actors[step.i]) else Apart(s.actors[step.i], s.actors[j]);
      }
    }
  }

  lemma StepKeepsInv(s: State, step: Step)
    requires Inv(s) && Enabled(s, step)
    ensures Inv(Do(s, step))
  {
    match step {
      case Act(i, refuse) => ActKeepsInv(s, i, refuse);
      case ShutdownCancel(_, _) => SweepStepKeepsInv(s, step);
      case ShutdownCancelJob(_, _) => SweepStepKeepsInv(s, step);
      case _ => RegistryStepKeepsInv(s, step);
    }
  }

  lemma {:induction false} RunKeepsInv(s: State, trace: seq<Step>)
    requires Inv(s) && Legal(s, trace)
    ensures Inv(Final(s, trace))
    decreases |trace|
  {
    if trace != [] {
      StepKeepsInv(s, trace[0]);
      RunKeepsInv(Do(s, trace[0]), trace[1..]);
    }
  }

  // ---- the results ----

  /** After shutdown's cancel loop, in every interleaving, each transfer a gated launch registered
      is terminal and its handle has been published. */
  lemma SweepCoversLaunches(s: State, trace: seq<Step>, id: nat)
    requires Init(s) && Legal(s, trace) && Final(s, trace).g.gate.swept
    requires IsGated(Final(s, trace).g.gate, id)
    ensures Final(s, trace).g.gate.transfers[id] == Transfer(true, Terminal, true)
  {
    RunKeepsInv(s, trace);
    assert TransferOk(Final(s, trace).g.gate, id);
  }

  /** The sweep covers more: every transfer, gated or not, that was registered when shutdown listed the
      transfers is terminal after the cancel loop. */
  lemma SweepCoversListed(s: State, trace: seq<Step>, id: nat)
    requires Init(s) && Legal(s, trace) && Final(s, trace).g.gate.swept
    requires Listed(Final(s, trace).g.gate, id)
    ensures Final(s, trace).g.gate.transfers[id].progress == Terminal
  {
    RunKeepsInv(s, trace);
    assert TransferOk(Final(s, trace).g.gate, id);
  }

  predicate ByShutdown(s: State, step: Step) {
    match step
    case Act(i, _) => i < |s.actors| && s.actors[i].Stopper?
    case ShutdownCancel(_, _) => true
    case ShutdownCancelJob(_, _) => true
    case _ => false
  }

  /** And no more: no step of a shutdown, in any reachable state, touches a transfer that was not
      registered at the listing.  So those that escape are exactly the batch transfers registered
      later. */
  lemma ShutdownLeavesLater(s: State, trace: seq<Step>, step: Step, id: nat)
    requires Init(s) && Legal(s, trace) && Enabled(Final(s, trace), step) && ByShutdown(Final(s, trace), step)
    requires id in Final(s, trace).g.gate.transfers && !Listed(Final(s, trace).g.gate, id)
    ensures var f := Final(s, trace);
            && id in Do(f, step).g.gate.transfers
            && Do(f, step).g.gate.transfers[id] == f.g.gate.transfers[id]
            && (f.g.gate.listing.Some? ==> !f.g.gate.transfers[id].gated)
  {
    RunKeepsInv(s, trace);
    var f := Final(s, trace);
    assert TransferOk(f.g.gate, id);
    assert step.ShutdownCancel? ==> ActorInv(f.g, f.actors[step.i]);
  }

  /** What a closed gate and an enumerated job map keep from one state to the next. */
  ghost predicate Later(g: Shared, g': Shared) {
    && (g.gate.closed ==> g'.gate.closed && forall id | IsGated(g'.gate, id) :: IsGated(g.gate, id))
    && (g.table.listed ==> g'.table.listed && forall p | p in g'.table.jobs :: p in g.table.jobs)
    && (g.table.cleared ==> g'.table.cleared)
  }

  lemma StepGoesLater(s: State, step: Step)
    requires Inv(s) && Enabled(s, step)
    ensures Later(s.g, Do(s, step).g)
  {
    if step.Act? {
      assert ActorInv(s.g, s.actors[step.i]);
    }
  }

  lemma {:induction false} RunGoesLater(s: State, trace: seq<Step>)
    requires Inv(s) && Legal(s, trace)
    ensures Later(s.g, Final(s, trace).g)
    decreases |trace|
  {
    if trace != [] {
      StepGoesLater(s, trace[0]);
      StepKeepsInv(s, trace[0]);
      RunGoesLater(Do(s, trace[0]), trace[1..]);
    }
  }

  /** No gated transfer is registered after the gate has been closed, even once shutdown has
      returned and the gate is free again. */
  lemma NoLaunchAfterClose(s: State, before: seq<Step>, after: seq<Step>, id: nat)
    requires Init(s) && Legal(s, before) && Legal(Final(s, before), after)
    requires Final(s, before).g.gate.closed && IsGated(Final(Final(s, before), after).g.gate, id)
    ensures IsGated(Final(s, before).g.gate, id)
  {
    RunKeepsInv(s, before);
    RunGoesLater(Final(s, before), after);
  }

  /** The job map: no job is registered once a shutdown has enumerated them; the clear drops no job
      whose cancellation was not requested; and the map stays empty for ever after. */
  lemma JobsDrain(s: State, before: seq<Step>, after: seq<Step>)
    requires Init(s) && Legal(s, before) && Legal(Final(s, before), after)
    ensures var m := Final(s, before);
            var f := Final(m, after);
            && (m.g.table.listed ==> f.g.table.jobs.Keys <= m.g.table.jobs.Keys)
            && (forall i, p | 0 <= i < |m.actors| && m.actors[i] == Stopper(ClearJobs) && p in m.g.table.jobs ::
                  m.g.table.jobs[p] in m.g.table.cancelled)
            && (m.g.table.cleared ==> f.g.table.jobs == map[])
  {
    RunKeepsInv(s, before);
    var m := Final(s, before);
    RunKeepsInv(m, after);
    RunGoesLater(m, after);
    forall i, p | 0 <= i < |m.actors| && m.actors[i] == Stopper(ClearJobs) && p in m.g.table.jobs
      ensures m.g.table.jobs[p] in m.g.table.cancelled
    {
      assert ActorInv(m.g, m.actors[i]);
    }
  }

  lemma {:induction false} LegalAppend(s: State, trace: seq<Step>, step: Step)
    requires Legal(s, trace) && Enabled(Final(s, trace), step)
    ensures Legal(s, trace + [step]) && Final(s, trace + [step]) == Do(Final(s, trace), step)
    decreases |trace|
  {
    if trace == [] {
      assert (trace + [step])[1..] == [];
    } else {
      assert (trace + [step])[1..] == trace[1..] + [step];
      LegalAppend(Do(s, trace[0]), trace[1..], step);
    }
  }

  /** One more step of actor `i` at the end of a run. */
  lemma Play(s: State, trace: seq<Step>, i: nat, g: Shared, a: Actor) returns (trace': seq<Step>)
    requires Legal(s, trace) && Enabled(Final(s, trace), Act(i, false))
    requires Advance(Final(s, trace).g, Final(s, trace).actors[i], false) == (g, a, [])
    ensures Legal(s, trace') && Final(s, trace') == State(g, Final(s, trace).actors[i := a])
  {
    trace' := trace + [Act(i, false)];
    LegalAppend(s, trace, Act(i, false));
  }

  const Empty := Table(false, false, false, 0, map[], {})

  /** A batch launch past its checks while a shutdown has just ended its cancel loop. */
  lemma BatchLaunchWaits() returns (s: State, trace: seq<Step>)
    ensures Init(s) && Legal(s, trace)
    ensures Final(s, trace) == State(Shared(true, Gate(true, true, Some({}), true, 0, map[]), Empty),
                                     [Launcher(false, Register), Stopper(ListJobs)])
  {
    var up := Shared(false, Gate(false, false, None, false, 0, map[]), Empty);
    s := State(up, [Launcher(false, EnsureOpen), Stopper(SetFlag)]);
    trace := Play(s, [], 0, up, Launcher(false, FindSession));
    trace := Play(s, trace, 0, up, Launcher(false, Register));
    var down := up.(shuttingDown := true);
    trace := Play(s, trace, 1, down, Stopper(CloseGate));
    var closed := down.(gate := Gate(true, true, None, false, 0, map[]));
    trace := Play(s, trace, 1, closed, Stopper(ListTransfers));
    assert closed.gate.transfers.Keys == {};
    var listed := down.(gate := Gate(true, true, Some({}), false, 0, map[]));
    trace := Play(s, trace, 1, listed, Stopper(CancelTransfers({})));
    trace := Play(s, trace, 1, down.(gate := Gate(true, true, Some({}), true, 0, map[])), Stopper(ListJobs));
  }

  /** The gate is what makes the difference: `start_batch_plan` does not take it, and this run leaves
      one of its transfers queued after the cancel loop. */
  lemma BatchLaunchEscapes() returns (s: State, trace: seq<Step>)
    ensures Init(s) && Legal(s, trace)
    ensures var q := Final(s, trace).g.gate;
            q.swept && 0 in q.transfers && !q.transfers[0].gated && q.transfers[0].progress == Queued
  {
    s, trace := BatchLaunchWaits();
    var late := Gate(true, true, Some({}), true, 1, map[0 := Transfer(false, Queued, false)]);
    trace := Play(s, trace, 0, Shared(true, late, Empty), Launcher(false, SpawnTask(0)));
  }

  // ---- what tasks and launches come to ----

  predicate TaskOf(a: Actor, id: nat) {
    a.TransferTask? && a.id == id
  }

  ghost predicate HasTask(s: State, id: nat) {
    exists j :: 0 <= j < |s.actors| && TaskOf(s.actors[j], id)
  }

  /** What a task has done to its transfer so far, and that launches stay among the ids given out. */
  predicate TaskInv(q: Gate, a: Actor) {
    && (a.TransferTask? ==> a.id < q.next)
    && (a.Launcher? && (a.launch.SpawnTask? || a.launch.Publish?) ==> a.launch.id < q.next)
    && (a.TransferTask? && a.task.Finish? && a.id in q.transfers ==> q.transfers[a.id].progress != Queued)
    && (a.TransferTask? && a.task.Over? && a.id in q.transfers ==> q.transfers[a.id].progress == Terminal)
  }

  /** A published handle is that of a task, and so is one about to be published. */
  ghost predicate Tasked(s: State, id: nat) {
    && (id in s.g.gate.transfers ==> id < s.g.gate.next)
    && (id in s.g.gate.transfers && s.g.gate.transfers[id].published ==> HasTask(s, id))
    && (forall i | 0 <= i < |s.actors| && s.actors[i].Launcher? && s.actors[i].launch == Publish(id) :: HasTask(s, id))
  }

  ghost predicate TasksInv(s: State) {
    && (forall i | 0 <= i < |s.actors| :: TaskInv(s.g.gate, s.actors[i]))
    && (forall id: nat :: Tasked(s, id))
  }

  /** A transfer's progress never goes back, and what is new is queued. */
  lemma ProgressKept(g: Shared, a: Actor, refuse: bool, b: Actor)
    requires CanAct(g, a) && TaskInv(g.gate, a) && TaskInv(g.gate, b)
    ensures TaskInv(Advance(g, a, refuse).0.gate, b) && TaskInv(Advance(g, a, refuse).0.gate, Advance(g, a, refuse).1)
    ensures forall k | 0 <= k < |Advance(g, a, refuse).2| ::
              TaskInv(Advance(g, a, refuse).0.gate, Advance(g, a, refuse).2[k])
  {
  }

  lemma PublishedHasTask(g: Shared, a: Actor, refuse: bool, id: nat)
    requires CanAct(g, a) && (id in g.gate.transfers ==> id < g.gate.next)
    ensures var (g', a', spawned) := Advance(g, a, refuse);
            && (id in g'.gate.transfers ==> id < g'.gate.next)
            && (TaskOf(a, id) ==> TaskOf(a', id))
            && (a'.Launcher? && a'.launch == Publish(id) ==> spawned == [TransferTask(id, Start)])
            && (id in g'.gate.transfers && g'.gate.transfers[id].published ==>
                  || (id in g.gate.transfers && g.gate.transfers[id].published)
                  || (a.Launcher? && a.launch == Publish(id)))
  {
    match a {
      case Launcher(_, _) => hide DoTask, DoStart, DoStop, DoShutdown;
      case TransferTask(_, _) => hide DoLaunch, DoStart, DoStop, DoShutdown;
      case _ => hide DoLaunch, DoTask;
    }
  }

  lemma ActKeepsTasks(s: State, i: nat, refuse: bool)
    requires TasksInv(s) && Enabled(s, Act(i, refuse))
    ensures TasksInv(Do(s, Act(i, refuse)))
  {
    var a, s', n := s.actors[i], Do(s, Act(i, refuse)), |s.actors|;
    var spawned := Advance(s.g, a, refuse).2;
    assert TaskInv(s.g.gate, a);
    forall j | 0 <= j < |s'.actors| ensures TaskInv(s'.g.gate, s'.actors[j]) {
      ProgressKept(s.g, a, refuse, s.actors[if j < n then j else i]);
      assert j >= n ==> s'.actors[j] == spawned[j - n];
    }
    SpawnsTasksOnly(s.g, a, refuse);
    assert forall k | n <= k < |s'.actors| :: s'.actors[k] == spawned[k - n];
    hide Advance;
    forall id: nat ensures Tasked(s', id) {
      assert Tasked(s, id);
      PublishedHasTask(s.g, a, refuse, id);
      if HasTask(s, id) {
        var j :| 0 <= j < n && TaskOf(s.actors[j], id);
        assert TaskOf(s'.actors[j], id);
      }
      if spawned == [TransferTask(id, Start)] {
        assert s'.actors[n] == spawned[0] && TaskOf(s'.actors[n], id);
      }
      forall j | 0 <= j < |s'.actors| && s'.actors[j].Launcher? && s'.actors[j].launch == Publish(id)
        ensures HasTask(s', id)
      {
        assert j < n && (j != i ==> s.actors[j] == s'.actors[j]);
      }
    }
  }

  lemma SpawnsTasksOnly(g: Shared, a: Actor, refuse: bool)
    requires CanAct(g, a)
    ensures forall k | 0 <= k < |Advance(g, a, refuse).2| :: Advance(g, a, refuse).2[k].TransferTask?
  {
  }

  lemma OtherStepKeepsTasks(s: State, step: Step)
    requires TasksInv(s) && Enabled(s, step) && !step.Act?
    ensures TasksInv(Do(s, step))
  {
    var s' := Do(s, step);
    forall j | 0 <= j < |s'.actors| ensures TaskInv(s'.g.gate, s'.actors[j]) {
      assert TaskInv(s.g.gate, s.actors[j]);
    }
    forall id: nat ensures Tasked(s', id) {
      assert Tasked(s, id);
      if HasTask(s, id) {
        var j :| 0 <= j < |s.actors| && TaskOf(s.actors[j], id);
        assert TaskOf(s'.actors[j], id);
      }
    }
  }

  lemma {:induction false} RunKeepsTasks(s: State, trace: seq<Step>)
    requires TasksInv(s) && Legal(s, trace)
    ensures TasksInv(Final(s, trace))
    decreases |trace|
  {
    if trace != [] {
      if trace[0].Act? {
        ActKeepsTasks(s, trace[0].i, trace[0].refuse);
      } else {
        OtherStepKeepsTasks(s, trace[0]);
      }
      RunKeepsTasks(Do(s, trace[0]), trace[1..]);
    }
  }

  /** In every reachable state: the transfer of a task that is over is terminal, that of a task at work
      is not queued any more, and every published transfer has a task. */
  lemma EndedIsTerminal(s: State, trace: seq<Step>, id: nat)
    requires Init(s) && Legal(s, trace) && id in Final(s, trace).g.gate.transfers
    ensures var f := Final(s, trace);
            && (forall i | 0 <= i < |f.actors| && f.actors[i] == TransferTask(id, Over) ::
                  f.g.gate.transfers[id].progress == Terminal)
            && (forall i | 0 <= i < |f.actors| && f.actors[i] == TransferTask(id, Finish) ::
                  f.g.gate.transfers[id].progress != Queued)
            && (f.g.gate.transfers[id].published ==> HasTask(f, id))
  {
    RunKeepsTasks(s, trace);
    var f := Final(s, trace);
    assert Tasked(f, id) && forall i | 0 <= i < |f.actors| :: TaskInv(f.g.gate, f.actors[i]);
  }

  // ---- each call when nobody interferes ----

  /** The actor's next `n` accesses, none of them refused, end like this and spawn these. */
  predicate LeadsIn(n: nat, g: Shared, a: Actor, g': Shared, a': Actor, spawned: seq<Actor>)
    decreases n
  {
    if n == 0 then (g, a) == (g', a') && spawned == []
    else
      && CanAct(g, a)
      && var (g1, a1, first) := Advance(g, a, false);
      && first <= spawned && LeadsIn(n - 1, g1, a1, g', a', spawned[|first|..])
  }

  ghost predicate Leads(g: Shared, a: Actor, g': Shared, a': Actor, spawned: seq<Actor>) {
    exists n: nat :: LeadsIn(n, g, a, g', a', spawned)
  }

  lemma Here(g: Shared, a: Actor)
    ensures Leads(g, a, g, a, [])
  {
    assert LeadsIn(0, g, a, g, a, []);
  }

  lemma OneFirst(g: Shared, a: Actor, g1: Shared, a1: Actor, g': Shared, a': Actor, spawned: seq<Actor>)
    requires CanAct(g, a) && Advance(g, a, false) == (g1, a1, []) && Leads(g1, a1, g', a', spawned)
    ensures Leads(g, a, g', a', spawned)
  {
    var n: nat :| LeadsIn(n, g1, a1, g', a', spawned);
    assert LeadsIn(n + 1, g, a, g', a', spawned);
  }

  lemma SpawnFirst(g: Shared, a: Actor, g1: Shared, a1: Actor, task: Actor, g': Shared, a': Actor)
    requires CanAct(g, a) && Advance(g, a, false) == (g1, a1, [task]) && Leads(g1, a1, g', a', [])
    ensures Leads(g, a, g', a', [task])
  {
    var n: nat :| LeadsIn(n, g1, a1, g', a', []);
    assert [task][1..] == [];
    assert LeadsIn(n + 1, g, a, g', a', [task]);
  }

  lemma RegisteredPublishes(g: Shared, gated: bool, id: nat)
    requires id in g.gate.transfers
    ensures var there := g.(gate := g.gate.(transfers := g.gate.transfers[id := g.gate.transfers[id].(published := true)]));
            Leads(g, Launcher(gated, SpawnTask(id)), there, Finished, [TransferTask(id, Start)])
  {
    var there := g.(gate := g.gate.(transfers := g.gate.transfers[id := g.gate.transfers[id].(published := true)]));
    Here(there, Finished);
    hide Leads;
    OneFirst(there, Launcher(gated, Release), there, Finished, there, Finished, []);
    OneFirst(g, Launcher(gated, Publish(id)), there, Launcher(gated, Release), there, Finished, []);
    SpawnFirst(g, Launcher(gated, SpawnTask(id)), g, Launcher(gated, Publish(id)), TransferTask(id, Start), there, Finished);
  }

  lemma FromOpen(g: Shared, gated: bool)
    requires !g.shuttingDown
    ensures Leads(g, Launcher(gated, EnsureOpen),
                  g.(gate := g.gate.(next := g.gate.next + 1,
                                     transfers := g.gate.transfers[g.gate.next := Transfer(gated, Queued, true)])),
                  Finished, [TransferTask(g.gate.next, Start)])
  {
    var id := g.gate.next;
    var listed := g.(gate := g.gate.(next := id + 1, transfers := g.gate.transfers[id := Transfer(gated, Queued, false)]));
    var there := g.(gate := g.gate.(next := id + 1, transfers := g.gate.transfers[id := Transfer(gated, Queued, true)]));
    RegisteredPublishes(listed, gated, id);
    assert listed.gate.transfers[id := Transfer(gated, Queued, true)] == there.gate.transfers;
    hide Leads;
    var task := [TransferTask(id, Start)];
    OneFirst(g, Launcher(gated, Register), listed, Launcher(gated, SpawnTask(id)), there, Finished, task);
    OneFirst(g, Launcher(gated, FindSession), g, Launcher(gated, Register), there, Finished, task);
    OneFirst(g, Launcher(gated, EnsureOpen), g, Launcher(gated, FindSession), there, Finished, task);
  }

  /** A launch on an open runtime with its session there registers one queued transfer, spawns its task
      and publishes the handle. */
  lemma LaunchAlone(g: Shared, gated: bool)
    requires !g.shuttingDown && !g.gate.writer
    ensures Leads(g, Launcher(gated, if gated then GateWait else EnsureOpen),
                  g.(gate := g.gate.(next := g.gate.next + 1,
                                     transfers := g.gate.transfers[g.gate.next := Transfer(gated, Queued, true)])),
                  Finished, [TransferTask(g.gate.next, Start)])
  {
    FromOpen(g, gated);
    if gated {
      hide Leads;
      var task := [TransferTask(g.gate.next, Start)];
      var there := g.(gate := g.gate.(next := g.gate.next + 1,
                                      transfers := g.gate.transfers[g.gate.next := Transfer(true, Queued, true)]));
      OneFirst(g, Launcher(true, FlagCheck), g, Launcher(true, EnsureOpen), there, Finished, task);
      OneFirst(g, Launcher(true, GateWait), g, Launcher(true, FlagCheck), there, Finished, task);
    }
  }

  /** A sync start on an open runtime with no live job registers one. */
  lemma SyncStartAlone(g: Shared, p: nat)
    requires !g.shuttingDown && !g.table.locked
    ensures Leads(g, Starter(p, SyncOpen),
                  g.(table := g.table.(next := g.table.next + 1, jobs := g.table.jobs[p := g.table.next])), Finished, [])
  {
    var there := g.(table := g.table.(next := g.table.next + 1, jobs := g.table.jobs[p := g.table.next]));
    var locked := g.(table := g.table.(locked := true));
    Here(there, Finished);
    hide Leads;
    OneFirst(locked, Starter(p, Insert), there, Finished, there, Finished, []);
    OneFirst(locked, Starter(p, LiveCheck), locked, Starter(p, Insert), there, Finished, []);
    OneFirst(locked, Starter(p, SyncFlagCheck), locked, Starter(p, LiveCheck), there, Finished, []);
    OneFirst(g, Starter(p, SyncLock), locked, Starter(p, SyncFlagCheck), there, Finished, []);
    OneFirst(g, Starter(p, SyncOpen), g, Starter(p, SyncLock), there, Finished, []);
  }

  /** A sync stop cancels the profile's job and takes it out of the map. */
  lemma SyncStopAlone(g: Shared, p: nat)
    requires !g.shuttingDown && !g.table.locked && p in g.table.jobs
    ensures Leads(g, StopperOf(p, StopOpen),
                  g.(table := g.table.(jobs := g.table.jobs - {p}, cancelled := g.table.cancelled + {g.table.jobs[p]})),
                  Finished, [])
  {
    var job := g.table.jobs[p];
    var there := g.(table := g.table.(jobs := g.table.jobs - {p}, cancelled := g.table.cancelled + {job}));
    var cancelled := g.(table := g.table.(cancelled := g.table.cancelled + {job}));
    Here(there, Finished);
    hide Leads;
    OneFirst(cancelled, StopperOf(p, RemoveJob(job)), there, Finished, there, Finished, []);
    OneFirst(g, StopperOf(p, CancelJob(job)), cancelled, StopperOf(p, RemoveJob(job)), there, Finished, []);
    OneFirst(g, StopperOf(p, FindJob), g, StopperOf(p, CancelJob(job)), there, Finished, []);
    OneFirst(g, StopperOf(p, StopOpen), g, StopperOf(p, FindJob), there, Finished, []);
  }

  /** A first shutdown raises the flag, closes the gate and sets out to cancel every transfer; when it has,
      it sets out to cancel every job; and when it has, it empties the map and frees the gate. */
  lemma ShutdownAlone(g: Shared)
    requires !g.shuttingDown && !g.gate.writer && !g.table.locked
    ensures Leads(g, Stopper(SetFlag),
                  g.(shuttingDown := true,
                     gate := g.gate.(writer := true, closed := true, listing := Some(g.gate.transfers.Keys))),
                  Stopper(CancelTransfers(g.gate.transfers.Keys)), [])
    ensures Leads(g, Stopper(CancelTransfers({})),
                  g.(gate := g.gate.(swept := true), table := g.table.(listed := true)),
                  Stopper(CancelJobs(g.table.jobs.Values)), [])
    ensures Leads(g.(gate := g.gate.(writer := true)), Stopper(CancelJobs({})),
                  g.(table := g.table.(jobs := map[], cleared := true)), Finished, [])
  {
    var down := g.(shuttingDown := true);
    var shut := down.(gate := g.gate.(writer := true, closed := true));
    var listed := down.(gate := shut.gate.(listing := Some(g.gate.transfers.Keys)));
    var after := Stopper(CancelTransfers(g.gate.transfers.Keys));
    Here(listed, after);
    var swept := g.(gate := g.gate.(swept := true));
    var known := swept.(table := g.table.(listed := true));
    assert (set p | p in g.table.jobs :: g.table.jobs[p]) == g.table.jobs.Values;
    Here(known, Stopper(CancelJobs(g.table.jobs.Values)));
    var held := g.(gate := g.gate.(writer := true));
    var cleared := held.(table := g.table.(jobs := map[], cleared := true));
    var free := g.(table := g.table.(jobs := map[], cleared := true));
    Here(free, Finished);
    hide Leads;
    OneFirst(shut, Stopper(ListTransfers), listed, after, listed, after, []);
    OneFirst(down, Stopper(CloseGate), shut, Stopper(ListTransfers), listed, after, []);
    OneFirst(g, Stopper(SetFlag), down, Stopper(CloseGate), listed, after, []);
    var jobs := Stopper(CancelJobs(g.table.jobs.Values));
    OneFirst(swept, Stopper(ListJobs), known, jobs, known, jobs, []);
    OneFirst(g, Stopper(CancelTransfers({})), swept, Stopper(ListJobs), known, jobs, []);
    OneFirst(cleared, Stopper(Reopen), free, Finished, free, Finished, []);
    OneFirst(held, Stopper(ClearJobs), cleared, Stopper(Reopen), free, Finished, []);
    OneFirst(held, Stopper(CancelJobs({})), held, Stopper(ClearJobs), free, Finished, []);
  }

  /** Calls that are turned away once a shutdown has begun change nothing and keep neither gate nor lock:
      launches, sync starts, also one that has come as far as the job lock, sync stops and further
      shutdowns; and so is a sync start that meets a live job. */
  lemma RefusedAlone(g: Shared, gated: bool, p: nat)
    ensures g.shuttingDown ==>
              && Leads(g, Launcher(gated, EnsureOpen), g, Finished, [])
              && (!g.gate.writer ==> Leads(g, Launcher(true, GateWait), g, Finished, []))
              && Leads(g, Starter(p, SyncOpen), g, Finished, []) && Leads(g, StopperOf(p, StopOpen), g, Finished, [])
              && Leads(g, Stopper(SetFlag), g, Finished, [])
              && (!g.table.locked ==> Leads(g, Starter(p, SyncLock), g, Finished, []))
    ensures var locked := g.(table := g.table.(locked := true));
            p in g.table.jobs && !g.table.locked ==> Advance(locked, Starter(p, LiveCheck), true) == (g, Finished, [])
  {
    var locked := g.(table := g.table.(locked := true));
    assert !g.table.locked ==> locked.table.(locked := false) == g.table;
    if g.shuttingDown {
      Here(g, Finished);
      hide Leads;
      assert g.(shuttingDown := true) == g;
      OneFirst(g, Launcher(gated, EnsureOpen), g, Finished, g, Finished, []);
      OneFirst(g, Launcher(true, FlagCheck), g, Finished, g, Finished, []);
      OneFirst(g, Starter(p, SyncOpen), g, Finished, g, Finished, []);
      OneFirst(g, StopperOf(p, StopOpen), g, Finished, g, Finished, []);
      OneFirst(g, Stopper(SetFlag), g, Finished, g, Finished, []);
      if !g.gate.writer {
        OneFirst(g, Launcher(true, GateWait), g, Launcher(true, FlagCheck), g, Finished, []);
      }
      if !g.table.locked {
        OneFirst(locked, Starter(p, SyncFlagCheck), g, Finished, g, Finished, []);
        OneFirst(g, Starter(p, SyncLock), locked, Starter(p, SyncFlagCheck), g, Finished, []);
      }
    }
  }

  ghost predicate CancelsOne(q: Gate, q': Gate, id: nat) {
    && q'.transfers.Keys == q.transfers.Keys && q'.transfers - {id} == q.transfers - {id}
    && (id in q.transfers ==> q'.transfers[id] == q.transfers[id].(progress := Terminal))
  }

  /** What the single steps between do: each cancellation of shutdown's loops, and of `cancel_transfer`,
      makes that transfer terminal, or that job cancelled, and nothing else, and brings its loop one
      nearer to its end; and exactly terminal transfers can be evicted. */
  lemma OneAtATime(s: State, step: Step)
    requires Enabled(s, step) && !step.Act?
    ensures var q, q' := s.g.gate, Do(s, step).g.gate;
            match step {
              case Evict(id) => q'.transfers == q.transfers - {id}
              case ShutdownCancelJob(_, job) =>
                q' == q && Do(s, step).g.table.cancelled == s.g.table.cancelled + {job}
              case ShutdownCancel(_, id) => CancelsOne(q, q', id)
              case CancelOne(id) => CancelsOne(q, q', id)
              case Act(_, _) => true
            }
    ensures step.ShutdownCancel? ==>
              Do(s, step).actors[step.i] == Stopper(CancelTransfers(s.actors[step.i].shutdown.left - {step.id}))
    ensures step.ShutdownCancelJob? ==>
              Do(s, step).actors[step.i] == Stopper(CancelJobs(s.actors[step.i].shutdown.jobsLeft - {step.job}))
    ensures forall id :: Enabled(s, CancelOne(id))
    ensures forall id :: Enabled(s, Evict(id)) <==> id in s.g.gate.transfers && s.g.gate.transfers[id].progress == Terminal
  {
  }
}
