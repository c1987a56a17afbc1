/** One winner per session: `connect`, `disconnect`, `shutdown` and `mark_connection_lost`
    interleaved one shared access at a time (crates/handshaker-application/src/runtime.rs).

    A session is decided by compare-and-swap on its state: a closer takes it to `Disconnecting`
    and later publishes `Closed`, a loss report takes it to `Failed` and publishes
    `ConnectionLost`.  The state value is never set to `Closed`; that one exists in events only. */
module SessionLifecycle {
  datatype SessionState = Ready | Disconnecting | Closed | Failed

  datatype Event = ConnectionLost(id: nat) | StateChanged(id: nat, state: SessionState)

  /** `connect`, by program point. */
  datatype Connect =
    | Open                                    // before `ensure_open`
    | Handshake                               // core connection in progress
    | Lock(id: nat)
    | Check(id: nat)                          // registry lock held
    | Insert(id: nat)                         // registry lock held, not shutting down
    | Reopen(id: nat)                         // `ensure_open` of `get_session_snapshot`
    | Snapshot(id: nat)
    | Announce(id: nat, seen: SessionState)

  /** `disconnect`, then `close_session`; `shutdown` starts the latter directly. */
  datatype Close =
    | EnsureOpen(id: nat)
    | Remove(id: nat)
    | Load(id: nat)
    | Swap(id: nat, observed: SessionState)
    | Closing(id: nat)

  /** `mark_connection_lost`; the registry lock is held from `Get` to `LossSwap`. */
  datatype Loss =
    | LossLock(id: nat)
    | Get(id: nat)
    | LossLoad(id: nat)
    | LossSwap(id: nat, observed: SessionState)
    | Won(id: nat)
    | Reported(id: nat)

  /** `shutdown`: `Spawn` hands the drained sessions to close tasks, then waits for all of them. */
  datatype Shutdown = SetFlag | Take | Spawn(left: set<nat>)

  datatype Actor =
    | Connecting(connect: Connect)
    | Closer(close: Close)
    | Reporter(loss: Loss)
    | Stopper(shutdown: Shutdown)
    | Finished

  /** What the actors share.  `drained` and `taken` (whether `shutdown` emptied the registry, and of
      which sessions) are history; `log` counts what was published, the order is not modelled. */
  datatype Shared = Shared(
    shuttingDown: bool,
    hubOpen: bool,
    nextId: nat,
    locked: bool,
    registry: set<nat>,
    states: map<nat, SessionState>,
    drained: bool,
    taken: set<nat>,
    log: multiset<Event>)

  datatype State = State(g: Shared, actors: seq<Actor>)

  /** Actor `i` performs its next shared access, or a shutdown starts the close task of `id`. */
  datatype Step = Act(i: nat) | SpawnClose(i: nat, id: nat)

  predicate Initial(a: Actor) {
    match a
    case Connecting(c) => c.Open?
    case Closer(c) => c.EnsureOpen?
    case Reporter(l) => l.LossLock?
    case Stopper(d) => d.SetFlag?
    case Finished => true
  }

  predicate Init(s: State) {
    && s.g == Shared(false, true, s.g.nextId, false, {}, map[], false, {}, multiset{})
    && (forall i | 0 <= i < |s.actors| :: Initial(s.actors[i]))
  }

  predicate Past(c: Close) {
    c.Load? || c.Swap? || c.Closing?
  }

  /** The actor has removed this session from the registry and answers for closing it. */
  predicate Owns(a: Actor, id: nat) {
    match a
    case Closer(c) => Past(c) && c.id == id
    case Stopper(d) => d.Spawn? && id in d.left
    case _ => false
  }

  /** The shutdown's close tasks have all ended. */
  predicate CloseTasksDone(s: State) {
    forall j, id | 0 <= j < |s.actors| && id in s.g.taken :: !Owns(s.actors[j], id)
  }

  predicate CanAct(g: Shared, a: Actor) {
    match a
    case Connecting(c) => (c.Lock? || c.Snapshot?) ==> !g.locked
    case Closer(c) => (c.Remove? ==> !g.locked) && (c.Load? || c.Swap? ==> c.id in g.states)
    case Reporter(l) => (l.LossLock? ==> !g.locked) && (l.LossLoad? || l.LossSwap? ==> l.id in g.states)
    case Stopper(d) => (d.Take? ==> !g.locked) && (d.Spawn? ==> d.left == {})
    case Finished => false
  }

  /** Publishing to a closed hub is a no-op. */
  function Publish(g: Shared, e: Event): Shared {
    if g.hubOpen then g.(log := g.log + multiset{e}) else g
  }

  function DoConnect(g: Shared, c: Connect): (Shared, Actor) {
    match c
    case Open => (g, if g.shuttingDown then Finished else Connecting(Handshake))
    case Handshake => (g.(nextId := g.nextId + 1), Connecting(Lock(g.nextId)))
    case Lock(id) => (g.(locked := true), Connecting(Check(id)))
    case Check(id) => if g.shuttingDown then (g.(locked := false), Finished) else (g, Connecting(Insert(id)))
    case Insert(id) =>
      (g.(locked := false, registry := g.registry + {id}, states := g.states[id := Ready]), Connecting(Reopen(id)))
    case Reopen(id) => (g, if g.shuttingDown then Finished else Connecting(Snapshot(id)))
    case Snapshot(id) =>
      (g, if id in g.registry && id in g.states then Connecting(Announce(id, g.states[id])) else Finished)
    case Announce(id, seen) => (Publish(g, StateChanged(id, seen)), Finished)
  }

  function DoClose(g: Shared, c: Close): (Shared, Actor)
    requires CanAct(g, Closer(c))
  {
    match c
    case EnsureOpen(id) => (g, if g.shuttingDown then Finished else Closer(Remove(id)))
    case Remove(id) =>
      if id !in g.registry then (g, Finished) else (g.(registry := g.registry - {id}), Closer(Load(id)))
    case Load(id) => (g, Closer(Swap(id, g.states[id])))
    case Swap(id, observed) =>
      if observed == Closed || observed == Failed then (g, Finished)
      else if g.states[id] == observed then (g.(states := g.states[id := Disconnecting]), Closer(Closing(id)))
      else (g, Closer(Swap(id, g.states[id])))
    case Closing(id) => (Publish(g, StateChanged(id, Closed)), Finished)
  }

  function DoLoss(g: Shared, l: Loss): (Shared, Actor)
    requires CanAct(g, Reporter(l))
  {
    match l
    case LossLock(id) => (g.(locked := true), Reporter(Get(id)))
    case Get(id) => if id in g.registry then (g, Reporter(LossLoad(id))) else (g.(locked := false), Finished)
    case LossLoad(id) => (g, Reporter(LossSwap(id, g.states[id])))
    case LossSwap(id, observed) =>
      if observed != Ready then (g.(locked := false), Finished)
      else if g.states[id] == observed
      then (g.(locked := false, states := g.states[id := Failed]), Reporter(Won(id)))
      else (g, Reporter(LossSwap(id, g.states[id])))
    case Won(id) => (Publish(g, ConnectionLost(id)), Reporter(Reported(id)))
    case Reported(id) => (Publish(g, StateChanged(id, Failed)), Finished)
  }

  function DoShutdown(g: Shared, d: Shutdown): (Shared, Actor) {
    match d
    case SetFlag => (g.(shuttingDown := true), if g.shuttingDown then Finished else Stopper(Take))
    case Take => (g.(registry := {}, drained := true, taken := g.registry), Stopper(Spawn(g.registry)))
    case Spawn(_) => (g.(hubOpen := false), Finished)
  }

  function Advance(g: Shared, a: Actor): (Shared, Actor)
    requires CanAct(g, a)
  {
    match a
    case Connecting(c) => DoConnect(g, c)
    case Closer(c) => DoClose(g, c)
    case Reporter(l) => DoLoss(g, l)
    case Stopper(d) => DoShutdown(g, d)
  }

  predicate Spawning(a: Actor) {
    a.Stopper? && a.shutdown.Spawn?
  }

  predicate Enabled(s: State, step: Step) {
    match step
    case Act(i) => i < |s.actors| && CanAct(s.g, s.actors[i]) && (Spawning(s.actors[i]) ==> CloseTasksDone(s))
    case SpawnClose(i, id) => i < |s.actors| && Spawning(s.actors[i]) && id in s.actors[i].shutdown.left
  }

  function Do(s: State, step: Step): State
    requires Enabled(s, step)
  {
    match step
    case Act(i) =>
      var (g, a) := Advance(s.g, s.actors[i]);
      State(g, s.actors[i := a])
    case SpawnClose(i, id) =>
      var left := s.actors[i].shutdown.left - {id};
      State(s.g, s.actors[i := Stopper(Spawn(left))] + [Closer(Load(id))])
  }

  predicate Legal(s: State, trace: seq<Step>)
    decreases |trace|
  {
    trace == [] || (Enabled(s, trace[0]) && Legal(Do(s, trace[0]), trace[1..]))
  }

  function Final(s: State, trace: seq<Step>): State
    requires Legal(s, trace)
    decreases |trace|
  {
    if trace == [] then s else Final(Do(s, trace[0]), trace[1..])
  }

  function Losses(g: Shared, id: nat): nat {
    g.log[ConnectionLost(id)]
  }

  function Closes(g: Shared, id: nat): nat {
    g.log[StateChanged(id, Closed)]
  }

  // ---- the invariant ----

  predicate HoldsLock(a: Actor) {
    match a
    case Connecting(c) => c.Check? || c.Insert?
    case Reporter(l) => l.Get? || l.LossLoad? || l.LossSwap?
    case _ => false
  }

  predicate PastFlag(a: Actor) {
    a.Stopper? && !a.shutdown.SetFlag?
  }

  /** The connect has allocated its id and not inserted its session yet. */
  predicate Allocated(c: Connect) {
    c.Lock? || c.Check? || c.Insert?
  }

  /** What `a` answers for, `b` does not. */
  predicate ApartFrom(a: Actor, b: Actor) {
    match a
    case Connecting(c) => Allocated(c) && b.Connecting? && Allocated(b.connect) ==> c.id != b.connect.id
    case Closer(c) => Past(c) ==> !Owns(b, c.id)
    case Reporter(l) => l.Won? && b.Reporter? && b.loss.Won? ==> l.id != b.loss.id
    case _ => true
  }

  predicate Apart(a: Actor, b: Actor) {
    && ApartFrom(a, b) && ApartFrom(b, a)
    && !(PastFlag(a) && PastFlag(b))
    && !(HoldsLock(a) && HoldsLock(b))
  }

  ghost predicate OwnedOk(g: Shared, id: nat) {
    id !in g.registry && id in g.states && Closes(g, id) == 0
  }

  ghost predicate ActorInv(g: Shared, a: Actor) {
    && (HoldsLock(a) ==> g.locked)
    && match a {
         case Connecting(c) =>
           && (Allocated(c) ==> c.id < g.nextId && c.id !in g.states)
           && (c.Insert? ==> !g.drained)
           && (c.Announce? ==> c.seen != Closed)
         case Closer(c) =>
           && (Past(c) ==> OwnedOk(g, c.id))
           && (c.Swap? ==> c.observed != Closed && (c.observed == Failed ==> g.states[c.id] == Failed))
           && (c.Closing? ==> g.states[c.id] == Disconnecting)
         case Reporter(l) =>
           && (l.LossLoad? || l.LossSwap? ==> l.id in g.registry)
           && (l.Won? ==> Losses(g, l.id) == 0 && l.id in g.states && g.states[l.id] == Failed)
         case Stopper(d) =>
           && (d.Take? ==> g.shuttingDown && !g.drained)
           && (d.Spawn? ==> g.drained && g.hubOpen && forall id | id in d.left :: id in g.taken && OwnedOk(g, id))
         case Finished => true
       }
  }

  /** At most one verdict per session, and it agrees with the state. */
  ghost predicate LogOk(g: Shared, id: nat) {
    && Losses(g, id) <= 1 && Closes(g, id) <= 1
    && (Losses(g, id) == 1 ==> id in g.states && g.states[id] == Failed)
    && (Closes(g, id) == 1 ==> id in g.states && g.states[id] == Disconnecting)
    && (id in g.registry ==> Closes(g, id) == 0)
  }

  ghost predicate SessionsInv(g: Shared) {
    && (g.drained ==> g.shuttingDown && g.registry == {})
    && (!g.drained ==> g.taken == {} && g.hubOpen)
    && (forall id | id in g.registry || id in g.taken :: id in g.states)
    && (forall id | id in g.states :: id < g.nextId && g.states[id] != Closed)
    && (forall id | id in g.registry :: g.states[id] != Disconnecting)
  }

  ghost predicate SharedInv(g: Shared) {
    SessionsInv(g) && forall id: nat :: LogOk(g, id)
  }

  /** A drained session was found failed or has its `Closed` event. */
  predicate Settled(g: Shared, id: nat) {
    (id in g.states && g.states[id] == Failed) || Closes(g, id) == 1
  }

  /** While the hub is open, a drained session may also still have somebody closing it. */
  ghost predicate Accounted(s: State, id: nat) {
    Settled(s.g, id) || (s.g.hubOpen && exists j :: 0 <= j < |s.actors| && Owns(s.actors[j], id))
  }

  ghost predicate Inv(s: State) {
    && SharedInv(s.g)
    && (forall i | 0 <= i < |s.actors| :: ActorInv(s.g, s.actors[i]))
    && (forall i, j | 0 <= i < j < |s.actors| :: Apart(s.actors[i], s.actors[j]))
    && (forall id | id in s.g.taken :: Accounted(s, id))
  }

  lemma StaysApart(g: Shared, a: Actor, b: Actor)
    requires CanAct(g, a) && SharedInv(g) && ActorInv(g, a) && ActorInv(g, b) && Apart(a, b)
    ensures Apart(Advance(g, a).1, b)
  {
  }

  lemma ConnectKeepsOwn(g: Shared, c: Connect)
    requires CanAct(g, Connecting(c)) && SessionsInv(g) && ActorInv(g, Connecting(c))
    ensures ActorInv(DoConnect(g, c).0, DoConnect(g, c).1)
  {
  }

  lemma CloseKeepsOwn(g: Shared, c: Close)
    requires CanAct(g, Closer(c)) && SessionsInv(g) && LogOk(g, c.id) && ActorInv(g, Closer(c))
    ensures ActorInv(DoClose(g, c).0, DoClose(g, c).1)
  {
  }

  lemma LossKeepsOwn(g: Shared, l: Loss)
    requires CanAct(g, Reporter(l)) && SessionsInv(g) && LogOk(g, l.id) && ActorInv(g, Reporter(l))
    ensures ActorInv(DoLoss(g, l).0, DoLoss(g, l).1)
  {
  }

  lemma ShutdownKeepsOwn(g: Shared, d: Shutdown)
    requires CanAct(g, Stopper(d)) && SharedInv(g) && ActorInv(g, Stopper(d))
    ensures ActorInv(DoShutdown(g, d).0, DoShutdown(g, d).1)
  {
    assert forall id | id in g.registry :: LogOk(g, id);
  }

  lemma OwnInvKept(g: Shared, a: Actor)
    requires CanAct(g, a) && SharedInv(g) && ActorInv(g, a)
    ensures ActorInv(Advance(g, a).0, Advance(g, a).1)
  {
    hide ActorInv, SessionsInv, LogOk, DoConnect, DoClose, DoLoss, DoShutdown;
    match a {
      case Connecting(c) => ConnectKeepsOwn(g, c);
      case Closer(c) => CloseKeepsOwn(g, c);
      case Reporter(l) => LossKeepsOwn(g, l);
      case Stopper(d) => ShutdownKeepsOwn(g, d);
    }
  }

  lemma ConnectKeepsOther(g: Shared, c: Connect, b: Actor)
    requires CanAct(g, Connecting(c)) && ActorInv(g, Connecting(c)) && ActorInv(g, b) && Apart(Connecting(c), b)
    ensures ActorInv(DoConnect(g, c).0, b)
  {
  }

  lemma CloseKeepsOther(g: Shared, c: Close, b: Actor)
    requires CanAct(g, Closer(c)) && ActorInv(g, Closer(c)) && ActorInv(g, b) && Apart(Closer(c), b)
    ensures ActorInv(DoClose(g, c).0, b)
  {
  }

  lemma LossKeepsOther(g: Shared, l: Loss, b: Actor)
    requires CanAct(g, Reporter(l)) && ActorInv(g, Reporter(l)) && ActorInv(g, b) && Apart(Reporter(l), b)
    ensures ActorInv(DoLoss(g, l).0, b)
  {
    match l {
      case LossSwap(_, _) =>
        hide DoLoss, ActorInv, Apart;
        LossSwapKeepsOther(g, l, b);
      case _ =>
    }
  }

  lemma LossSwapKeepsOther(g: Shared, l: Loss, b: Actor)
    requires l.LossSwap? && CanAct(g, Reporter(l))
    requires ActorInv(g, Reporter(l)) && ActorInv(g, b) && Apart(Reporter(l), b)
    ensures ActorInv(DoLoss(g, l).0, b)
  {
  }

  lemma ShutdownKeepsOther(g: Shared, d: Shutdown, b: Actor)
    requires CanAct(g, Stopper(d)) && ActorInv(g, Stopper(d)) && ActorInv(g, b) && Apart(Stopper(d), b)
    ensures ActorInv(DoShutdown(g, d).0, b)
  {
  }

  lemma OtherInvKept(g: Shared, a: Actor, b: Actor)
    requires CanAct(g, a) && ActorInv(g, a) && ActorInv(g, b) && Apart(a, b)
    ensures ActorInv(Advance(g, a).0, b)
  {
    hide ActorInv, Apart, DoConnect, DoClose, DoLoss, DoShutdown;
    match a {
      case Connecting(c) => ConnectKeepsOther(g, c, b);
      case Closer(c) => CloseKeepsOther(g, c, b);
      case Reporter(l) => LossKeepsOther(g, l, b);
      case Stopper(d) => ShutdownKeepsOther(g, d, b);
    }
  }

  lemma LossKeepsLog(g: Shared, l: Loss, id: nat)
    requires CanAct(g, Reporter(l)) && ActorInv(g, Reporter(l)) && LogOk(g, id)
    ensures LogOk(DoLoss(g, l).0, id)
  {
  }

  lemma CloseKeepsLog(g: Shared, c: Close, id: nat)
    requires CanAct(g, Closer(c)) && ActorInv(g, Closer(c)) && LogOk(g, id)
    ensures LogOk(DoClose(g, c).0, id)
  {
  }

  lemma LogOkKept(g: Shared, a: Actor, id: nat)
    requires CanAct(g, a) && ActorInv(g, a) && LogOk(g, id)
    ensures LogOk(Advance(g, a).0, id)
  {
    match a {
      case Closer(c) =>
        hide DoClose, ActorInv, LogOk;
        CloseKeepsLog(g, c, id);
      case Reporter(l) =>
        hide DoLoss, ActorInv, LogOk;
        LossKeepsLog(g, l, id);
      case Connecting(_) =>
      case Stopper(_) =>
    }
  }

  lemma ConnectKeepsSessions(g: Shared, c: Connect)
    requires CanAct(g, Connecting(c)) && SessionsInv(g) && ActorInv(g, Connecting(c))
    ensures SessionsInv(DoConnect(g, c).0)
  {
  }

  lemma CloseKeepsSessions(g: Shared, c: Close)
    requires CanAct(g, Closer(c)) && SessionsInv(g) && ActorInv(g, Closer(c))
    ensures SessionsInv(DoClose(g, c).0)
  {
  }

  lemma LossKeepsSessions(g: Shared, l: Loss)
    requires CanAct(g, Reporter(l)) && SessionsInv(g) && ActorInv(g, Reporter(l))
    ensures SessionsInv(DoLoss(g, l).0)
  {
  }

  lemma ShutdownKeepsSessions(g: Shared, d: Shutdown)
    requires CanAct(g, Stopper(d)) && SessionsInv(g) && ActorInv(g, Stopper(d))
    ensures SessionsInv(DoShutdown(g, d).0)
  {
  }

  lemma SessionsInvKept(g: Shared, a: Actor)
    requires CanAct(g, a) && SessionsInv(g) && ActorInv(g, a)
    ensures SessionsInv(Advance(g, a).0)
  {
    hide SessionsInv, ActorInv, DoConnect, DoClose, DoLoss, DoShutdown;
    match a {
      case Connecting(c) => ConnectKeepsSessions(g, c);
      case Closer(c) => CloseKeepsSessions(g, c);
      case Reporter(l) => LossKeepsSessions(g, l);
      case Stopper(d) => ShutdownKeepsSessions(g, d);
    }
  }

  lemma SharedInvKept(g: Shared, a: Actor)
    requires CanAct(g, a) && SharedInv(g) && ActorInv(g, a)
    ensures SharedInv(Advance(g, a).0)
  {
    SessionsInvKept(g, a);
    forall id: nat ensures LogOk(Advance(g, a).0, id) {
      LogOkKept(g, a, id);
    }
  }

  lemma CloseKeepsVerdict(g: Shared, c: Close, id: nat)
    requires CanAct(g, Closer(c)) && ActorInv(g, Closer(c)) && id in g.states
    ensures var g' := DoClose(g, c).0;
            && id in g'.states
            && (g.states[id] != Ready ==> g'.states[id] == g.states[id])
            && Closes(g', id) >= Closes(g, id)
  {
  }

  lemma LossKeepsVerdict(g: Shared, l: Loss, id: nat)
    requires CanAct(g, Reporter(l)) && ActorInv(g, Reporter(l)) && id in g.states
    ensures var g' := DoLoss(g, l).0;
            && id in g'.states
            && (g.states[id] != Ready ==> g'.states[id] == g.states[id])
            && Closes(g', id) >= Closes(g, id)
  {
    match l {
      case LossSwap(_, _) =>
      case Won(_) =>
      case _ => assert DoLoss(g, l).0.states == g.states && DoLoss(g, l).0.log[StateChanged(id, Closed)] >= Closes(g, id);
    }
  }

  /** A decided state never changes again, and a decided session never becomes unsettled. */
  lemma VerdictKept(g: Shared, a: Actor, id: nat)
    requires CanAct(g, a) && ActorInv(g, a) && LogOk(g, id) && id in g.states
    ensures var g' := Advance(g, a).0;
            && id in g'.states
            && (g.states[id] == Failed ==> g'.states[id] == Failed)
            && (g.states[id] == Disconnecting ==> g'.states[id] == Disconnecting)
            && (Closes(g, id) == 1 ==> Closes(g', id) == 1)
            && (g.states[id] != Ready ==> g'.states[id] == g.states[id])
  {
    LogOkKept(g, a, id);
    hide DoClose, DoLoss, LogOk;
    match a {
      case Closer(c) =>
        hide ActorInv;
        CloseKeepsVerdict(g, c, id);
      case Reporter(l) =>
        hide ActorInv;
        LossKeepsVerdict(g, l, id);
      case Connecting(_) =>
      case Stopper(_) =>
    }
    assert Closes(Advance(g, a).0, id) <= 1 by {
      assert LogOk(Advance(g, a).0, id);
      LogIsOnce(Advance(g, a).0, id);
    }
  }

  lemma LogIsOnce(g: Shared, id: nat)
    requires LogOk(g, id)
    ensures Losses(g, id) <= 1 && Closes(g, id) <= 1
  {
  }

  /** Whoever answers for a session lets go of it only when it is settled. */
  lemma CloserSettles(g: Shared, a: Actor, id: nat)
    requires CanAct(g, a) && ActorInv(g, a) && LogOk(g, id) && g.hubOpen
    requires Owns(a, id) && !Owns(Advance(g, a).1, id)
    ensures Settled(Advance(g, a).0, id)
  {
    assert a.Closer?;
  }

  lemma HubAndTaken(g: Shared, a: Actor)
    requires CanAct(g, a)
    ensures var (g', a') := Advance(g, a);
            && (Spawning(a) || g'.hubOpen == g.hubOpen)
            && (if a == Stopper(Take) then g'.taken == g.registry && a' == Stopper(Spawn(g.registry))
                else g'.taken == g.taken)
  {
  }

  lemma ActKeepsAccounts(s: State, i: nat, id: nat)
    requires Inv(s) && Enabled(s, Act(i)) && id in Do(s, Act(i)).g.taken
    ensures Accounted(Do(s, Act(i)), id)
  {
    var a, s' := s.actors[i], Do(s, Act(i));
    assert ActorInv(s.g, a);
    assert a == Stopper(Take) ==> s.g.hubOpen;
    hide DoConnect, DoClose, DoLoss, DoShutdown, ActorInv;
    HubAndTaken(s.g, a);
    if a == Stopper(Take) {
      assert Owns(s'.actors[i], id);
    } else {
      assert Accounted(s, id) && LogOk(s.g, id);
      if Settled(s.g, id) {
        VerdictKept(s.g, a, id);
      } else {
        var j :| 0 <= j < |s.actors| && Owns(s.actors[j], id);
        if j != i {
          assert Owns(s'.actors[j], id);
        } else if !Owns(s'.actors[i], id) {
          CloserSettles(s.g, a, id);
        }
      }
    }
  }

  lemma ActKeepsInv(s: State, i: nat)
    requires Inv(s) && Enabled(s, Act(i))
    ensures Inv(Do(s, Act(i)))
  {
    var a, s' := s.actors[i], Do(s, Act(i));
    SharedInvKept(s.g, a);
    OwnInvKept(s.g, a);
    forall j | 0 <= j < |s.actors| && j != i
      ensures ActorInv(s'.g, s'.actors[j]) && Apart(s'.actors[i], s'.actors[j]) && Apart(s'.actors[j], s'.actors[i])
    {
      assert Apart(a, s.actors[j]) by {
        assert if i < j then Apart(s.actors[i], s.actors[j]) else Apart(s.actors[j], s.actors[i]);
      }
      OtherInvKept(s.g, a, s.actors[j]);
      StaysApart(s.g, a, s.actors[j]);
    }
    forall id | id in s'.g.taken ensures Accounted(s', id) {
      ActKeepsAccounts(s, i, id);
    }
  }

  lemma SpawnKeepsInv(s: State, i: nat, id: nat)
    requires Inv(s) && Enabled(s, SpawnClose(i, id))
    ensures Inv(Do(s, SpawnClose(i, id)))
  {
    var s' := Do(s, SpawnClose(i, id));
    var n := |s.actors|;
    assert ActorInv(s.g, s.actors[i]) && OwnedOk(s.g, id);
    assert Owns(s'.actors[n], id) && Apart(s'.actors[i], s'.actors[n]);
    forall j | 0 <= j < n && j != i
      ensures Apart(s'.actors[j], s'.actors[n]) && Apart(s'.actors[j], s'.actors[i]) && Apart(s'.actors[i], s'.actors[j])
    {
      assert if i < j then Apart(s.actors[i], s.actors[j]) else Apart(s.actors[j], s.actors[i]);
      assert Owns(s.actors[i], id) && !Owns(s.actors[j], id);
    }
    forall x | x in s'.g.taken ensures Accounted(s', x) {
      assert Accounted(s, x);
      if !Settled(s.g, x) {
        var j :| 0 <= j < n && Owns(s.actors[j], x);
        assert Owns(s'.actors[j], x) || x == id;
      }
    }
  }

  lemma {:induction false} RunKeepsInv(s: State, trace: seq<Step>)
    requires Inv(s) && Legal(s, trace)
    ensures Inv(Final(s, trace))
    decreases |trace|
  {
    if trace != [] {
      match trace[0] {
        case Act(i) => ActKeepsInv(s, i);
        case SpawnClose(i, id) => SpawnKeepsInv(s, i, id);
      }
      RunKeepsInv(Do(s, trace[0]), trace[1..]);
    }
  }

  // ---- the results ----

  /** One winner per session in every reachable state: at most one `ConnectionLost`, at most one
      `Closed`, never both, and the winner matches the session state. */
  lemma OneVerdict(s: State, trace: seq<Step>, id: nat)
    requires Init(s) && Legal(s, trace)
    ensures var g := Final(s, trace).g;
            && Losses(g, id) + Closes(g, id) <= 1
            && (Losses(g, id) == 1 ==> id in g.states && g.states[id] == Failed)
            && (Closes(g, id) == 1 ==> id in g.states && g.states[id] == Disconnecting)
  {
    RunKeepsInv(s, trace);
    assert LogOk(Final(s, trace).g, id);
  }

  lemma {:induction false} RunKeepsVerdict(s: State, trace: seq<Step>, id: nat)
    requires Inv(s) && Legal(s, trace) && id in s.g.states && s.g.states[id] != Ready
    ensures id in Final(s, trace).g.states && Final(s, trace).g.states[id] == s.g.states[id]
    decreases |trace|
  {
    if trace != [] {
      match trace[0] {
        case Act(i) =>
          assert LogOk(s.g, id);
          VerdictKept(s.g, s.actors[i], id);
          ActKeepsInv(s, i);
        case SpawnClose(i, id) => SpawnKeepsInv(s, i, id);
      }
      RunKeepsVerdict(Do(s, trace[0]), trace[1..], id);
    }
  }

  /** `Failed` is never left and `Disconnecting` never turns into `Failed`, from any reachable state
      along any continuation. */
  lemma VerdictIsFinal(s: State, before: seq<Step>, after: seq<Step>, id: nat)
    requires Init(s) && Legal(s, before) && Legal(Final(s, before), after)
    requires id in Final(s, before).g.states && Final(s, before).g.states[id] != Ready
    ensures var m := Final(s, before);
            && id in Final(m, after).g.states
            && Final(m, after).g.states[id] == m.g.states[id]
  {
    RunKeepsInv(s, before);
    RunKeepsVerdict(Final(s, before), after, id);
  }

  /** When the hub is closed, every session the shutdown took was already failed or has had its
      `Closed` event published. */
  lemma ShutdownSettles(s: State, trace: seq<Step>)
    requires Init(s) && Legal(s, trace)
    ensures var g := Final(s, trace).g;
            !g.hubOpen ==> g.drained && forall id | id in g.taken :: Settled(g, id)
  {
    RunKeepsInv(s, trace);
    var f := Final(s, trace);
    assert forall id | id in f.g.taken :: Accounted(f, id);
  }

  lemma {:induction false} RunStaysDrained(s: State, trace: seq<Step>)
    requires Inv(s) && Legal(s, trace) && s.g.drained
    ensures Final(s, trace).g.drained && Final(s, trace).g.registry == {}
    decreases |trace|
  {
    if trace != [] {
      match trace[0] {
        case Act(i) => ActKeepsInv(s, i);
        case SpawnClose(i, id) => SpawnKeepsInv(s, i, id);
      }
      RunStaysDrained(Do(s, trace[0]), trace[1..]);
    }
  }

  /** Once a shutdown has drained the sessions, no interleaving ever registers one again. */
  lemma DrainedForGood(s: State, before: seq<Step>, after: seq<Step>)
    requires Init(s) && Legal(s, before) && Legal(Final(s, before), after)
    requires Final(s, before).g.drained
    ensures Final(Final(s, before), after).g.registry == {}
  {
    RunKeepsInv(s, before);
    RunStaysDrained(Final(s, before), after);
  }

  // ---- and one verdict at least ----

  ghost predicate Somebody(s: State, a: Actor) {
    exists j :: 0 <= j < |s.actors| && s.actors[j] == a
  }

  /** The loss of a failed session is published or about to be, first the one event, then the other. */
  ghost predicate LossTold(s: State, id: nat) {
    id in s.g.states && s.g.states[id] == Failed ==>
      if Losses(s.g, id) == 0 then Somebody(s, Reporter(Won(id)))
      else s.g.log[StateChanged(id, Failed)] >= 1 || Somebody(s, Reporter(Reported(id)))
  }

  /** A session that has left the registry is settled or has somebody answering for it. */
  ghost predicate CloseTold(s: State, id: nat) {
    id in s.g.states && id !in s.g.registry ==>
      Settled(s.g, id) || exists j :: 0 <= j < |s.actors| && Owns(s.actors[j], id)
  }

  ghost predicate Told(s: State) {
    s.g.hubOpen ==> forall id: nat :: LossTold(s, id) && CloseTold(s, id)
  }

  /** How a session fails and how it leaves the registry, with what the actor does next. */
  lemma FailsOrLeaves(g: Shared, a: Actor, id: nat)
    requires CanAct(g, a) && ActorInv(g, a) && SessionsInv(g) && id in Advance(g, a).0.states
    ensures var (g', a') := Advance(g, a);
            && (g'.hubOpen ==> g.hubOpen)
            && (g'.states[id] == Failed && !(id in g.states && g.states[id] == Failed) ==> a' == Reporter(Won(id)))
            && (id !in g'.registry && !(id in g.states && id !in g.registry) ==> Owns(a', id))
  {
  }

  /** What publishing does to the log. */
  lemma LossIsPublished(g: Shared, a: Actor, id: nat)
    requires CanAct(g, a) && ActorInv(g, a) && Advance(g, a).0.hubOpen
    ensures var (g', a') := Advance(g, a);
            && Losses(g', id) == Losses(g, id) + (if a == Reporter(Won(id)) then 1 else 0)
            && g'.log[StateChanged(id, Failed)] >=
                 g.log[StateChanged(id, Failed)] + (if a == Reporter(Reported(id)) then 1 else 0)
            && (a == Reporter(Won(id)) ==> a' == Reporter(Reported(id)))
  {
  }

  lemma ActTellsLoss(s: State, i: nat, id: nat)
    requires Inv(s) && Told(s) && Enabled(s, Act(i)) && Do(s, Act(i)).g.hubOpen
    ensures LossTold(Do(s, Act(i)), id)
  {
    var a, s' := s.actors[i], Do(s, Act(i));
    assert ActorInv(s.g, a);
    hide DoConnect, DoClose, DoLoss, DoShutdown, ActorInv;
    if id in s'.g.states && s'.g.states[id] == Failed {
      FailsOrLeaves(s.g, a, id);
      LossIsPublished(s.g, a, id);
      if id in s.g.states && s.g.states[id] == Failed {
        assert LossTold(s, id);
        var b := if Losses(s.g, id) == 0 then Reporter(Won(id)) else Reporter(Reported(id));
        if Somebody(s, b) {
          var j :| 0 <= j < |s.actors| && s.actors[j] == b;
          assert j != i ==> s'.actors[j] == b;
          assert j == i && Losses(s.g, id) == 0 ==> s'.actors[i] == Reporter(Reported(id));
        }
        assert a == Reporter(Won(id)) ==> s'.actors[i] == Reporter(Reported(id));
      } else {
        assert LogOk(s.g, id);
        assert s'.actors[i] == Reporter(Won(id));
      }
    }
  }

  lemma ActTellsClose(s: State, i: nat, id: nat)
    requires Inv(s) && Told(s) && Enabled(s, Act(i)) && Do(s, Act(i)).g.hubOpen
    ensures CloseTold(Do(s, Act(i)), id)
  {
    var a, s' := s.actors[i], Do(s, Act(i));
    assert ActorInv(s.g, a) && LogOk(s.g, id);
    hide DoConnect, DoClose, DoLoss, DoShutdown, ActorInv;
    if id in s'.g.states && id !in s'.g.registry {
      FailsOrLeaves(s.g, a, id);
      if id in s.g.states && id !in s.g.registry {
        assert CloseTold(s, id);
        VerdictKept(s.g, a, id);
        if !Settled(s.g, id) {
          var j :| 0 <= j < |s.actors| && Owns(s.actors[j], id);
          assert j != i ==> Owns(s'.actors[j], id);
          if j == i && !Owns(s'.actors[i], id) {
            CloserSettles(s.g, a, id);
          }
        }
      } else {
        assert Owns(s'.actors[i], id);
      }
    }
  }

  lemma SpawnTells(s: State, i: nat, x: nat, id: nat)
    requires Inv(s) && Told(s) && Enabled(s, SpawnClose(i, x)) && s.g.hubOpen
    ensures LossTold(Do(s, SpawnClose(i, x)), id) && CloseTold(Do(s, SpawnClose(i, x)), id)
  {
    var s', n := Do(s, SpawnClose(i, x)), |s.actors|;
    assert LossTold(s, id) && CloseTold(s, id);
    assert forall j | 0 <= j < n && s.actors[j].Reporter? :: s'.actors[j] == s.actors[j];
    if j :| 0 <= j < n && Owns(s.actors[j], id) {
      assert Owns(s'.actors[j], id) || Owns(s'.actors[n], id);
    }
  }

  lemma {:induction false} RunTells(s: State, trace: seq<Step>)
    requires Inv(s) && Told(s) && Legal(s, trace)
    ensures Inv(Final(s, trace)) && Told(Final(s, trace))
    decreases |trace|
  {
    if trace != [] {
      var s' := Do(s, trace[0]);
      match trace[0] {
        case Act(i) =>
          ActKeepsInv(s, i);
          if s'.g.hubOpen {
            forall id: nat ensures LossTold(s', id) && CloseTold(s', id) {
              ActTellsLoss(s, i, id);
              ActTellsClose(s, i, id);
            }
          }
        case SpawnClose(i, x) =>
          SpawnKeepsInv(s, i, x);
          if s'.g.hubOpen {
            forall id: nat ensures LossTold(s', id) && CloseTold(s', id) {
              SpawnTells(s, i, x, id);
            }
          }
      }
      RunTells(s', trace[1..]);
    }
  }

  /** Nobody's verdict is lost.  In every reachable state with the hub open: a failed session has
      exactly one `ConnectionLost`, or a report about to publish it, and then a `Failed` event, or the
      same report about to publish that; and a session that has left the registry, by a disconnect or
      by shutdown, is failed, or has exactly one `Closed`, or has somebody answering for it. */
  lemma EveryVerdictIsTold(s: State, trace: seq<Step>, id: nat)
    requires Init(s) && Legal(s, trace) && Final(s, trace).g.hubOpen && id in Final(s, trace).g.states
    ensures var f := Final(s, trace);
            && (f.g.states[id] == Failed ==>
                  || (Losses(f.g, id) == 0 && Somebody(f, Reporter(Won(id))))
                  || (Losses(f.g, id) == 1
                      && (f.g.log[StateChanged(id, Failed)] >= 1 || Somebody(f, Reporter(Reported(id))))))
            && (id !in f.g.registry ==>
                  || f.g.states[id] == Failed || Closes(f.g, id) == 1
                  || exists j :: 0 <= j < |f.actors| && Owns(f.actors[j], id))
  {
    RunTells(s, trace);
    var f := Final(s, trace);
    assert LossTold(f, id) && CloseTold(f, id) && LogOk(f.g, id);
  }

  // ---- each call when nobody interferes ----

  /** The actor's next `n` accesses are possible and end like this. */
  predicate LeadsIn(n: nat, g: Shared, a: Actor, g': Shared, a': Actor)
    decreases n
  {
    if n == 0 then (g, a) == (g', a')
    else CanAct(g, a) && LeadsIn(n - 1, Advance(g, a).0, Advance(g, a).1, g', a')
  }

  ghost predicate Leads(g: Shared, a: Actor, g': Shared, a': Actor) {
    exists n: nat :: LeadsIn(n, g, a, g', a')
  }

  lemma Here(g: Shared, a: Actor)
    ensures Leads(g, a, g, a)
  {
    assert LeadsIn(0, g, a, g, a);
  }

  lemma {:induction false} OneMoreIn(n: nat, g: Shared, a: Actor, g1: Shared, a1: Actor)
    requires LeadsIn(n, g, a, g1, a1) && CanAct(g1, a1)
    ensures LeadsIn(n + 1, g, a, Advance(g1, a1).0, Advance(g1, a1).1)
    decreases n
  {
    if n == 0 {
      assert LeadsIn(0, Advance(g1, a1).0, Advance(g1, a1).1, Advance(g1, a1).0, Advance(g1, a1).1);
    } else {
      OneMoreIn(n - 1, Advance(g, a).0, Advance(g, a).1, g1, a1);
    }
  }

  lemma OneMore(g: Shared, a: Actor, g1: Shared, a1: Actor, g2: Shared, a2: Actor)
    requires Leads(g, a, g1, a1) && CanAct(g1, a1) && Advance(g1, a1) == (g2, a2)
    ensures Leads(g, a, g2, a2)
  {
    var n: nat :| LeadsIn(n, g, a, g1, a1);
    OneMoreIn(n, g, a, g1, a1);
  }

  lemma {:induction false} LeadsInIsLegal(s: State, i: nat, n: nat, g': Shared, a': Actor) returns (trace: seq<Step>)
    requires i < |s.actors| && !s.actors[i].Stopper? && LeadsIn(n, s.g, s.actors[i], g', a')
    ensures Legal(s, trace) && Final(s, trace) == State(g', s.actors[i := a'])
    decreases n
  {
    trace := [];
    if n > 0 {
      trace := LeadsInIsLegal(Do(s, Act(i)), i, n - 1, g', a');
      assert ([Act(i)] + trace)[1..] == trace;
      trace := [Act(i)] + trace;
    }
  }

  /** Such accesses are a run of the whole system. */
  lemma LeadsIsLegal(s: State, i: nat, g': Shared, a': Actor) returns (trace: seq<Step>)
    requires i < |s.actors| && !s.actors[i].Stopper? && Leads(s.g, s.actors[i], g', a')
    ensures Legal(s, trace) && Final(s, trace) == State(g', s.actors[i := a'])
  {
    var n: nat :| LeadsIn(n, s.g, s.actors[i], g', a');
    trace := LeadsInIsLegal(s, i, n, g', a');
  }

  /** A connect to an open runtime registers one new session, ready, and announces it. */
  lemma ConnectAlone(g: Shared)
    requires !g.locked && !g.shuttingDown && g.hubOpen
    ensures Leads(g, Connecting(Open),
                  g.(nextId := g.nextId + 1, registry := g.registry + {g.nextId},
                     states := g.states[g.nextId := Ready], log := g.log + multiset{StateChanged(g.nextId, Ready)}),
                  Finished)
  {
    var a, id := Connecting(Open), g.nextId;
    hide Leads, DoClose, DoLoss, DoShutdown;
    var g1 := g.(nextId := id + 1);
    var g2 := g1.(locked := true);
    var g3 := g1.(registry := g.registry + {id}, states := g.states[id := Ready]);
    Here(g, a);
    OneMore(g, a, g, a, g, Connecting(Handshake));
    OneMore(g, a, g, Connecting(Handshake), g1, Connecting(Lock(id)));
    OneMore(g, a, g1, Connecting(Lock(id)), g2, Connecting(Check(id)));
    OneMore(g, a, g2, Connecting(Check(id)), g2, Connecting(Insert(id)));
    OneMore(g, a, g2, Connecting(Insert(id)), g3, Connecting(Reopen(id)));
    OneMore(g, a, g3, Connecting(Reopen(id)), g3, Connecting(Snapshot(id)));
    OneMore(g, a, g3, Connecting(Snapshot(id)), g3, Connecting(Announce(id, Ready)));
    var told := g3.(log := g.log + multiset{StateChanged(id, Ready)});
    OneMore(g, a, g3, Connecting(Announce(id, Ready)), told, Finished);
  }

  /** A loss report of a ready session fails it and publishes the loss and the new state, once each; of
      any other session it changes nothing. */
  lemma LossAlone(g: Shared, id: nat)
    requires !g.locked && g.hubOpen && (id in g.registry ==> id in g.states)
    ensures if id in g.registry && g.states[id] == Ready
            then Leads(g, Reporter(LossLock(id)),
                       g.(states := g.states[id := Failed],
                          log := g.log + multiset{ConnectionLost(id), StateChanged(id, Failed)}), Finished)
            else Leads(g, Reporter(LossLock(id)), g, Finished)
  {
    var a, locked := Reporter(LossLock(id)), g.(locked := true);
    Here(g, a);
    hide Leads;
    OneMore(g, a, g, a, locked, Reporter(Get(id)));
    if id in g.registry {
      OneMore(g, a, locked, Reporter(Get(id)), locked, Reporter(LossLoad(id)));
      OneMore(g, a, locked, Reporter(LossLoad(id)), locked, Reporter(LossSwap(id, g.states[id])));
      if g.states[id] == Ready {
        var failed := g.(states := g.states[id := Failed]);
        OneMore(g, a, locked, Reporter(LossSwap(id, Ready)), failed, Reporter(Won(id)));
        var told := failed.(log := g.log + multiset{ConnectionLost(id)});
        OneMore(g, a, failed, Reporter(Won(id)), told, Reporter(Reported(id)));
        assert told.log + multiset{StateChanged(id, Failed)} ==
               g.log + multiset{ConnectionLost(id), StateChanged(id, Failed)};
        OneMore(g, a, told, Reporter(Reported(id)),
                told.(log := g.log + multiset{ConnectionLost(id), StateChanged(id, Failed)}), Finished);
      } else {
        OneMore(g, a, locked, Reporter(LossSwap(id, g.states[id])), g, Finished);
      }
    } else {
      OneMore(g, a, locked, Reporter(Get(id)), g, Finished);
    }
  }

  /** A disconnect takes the session out of the registry and, unless it has failed, publishes that it is
      closed, once. */
  lemma DisconnectAlone(g: Shared, id: nat)
    requires !g.locked && !g.shuttingDown && g.hubOpen && id in g.registry && id in g.states
    requires g.states[id] == Ready || g.states[id] == Failed
    ensures if g.states[id] == Ready
            then Leads(g, Closer(EnsureOpen(id)),
                       g.(registry := g.registry - {id}, states := g.states[id := Disconnecting],
                          log := g.log + multiset{StateChanged(id, Closed)}), Finished)
            else Leads(g, Closer(EnsureOpen(id)), g.(registry := g.registry - {id}), Finished)
  {
    var a, out := Closer(EnsureOpen(id)), g.(registry := g.registry - {id});
    Here(g, a);
    hide Leads;
    OneMore(g, a, g, a, g, Closer(Remove(id)));
    OneMore(g, a, g, Closer(Remove(id)), out, Closer(Load(id)));
    OneMore(g, a, out, Closer(Load(id)), out, Closer(Swap(id, g.states[id])));
    if g.states[id] == Ready {
      var closing := out.(states := g.states[id := Disconnecting]);
      OneMore(g, a, out, Closer(Swap(id, Ready)), closing, Closer(Closing(id)));
      OneMore(g, a, closing, Closer(Closing(id)),
              closing.(log := g.log + multiset{StateChanged(id, Closed)}), Finished);
    } else {
      OneMore(g, a, out, Closer(Swap(id, Failed)), out, Finished);
    }
  }

  /** A first shutdown raises the flag, drains every session and answers for all of them; when none is
      left it closes the hub. */
  lemma ShutdownAlone(g: Shared)
    requires !g.locked && !g.shuttingDown
    ensures Leads(g, Stopper(SetFlag),
                  g.(shuttingDown := true, registry := {}, drained := true, taken := g.registry),
                  Stopper(Spawn(g.registry)))
    ensures Leads(g, Stopper(Spawn({})), g.(hubOpen := false), Finished)
  {
    var a, flagged := Stopper(SetFlag), g.(shuttingDown := true);
    Here(g, a);
    Here(g, Stopper(Spawn({})));
    hide Leads;
    OneMore(g, a, g, a, flagged, Stopper(Take));
    OneMore(g, a, flagged, Stopper(Take),
            flagged.(registry := {}, drained := true, taken := g.registry), Stopper(Spawn(g.registry)));
    OneMore(g, Stopper(Spawn({})), g, Stopper(Spawn({})), g.(hubOpen := false), Finished);
  }

  /** Calls that are turned away change nothing and keep no lock: connects, disconnects and further
      shutdowns once a shutdown has begun, also a connect that has come as far as the registry, and a
      disconnect of a session that is not registered.  A new runtime is open and unlocked. */
  lemma RefusedAlone(g: Shared, id: nat)
    ensures g.shuttingDown ==>
              && Leads(g, Connecting(Open), g, Finished) && Leads(g, Closer(EnsureOpen(id)), g, Finished)
              && Leads(g, Stopper(SetFlag), g, Finished) && Leads(g, Connecting(Reopen(id)), g, Finished)
              && (!g.locked ==> Leads(g, Connecting(Lock(id)), g, Finished))
    ensures !g.shuttingDown && !g.locked && id !in g.registry ==> Leads(g, Closer(EnsureOpen(id)), g, Finished)
    ensures forall s | Init(s) :: !s.g.locked && !s.g.shuttingDown && s.g.hubOpen
  {
    var locked := g.(locked := true);
    hide Leads;
    Here(g, Connecting(Open));
    Here(g, Closer(EnsureOpen(id)));
    Here(g, Stopper(SetFlag));
    Here(g, Connecting(Reopen(id)));
    Here(g, Connecting(Lock(id)));
    if g.shuttingDown {
      assert g.(shuttingDown := true) == g;
      OneMore(g, Connecting(Open), g, Connecting(Open), g, Finished);
      OneMore(g, Closer(EnsureOpen(id)), g, Closer(EnsureOpen(id)), g, Finished);
      OneMore(g, Stopper(SetFlag), g, Stopper(SetFlag), g, Finished);
      OneMore(g, Connecting(Reopen(id)), g, Connecting(Reopen(id)), g, Finished);
      if !g.locked {
        OneMore(g, Connecting(Lock(id)), g, Connecting(Lock(id)), locked, Connecting(Check(id)));
        assert locked.(locked := false) == g;
        OneMore(g, Connecting(Lock(id)), locked, Connecting(Check(id)), g, Finished);
      }
    } else if !g.locked && id !in g.registry {
      OneMore(g, Closer(EnsureOpen(id)), g, Closer(EnsureOpen(id)), g, Closer(Remove(id)));
      OneMore(g, Closer(EnsureOpen(id)), g, Closer(Remove(id)), g, Finished);
    }
  }
}
