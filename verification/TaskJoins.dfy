/** Who waits for transfer tasks: gated launches, `disconnect`, loss reports and `shutdown`, with the
    join handles in the transfer registry (crates/handshaker-application/src/runtime.rs,
    crates/handshaker-application/src/transfer.rs).

    A close takes the session's handles and joins them, aborting a task that ignores its deadline; a
    loss report takes them and drops them.  The registry lock and the compare-and-swap loops are
    single steps here, SessionLifecycle has them in full.  A session may be connected until the drain: the
    flag is read under the registry lock that the drain takes too. */
module TaskJoins {

  datatype SessionState = Ready | Disconnecting | Failed

  datatype Slot = Reserved | Stored | Emptied

  /** A transfer and its task.  An entry that has left the registry is kept as not registered, so that
      its task stays in sight. */
  datatype Transfer = Transfer(session: nat, registered: bool, slot: Slot, spawned: bool, over: bool)

  datatype Launch =
    | GateWait
    | FlagCheck
    | FindSession
    | CheckState
    | Register
    | SpawnTask(id: nat)
    | Publish(id: nat)
    | Release

  /** A `disconnect`, or from `Swap` on a close task of `shutdown`. */
  datatype Close =
    | EnsureOpen
    | Remove
    | Swap
    | Collect
    | TakeEach(left: set<nat>, joins: set<nat>)
    | JoinEach(waiting: set<nat>)

  datatype Loss = Mark | Gather | DropEach(drops: set<nat>)

  datatype Shutdown = SetFlag | CloseGate | Drain | SpawnCloses(todo: set<nat>)

  datatype Actor =
    | Launcher(session: nat, launch: Launch)
    | Closer(session: nat, close: Close)
    | Reporter(session: nat, loss: Loss)
    | Stopper(shutdown: Shutdown)
    | Finished

  /** `closed` (a shutdown has held the gate) and `returned` (it has returned) are history. */
  datatype Gate = Gate(shuttingDown: bool, writer: bool, closed: bool, returned: bool)

  /** `taken` are the sessions that shutdown drained. */
  datatype Sessions = Sessions(drained: bool, registry: set<nat>, states: map<nat, SessionState>, taken: set<nat>)

  datatype Shared = Shared(gate: Gate, sessions: Sessions, next: nat, transfers: map<nat, Transfer>)

  datatype State = State(g: Shared, actors: seq<Actor>)

  datatype Step =
    | Act(i: nat)
    | TakeOne(i: nat, id: nat)
    | JoinOne(i: nat, id: nat)
    | DropOne(i: nat, id: nat)
    | SpawnClose(i: nat, session: nat)
    | TaskEnds(id: nat)
    | Evict(id: nat)
    | Connect(session: nat)

  predicate Initial(a: Actor) {
    match a
    case Launcher(_, l) => l.GateWait?
    case Closer(_, c) => c.EnsureOpen?
    case Reporter(_, l) => l.Mark?
    case Stopper(d) => d.SetFlag?
    case Finished => true
  }

  predicate Init(s: State) {
    && s.g == Shared(Gate(false, false, false, false), Sessions(false, {}, map[], {}), s.g.next, map[])
    && (forall i | 0 <= i < |s.actors| :: Initial(s.actors[i]))
  }

  predicate HoldsRead(a: Actor) {
    a.Launcher? && !a.launch.GateWait?
  }

  /** Has taken its session out of the registry. */
  predicate Holds(c: Close) {
    !c.EnsureOpen? && !c.Remove?
  }

  /** Answers for closing this session. */
  predicate Owns(a: Actor, session: nat) {
    match a
    case Closer(x, c) => Holds(c) && x == session
    case Stopper(d) => d.SpawnCloses? && session in d.todo
    case _ => false
  }

  predicate CloseTasksDone(s: State) {
    forall j, session | 0 <= j < |s.actors| && session in s.g.sessions.taken :: !Owns(s.actors[j], session)
  }

  predicate CanAct(g: Shared, a: Actor) {
    match a
    case Launcher(x, l) =>
      && (l.GateWait? ==> !g.gate.writer) && (l.CheckState? ==> x in g.sessions.states)
      && (l.SpawnTask? || l.Publish? ==> l.id in g.transfers)
    case Closer(x, c) =>
      (c.Swap? ==> x in g.sessions.states) && (c.TakeEach? ==> c.left == {}) && (c.JoinEach? ==> c.waiting == {})
    case Reporter(x, l) => (l.DropEach? ==> l.drops == {})
    case Stopper(d) => (d.CloseGate? ==> !g.gate.writer) && (d.SpawnCloses? ==> d.todo == {})
    case Finished => false
  }

  predicate Usable(n: Sessions, session: nat) {
    session in n.registry && session in n.states && n.states[session] == Ready
  }

  function Entries(g: Shared, session: nat): set<nat> {
    set id | id in g.transfers && g.transfers[id].registered && g.transfers[id].session == session
  }

  function DoLaunch(g: Shared, x: nat, l: Launch): (Shared, Actor)
    requires CanAct(g, Launcher(x, l))
  {
    match l
    case GateWait => (g, Launcher(x, FlagCheck))
    case FlagCheck => (g, if g.gate.shuttingDown then Finished else Launcher(x, FindSession))
    case FindSession => (g, if x in g.sessions.registry then Launcher(x, CheckState) else Finished)
    case CheckState => (g, if g.sessions.states[x] == Ready then Launcher(x, Register) else Finished)
    case Register =>
      (g.(next := g.next + 1, transfers := g.transfers[g.next := Transfer(x, true, Reserved, false, false)]),
       Launcher(x, SpawnTask(g.next)))
    case SpawnTask(id) =>
      (g.(transfers := g.transfers[id := g.transfers[id].(spawned := true)]), Launcher(x, Publish(id)))
    case Publish(id) =>
      ((if g.transfers[id].registered then g.(transfers := g.transfers[id := g.transfers[id].(slot := Stored)]) else g),
       Launcher(x, Release))
    case Release => (g, Finished)
  }

  function DoClose(g: Shared, x: nat, c: Close): (Shared, Actor)
    requires CanAct(g, Closer(x, c))
  {
    match c
    case EnsureOpen => (g, if g.gate.shuttingDown then Finished else Closer(x, Remove))
    case Remove =>
      if x in g.sessions.registry
      then (g.(sessions := g.sessions.(registry := g.sessions.registry - {x})), Closer(x, Swap))
      else (g, Finished)
    case Swap =>
      if g.sessions.states[x] == Failed then (g, Finished)
      else (g.(sessions := g.sessions.(states := g.sessions.states[x := Disconnecting])), Closer(x, Collect))
    case Collect => (g, Closer(x, TakeEach(Entries(g, x), {})))
    case TakeEach(_, joins) => (g, Closer(x, JoinEach(joins)))
    case JoinEach(_) => (g, Finished)
  }

  function DoLoss(g: Shared, x: nat, l: Loss): (Shared, Actor) {
    match l
    case Mark =>
      if Usable(g.sessions, x)
      then (g.(sessions := g.sessions.(states := g.sessions.states[x := Failed])), Reporter(x, Gather))
      else (g, Finished)
    case Gather => (g, Reporter(x, DropEach(Entries(g, x))))
    case DropEach(_) => (g, Finished)
  }

  function DoShutdown(g: Shared, d: Shutdown): (Shared, Actor) {
    match d
    case SetFlag =>
      (g.(gate := g.gate.(shuttingDown := true)), if g.gate.shuttingDown then Finished else Stopper(CloseGate))
    case CloseGate => (g.(gate := g.gate.(writer := true, closed := true)), Stopper(Drain))
    case Drain =>
      (g.(sessions := g.sessions.(drained := true, registry := {}, taken := g.sessions.registry)),
       Stopper(SpawnCloses(g.sessions.registry)))
    case SpawnCloses(_) => (g.(gate := g.gate.(writer := false, returned := true)), Finished)
  }

  function Advance(g: Shared, a: Actor): (Shared, Actor)
    requires CanAct(g, a)
  {
    match a
    case Launcher(x, l) => DoLaunch(g, x, l)
    case Closer(x, c) => DoClose(g, x, c)
    case Reporter(x, l) => DoLoss(g, x, l)
    case Stopper(d) => DoShutdown(g, d)
  }

  /** An entry leaves the registry only when its slot is empty or its task is over. */
  predicate Evictable(t: Transfer) {
    t.registered && (t.slot == Emptied || (t.slot == Stored && t.over))
  }

  predicate Enabled(s: State, step: Step) {
    match step
    case Act(i) =>
      && i < |s.actors| && CanAct(s.g, s.actors[i])
      && (s.actors[i] == Stopper(CloseGate) ==> forall j | 0 <= j < |s.actors| :: !HoldsRead(s.actors[j]))
      && (s.actors[i].Stopper? && s.actors[i].shutdown.SpawnCloses? ==> CloseTasksDone(s))
    case TakeOne(i, id) =>
      i < |s.actors| && s.actors[i].Closer? && s.actors[i].close.TakeEach? && id in s.actors[i].close.left
    case JoinOne(i, id) =>
      && i < |s.actors| && s.actors[i].Closer? && s.actors[i].close.JoinEach? && id in s.actors[i].close.waiting
      && id in s.g.transfers && s.g.transfers[id].over
    case DropOne(i, id) =>
      i < |s.actors| && s.actors[i].Reporter? && s.actors[i].loss.DropEach? && id in s.actors[i].loss.drops
    case SpawnClose(i, session) =>
      i < |s.actors| && s.actors[i].Stopper? && s.actors[i].shutdown.SpawnCloses? && session in s.actors[i].shutdown.todo
    case TaskEnds(id) => id in s.g.transfers && s.g.transfers[id].spawned
    case Evict(id) => id in s.g.transfers && Evictable(s.g.transfers[id])
    case Connect(session) => session !in s.g.sessions.states && !s.g.sessions.drained
  }

  /** Taking a slot: a registered entry's becomes empty, a gone one's is out of reach. */
  function Empty(g: Shared, id: nat): Shared {
    if id in g.transfers && g.transfers[id].registered
    then g.(transfers := g.transfers[id := g.transfers[id].(slot := Emptied)]) else g
  }

  predicate HasHandle(g: Shared, id: nat) {
    id in g.transfers && g.transfers[id].registered && g.transfers[id].slot == Stored
  }

  function Do(s: State, step: Step): State
    requires Enabled(s, step)
  {
    match step
    case Act(i) =>
      var (g, a) := Advance(s.g, s.actors[i]);
      State(g, s.actors[i := a])
    case TakeOne(i, id) =>
      var c := s.actors[i].close;
      var joins := if HasHandle(s.g, id) then c.joins + {id} else c.joins;
      State(Empty(s.g, id), s.actors[i := Closer(s.actors[i].session, TakeEach(c.left - {id}, joins))])
    case JoinOne(i, id) =>
      State(s.g, s.actors[i := Closer(s.actors[i].session, JoinEach(s.actors[i].close.waiting - {id}))])
    case DropOne(i, id) =>
      State(Empty(s.g, id), s.actors[i := Reporter(s.actors[i].session, DropEach(s.actors[i].loss.drops - {id}))])
    case SpawnClose(i, session) =>
      State(s.g, s.actors[i := Stopper(SpawnCloses(s.actors[i].shutdown.todo - {session}))] + [Closer(session, Swap)])
    case TaskEnds(id) => s.(g := s.g.(transfers := s.g.transfers[id := s.g.transfers[id].(over := true)]))
    case Evict(id) => s.(g := s.g.(transfers := s.g.transfers[id := s.g.transfers[id].(registered := false)]))
    case Connect(session) =>
      s.(g := s.g.(sessions := s.g.sessions.(registry := s.g.sessions.registry + {session},
                                             states := s.g.sessions.states[session := Ready])))
  }

  predicate Legal(s: State, trace: seq<Step>)
    decreases |trace|
  {
    trace == [] || (Enabled(s, trace[0]) && Legal(Do(s, trace[0]), trace[1..]))
  }

  function Final(s: State, trace: seq<Step>): State
    requires Legal(s, trace)
    decreases |trace|
  {
    if trace == [] then s else Final(Do(s, trace[0]), trace[1..])
  }

  // ---- the invariant ----

  predicate PastFlag(a: Actor) {
    a.Stopper? && !a.shutdown.SetFlag?
  }

  predicate Launching(a: Actor, id: nat) {
    a.Launcher? && (a.launch.SpawnTask? || a.launch.Publish?) && a.launch.id == id
  }

  predicate ApartFrom(a: Actor, b: Actor) {
    match a
    case Launcher(_, l) => l.SpawnTask? || l.Publish? ==> !Launching(b, l.id)
    case Closer(x, c) => Holds(c) ==> !Owns(b, x)
    case _ => true
  }

  predicate Apart(a: Actor, b: Actor) {
    ApartFrom(a, b) && ApartFrom(b, a) && !(PastFlag(a) && PastFlag(b))
  }

  predicate InState(n: Sessions, session: nat, state: SessionState) {
    session in n.states && n.states[session] == state
  }

  predicate Of(g: Shared, id: nat, session: nat) {
    id in g.transfers && g.transfers[id].session == session
  }

  ghost predicate ActorInv(g: Shared, a: Actor) {
    match a
    case Launcher(x, l) =>
      && (HoldsRead(a) && !l.FlagCheck? ==> !g.gate.closed)
      && (l.CheckState? || l.Register? ==> x in g.sessions.states)
      && (l.SpawnTask? || l.Publish? ==>
            && Of(g, l.id, x) && g.transfers[l.id].spawned == l.Publish?
            && (Usable(g.sessions, x) ==> g.transfers[l.id].registered && g.transfers[l.id].slot == Reserved))
    case Closer(x, c) =>
      && (Holds(c) ==> x in g.sessions.states && x !in g.sessions.registry)
      && (Holds(c) && x in g.sessions.taken ==> !g.gate.returned)
      && (c.Collect? || c.TakeEach? || c.JoinEach? ==> InState(g.sessions, x, Disconnecting))
      && (c.TakeEach? ==> forall id | id in c.left :: Of(g, id, x))
    case Reporter(x, l) =>
      && (!l.Mark? ==> InState(g.sessions, x, Failed))
      && (l.DropEach? ==> forall id | id in l.drops :: Of(g, id, x))
    case Stopper(d) =>
      && (d.CloseGate? ==> g.gate.shuttingDown && !g.gate.closed)
      && (d.Drain? ==> g.gate.closed && !g.sessions.drained && !g.gate.returned)
      && (d.SpawnCloses? ==> g.sessions.drained && !g.gate.returned && d.todo <= g.sessions.taken)
    case Finished => true
  }

  ghost predicate SessionsInv(g: Shared) {
    && (g.gate.closed ==> g.gate.shuttingDown)
    && (g.gate.returned ==> g.sessions.drained)
    && (if g.sessions.drained then g.gate.closed && g.sessions.registry == {} else g.sessions.taken == {})
    && g.sessions.registry <= g.sessions.states.Keys && g.sessions.taken <= g.sessions.states.Keys
    && (forall x | x in g.sessions.registry :: g.sessions.states[x] != Disconnecting)
  }

  ghost predicate TransferOk(g: Shared, id: nat) {
    id in g.transfers ==> id < g.next && g.transfers[id].session in g.sessions.states
  }

  predicate Live(g: Shared, id: nat) {
    id in g.transfers && g.transfers[id].spawned && !g.transfers[id].over
  }

  /** The actor will wait for this live task. */
  predicate Covers(g: Shared, a: Actor, id: nat)
    requires id in g.transfers
  {
    match a
    case Stopper(d) => d.SpawnCloses? && g.transfers[id].session in d.todo && HasHandle(g, id)
    case Closer(x, c) =>
      && x == g.transfers[id].session
      && (match c
          case EnsureOpen => false
          case Remove => false
          case Swap => HasHandle(g, id)
          case Collect => HasHandle(g, id)
          case TakeEach(left, joins) => id in joins || (id in left && HasHandle(g, id))
          case JoinEach(waiting) => id in waiting)
    case _ => false
  }

  predicate Waited(s: State, id: nat)
    requires id in s.g.transfers
  {
    exists j :: 0 <= j < |s.actors| && Covers(s.g, s.actors[j], id)
  }

  /** Where the handle of a live task is, as long as its session is usable, or drained and not failed. */
  ghost predicate Accounted(s: State, id: nat) {
    Live(s.g, id) ==>
      var t := s.g.transfers[id];
      && (Usable(s.g.sessions, t.session) ==>
            HasHandle(s.g, id) || exists j :: 0 <= j < |s.actors| && Launching(s.actors[j], id))
      && (t.session in s.g.sessions.taken && !InState(s.g.sessions, t.session, Failed) ==> Waited(s, id))
  }

  ghost predicate Inv(s: State) {
    && SessionsInv(s.g)
    && (forall id: nat :: TransferOk(s.g, id) && Accounted(s, id))
    && (forall i | 0 <= i < |s.actors| :: ActorInv(s.g, s.actors[i]))
    && (forall i, j | 0 <= i < j < |s.actors| :: Apart(s.actors[i], s.actors[j]))
  }

  lemma PairApart(s: State, i: nat, j: nat)
    requires Inv(s) && i < |s.actors| && j < |s.actors| && i != j
    ensures Apart(s.actors[i], s.actors[j])
  {
    assert if i < j then Apart(s.actors[i], s.actors[j]) else Apart(s.actors[j], s.actors[i]);
  }

  // ---- one access of one actor ----

  lemma SessionsKept(g: Shared, a: Actor)
    requires CanAct(g, a) && SessionsInv(g) && ActorInv(g, a)
    ensures SessionsInv(Advance(g, a).0)
  {
  }

  lemma TransferKept(g: Shared, a: Actor, id: nat)
    requires CanAct(g, a) && ActorInv(g, a) && TransferOk(g, id)
    ensures TransferOk(Advance(g, a).0, id)
  {
  }

  lemma OwnKept(g: Shared, a: Actor)
    requires CanAct(g, a) && SessionsInv(g) && ActorInv(g, a)
    ensures ActorInv(Advance(g, a).0, Advance(g, a).1)
  {
  }

  lemma OtherKept(g: Shared, a: Actor, b: Actor)
    requires CanAct(g, a) && SessionsInv(g) && TransferOk(g, g.next)
    requires ActorInv(g, a) && ActorInv(g, b) && Apart(a, b)
    requires a == Stopper(CloseGate) ==> !HoldsRead(b)
    requires a.Stopper? && a.shutdown.SpawnCloses? ==> forall x | x in g.sessions.taken :: !Owns(b, x)
    ensures ActorInv(Advance(g, a).0, b)
  {
  }

  lemma StaysApart(g: Shared, a: Actor, b: Actor)
    requires CanAct(g, a) && SessionsInv(g) && TransferOk(g, g.next)
    requires ActorInv(g, a) && ActorInv(g, b) && Apart(a, b)
    ensures Apart(Advance(g, a).1, b)
  {
  }

  /** A task comes to life with its launch at work; nobody's own access empties a slot, makes a
      session usable or takes a launch out of its hands. */
  lemma HandleStays(g: Shared, a: Actor, id: nat)
    requires CanAct(g, a) && SessionsInv(g) && TransferOk(g, g.next) && ActorInv(g, a) && Live(Advance(g, a).0, id)
    ensures var (g', a') := Advance(g, a);
            && id in g.transfers && g'.transfers[id].session == g.transfers[id].session
            && (!Live(g, id) ==> Launching(a', id) && !g.sessions.drained)
            && (HasHandle(g, id) ==> HasHandle(g', id))
            && (Usable(g'.sessions, g.transfers[id].session) ==>
                  && Usable(g.sessions, g.transfers[id].session)
                  && (Launching(a, id) ==> Launching(a', id) || HasHandle(g', id)))
  {
  }

  /** Who waits for a task goes on waiting, and the drain waits for what is stored. */
  lemma CoverStays(g: Shared, a: Actor, id: nat)
    requires CanAct(g, a) && SessionsInv(g) && ActorInv(g, a) && Live(g, id) && Live(Advance(g, a).0, id)
    requires Advance(g, a).0.transfers[id].session == g.transfers[id].session
    requires var x := g.transfers[id].session;
             x in Advance(g, a).0.sessions.taken && !InState(Advance(g, a).0.sessions, x, Failed)
    requires HasHandle(g, id) ==> HasHandle(Advance(g, a).0, id)
    ensures var (g', a') := Advance(g, a);
            var x := g.transfers[id].session;
            && (Covers(g, a, id) ==> Covers(g', a', id))
            && (if a == Stopper(Drain)
                then Usable(g.sessions, x) && g.gate.closed && (HasHandle(g, id) ==> Covers(g', a', id))
                else x in g.sessions.taken && !InState(g.sessions, x, Failed))
  {
  }

  lemma ActAccounts(s: State, i: nat, id: nat)
    requires Inv(s) && Enabled(s, Act(i))
    ensures Accounted(Do(s, Act(i)), id)
  {
    var a, s' := s.actors[i], Do(s, Act(i));
    assert TransferOk(s.g, s.g.next) && ActorInv(s.g, a) && Accounted(s, id);
    if Live(s'.g, id) {
      HandleStays(s.g, a, id);
      var x := s.g.transfers[id].session;
      if !Live(s.g, id) {
        assert Launching(s'.actors[i], id);
        NothingDrainedYet(s.g, a, id);
      } else {
        if Usable(s'.g.sessions, x) && !HasHandle(s'.g, id) {
          var j :| 0 <= j < |s.actors| && Launching(s.actors[j], id);
          assert Launching(s'.actors[j], id);
        }
        if x in s'.g.sessions.taken && !InState(s'.g.sessions, x, Failed) {
          CoverStays(s.g, a, id);
          ActWaits(s, i, id);
        }
      }
    }
  }

  lemma NothingDrainedYet(g: Shared, a: Actor, id: nat)
    requires CanAct(g, a) && SessionsInv(g) && ActorInv(g, a) && Launching(Advance(g, a).1, id)
    ensures Advance(g, a).0.sessions.taken == {}
  {
  }

  lemma ActWaits(s: State, i: nat, id: nat)
    requires Inv(s) && Enabled(s, Act(i)) && Live(s.g, id) && Live(Do(s, Act(i)).g, id)
    requires var g' := Do(s, Act(i)).g;
             var x := s.g.transfers[id].session;
             && g'.transfers[id].session == x && x in g'.sessions.taken && !InState(g'.sessions, x, Failed)
             && (HasHandle(s.g, id) ==> HasHandle(g', id))
    ensures Waited(Do(s, Act(i)), id)
  {
    var a, s' := s.actors[i], Do(s, Act(i));
    assert ActorInv(s.g, a) && Accounted(s, id);
    CoverStays(s.g, a, id);
    hide Advance, SessionsInv;
    if a == Stopper(Drain) {
      assert forall j | 0 <= j < |s.actors| :: ActorInv(s.g, s.actors[j]);
      assert HasHandle(s.g, id);
      assert Covers(s'.g, s'.actors[i], id);
    } else {
      var j :| 0 <= j < |s.actors| && Covers(s.g, s.actors[j], id);
      assert Covers(s'.g, s'.actors[j], id);
    }
  }

  lemma ActKeepsInv(s: State, i: nat)
    requires Inv(s) && Enabled(s, Act(i))
    ensures Inv(Do(s, Act(i)))
  {
    var a, s' := s.actors[i], Do(s, Act(i));
    assert TransferOk(s.g, s.g.next) && ActorInv(s.g, a);
    SessionsKept(s.g, a);
    OwnKept(s.g, a);
    forall id: nat ensures TransferOk(s'.g, id) && Accounted(s', id) {
      assert TransferOk(s.g, id);
      TransferKept(s.g, a, id);
      ActAccounts(s, i, id);
    }
    forall j | 0 <= j < |s.actors| && j != i
      ensures ActorInv(s'.g, s'.actors[j]) && Apart(s'.actors[i], s'.actors[j])
    {
      PairApart(s, i, j);
      assert ActorInv(s.g, s.actors[j]);
      OtherKept(s.g, a, s.actors[j]);
      StaysApart(s.g, a, s.actors[j]);
    }
  }

  // ---- the other steps ----

  /** Emptying a slot, the end of a task, an eviction and a new session leave every actor's own
      account true, as long as they do not touch what a launch of a usable session still needs. */
  lemma EmptyKeepsActor(g: Shared, x: nat, id: nat, b: Actor)
    requires ActorInv(g, b) && Of(g, id, x) && !Usable(g.sessions, x)
    ensures ActorInv(Empty(g, id), b)
  {
  }

  lemma EmptyKeepsShared(g: Shared, id: nat, other: nat)
    requires SessionsInv(g) && TransferOk(g, other)
    ensures SessionsInv(Empty(g, id)) && TransferOk(Empty(g, id), other)
    ensures Live(Empty(g, id), other) <==> Live(g, other)
    ensures other != id && HasHandle(g, other) ==> HasHandle(Empty(g, id), other)
    ensures other in g.transfers ==>
              && other in Empty(g, id).transfers
              && Empty(g, id).transfers[other].session == g.transfers[other].session
  {
  }

  /** Replacing one actor by another of the same session that owns, and holds, no more. */
  ghost predicate NoMore(a: Actor, a': Actor) {
    && (a'.Closer? || a'.Reporter? || a'.Stopper?)
    && (forall x: nat | Owns(a', x) :: Owns(a, x))
    && (PastFlag(a') ==> PastFlag(a))
    && (a'.Closer? ==> a.Closer? && a.session == a'.session && (Holds(a'.close) ==> Holds(a.close)))
  }

  lemma NoMoreStaysApart(a: Actor, a': Actor, b: Actor)
    requires NoMore(a, a') && Apart(a, b)
    ensures Apart(a', b)
  {
  }

  /** Whoever else waits for `other` is not touched when a slot of the closer's own session empties. */
  lemma TakeKeepsCover(s: State, i: nat, id: nat, other: nat, j: nat)
    requires Inv(s) && Enabled(s, TakeOne(i, id)) && j < |s.actors| && Live(s.g, other)
    requires Covers(s.g, s.actors[j], other)
    ensures Covers(Do(s, TakeOne(i, id)).g, Do(s, TakeOne(i, id)).actors[j], other)
  {
    assert ActorInv(s.g, s.actors[i]);
    if i != j {
      PairApart(s, i, j);
    }
  }

  lemma TakeKeepsInv(s: State, i: nat, id: nat)
    requires Inv(s) && Enabled(s, TakeOne(i, id))
    ensures Inv(Do(s, TakeOne(i, id)))
  {
    var s', x := Do(s, TakeOne(i, id)), s.actors[i].session;
    assert ActorInv(s.g, s.actors[i]);
    forall other: nat ensures TransferOk(s'.g, other) && Accounted(s', other) {
      assert TransferOk(s.g, other) && Accounted(s, other);
      EmptyKeepsShared(s.g, id, other);
      if Live(s'.g, other) {
        var y := s.g.transfers[other].session;
        if Usable(s.g.sessions, y) && !HasHandle(s.g, other) {
          var j :| 0 <= j < |s.actors| && Launching(s.actors[j], other);
          assert Launching(s'.actors[j], other);
        }
        if y in s.g.sessions.taken && !InState(s.g.sessions, y, Failed) {
          var j :| 0 <= j < |s.actors| && Covers(s.g, s.actors[j], other);
          TakeKeepsCover(s, i, id, other, j);
        }
      }
    }
    EmptyKeepsShared(s.g, id, id);
    forall j | 0 <= j < |s.actors| ensures ActorInv(s'.g, s'.actors[j]) {
      assert ActorInv(s.g, s.actors[j]);
      EmptyKeepsActor(s.g, x, id, s'.actors[j]);
    }
    forall j | 0 <= j < |s.actors| && j != i ensures Apart(s'.actors[i], s.actors[j]) {
      PairApart(s, i, j);
      NoMoreStaysApart(s.actors[i], s'.actors[i], s.actors[j]);
    }
  }

  lemma DropKeepsInv(s: State, i: nat, id: nat)
    requires Inv(s) && Enabled(s, DropOne(i, id))
    ensures Inv(Do(s, DropOne(i, id)))
  {
    var s', x := Do(s, DropOne(i, id)), s.actors[i].session;
    assert ActorInv(s.g, s.actors[i]);
    forall other: nat ensures TransferOk(s'.g, other) && Accounted(s', other) {
      assert TransferOk(s.g, other) && Accounted(s, other);
      EmptyKeepsShared(s.g, id, other);
      if Live(s'.g, other) {
        var y := s.g.transfers[other].session;
        if Usable(s.g.sessions, y) && !HasHandle(s.g, other) {
          var j :| 0 <= j < |s.actors| && Launching(s.actors[j], other);
          assert Launching(s'.actors[j], other);
        }
        if y in s.g.sessions.taken && !InState(s.g.sessions, y, Failed) {
          var j :| 0 <= j < |s.actors| && Covers(s.g, s.actors[j], other);
          assert Covers(s'.g, s'.actors[j], other);
        }
      }
    }
    EmptyKeepsShared(s.g, id, id);
    forall j | 0 <= j < |s.actors| ensures ActorInv(s'.g, s'.actors[j]) {
      assert ActorInv(s.g, s.actors[j]);
      EmptyKeepsActor(s.g, x, id, s'.actors[j]);
    }
    forall j | 0 <= j < |s.actors| && j != i ensures Apart(s'.actors[i], s.actors[j]) {
      PairApart(s, i, j);
      NoMoreStaysApart(s.actors[i], s'.actors[i], s.actors[j]);
    }
  }

  lemma JoinKeepsInv(s: State, i: nat, id: nat)
    requires Inv(s) && Enabled(s, JoinOne(i, id))
    ensures Inv(Do(s, JoinOne(i, id)))
  {
    var s' := Do(s, JoinOne(i, id));
    assert ActorInv(s.g, s.actors[i]);
    forall other: nat ensures TransferOk(s'.g, other) && Accounted(s', other) {
      assert TransferOk(s.g, other) && Accounted(s, other);
      if Live(s'.g, other) {
        var y := s.g.transfers[other].session;
        if Usable(s.g.sessions, y) && !HasHandle(s.g, other) {
          var j :| 0 <= j < |s.actors| && Launching(s.actors[j], other);
          assert Launching(s'.actors[j], other);
        }
        if y in s.g.sessions.taken && !InState(s.g.sessions, y, Failed) {
          var j :| 0 <= j < |s.actors| && Covers(s.g, s.actors[j], other);
          assert Covers(s'.g, s'.actors[j], other);
        }
      }
    }
    forall j | 0 <= j < |s.actors| ensures ActorInv(s'.g, s'.actors[j]) {
      assert ActorInv(s.g, s.actors[j]);
    }
    forall j | 0 <= j < |s.actors| && j != i ensures Apart(s'.actors[i], s.actors[j]) {
      PairApart(s, i, j);
      NoMoreStaysApart(s.actors[i], s'.actors[i], s.actors[j]);
    }
  }

  lemma SpawnKeepsInv(s: State, i: nat, x: nat)
    requires Inv(s) && Enabled(s, SpawnClose(i, x))
    ensures Inv(Do(s, SpawnClose(i, x)))
  {
    var s', n := Do(s, SpawnClose(i, x)), |s.actors|;
    assert ActorInv(s.g, s.actors[i]);
    forall other: nat ensures TransferOk(s'.g, other) && Accounted(s', other) {
      assert TransferOk(s.g, other) && Accounted(s, other);
      if Live(s'.g, other) {
        var y := s.g.transfers[other].session;
        if y in s.g.sessions.taken && !InState(s.g.sessions, y, Failed) {
          var j :| 0 <= j < n && Covers(s.g, s.actors[j], other);
          assert Covers(s'.g, s'.actors[if j == i && y == x then n else j], other);
        }
      }
    }
    forall j | 0 <= j <= n ensures ActorInv(s'.g, s'.actors[j]) {
      assert j < n ==> ActorInv(s.g, s.actors[j]);
    }
    assert Owns(s.actors[i], x);
    forall j | 0 <= j < n && j != i
      ensures Apart(s'.actors[i], s.actors[j]) && Apart(s.actors[j], s'.actors[n])
    {
      PairApart(s, i, j);
      NoMoreStaysApart(s.actors[i], s'.actors[i], s.actors[j]);
      assert !Owns(s.actors[j], x) by { OwnsApart(s.actors[i], s.actors[j], x); }
    }
    assert Apart(s'.actors[i], s'.actors[n]);
  }

  lemma OwnsApart(a: Actor, b: Actor, x: nat)
    requires Apart(a, b) && Owns(a, x)
    ensures !Owns(b, x)
  {
  }

  /** The end of a task, an eviction, a new session. */
  lemma OutsideKeepsInv(s: State, step: Step)
    requires Inv(s) && Enabled(s, step) && (step.TaskEnds? || step.Evict? || step.Connect?)
    ensures Inv(Do(s, step))
  {
    var s' := Do(s, step);
    forall other: nat ensures TransferOk(s'.g, other) && Accounted(s', other) {
      assert TransferOk(s.g, other) && Accounted(s, other);
      if Live(s'.g, other) {
        var y := s.g.transfers[other].session;
        if Usable(s'.g.sessions, y) && !HasHandle(s'.g, other) {
          var j :| 0 <= j < |s.actors| && Launching(s.actors[j], other);
          assert Launching(s'.actors[j], other);
        }
        if y in s.g.sessions.taken && !InState(s.g.sessions, y, Failed) {
          var j :| 0 <= j < |s.actors| && Covers(s.g, s.actors[j], other);
          assert Covers(s'.g, s'.actors[j], other);
        }
      }
    }
    forall j | 0 <= j < |s.actors| ensures ActorInv(s'.g, s'.actors[j]) {
      var a := s.actors[j];
      assert ActorInv(s.g, a);
      assert a.Launcher? && (a.launch.SpawnTask? || a.launch.Publish?) ==> TransferOk(s.g, a.launch.id);
    }
  }

  lemma StepKeepsInv(s: State, step: Step)
    requires Inv(s) && Enabled(s, step)
    ensures Inv(Do(s, step))
  {
    hide Inv, Do, Enabled;
    match step {
      case Act(i) => ActKeepsInv(s, i);
      case TakeOne(i, id) => TakeKeepsInv(s, i, id);
      case JoinOne(i, id) => JoinKeepsInv(s, i, id);
      case DropOne(i, id) => DropKeepsInv(s, i, id);
      case SpawnClose(i, x) => SpawnKeepsInv(s, i, x);
      case _ => OutsideKeepsInv(s, step);
    }
  }

  lemma {:induction false} RunKeepsInv(s: State, trace: seq<Step>)
    requires Inv(s) && Legal(s, trace)
    ensures Inv(Final(s, trace))
    decreases |trace|
  {
    if trace != [] {
      hide Inv, Do, Enabled;
      StepKeepsInv(s, trace[0]);
      RunKeepsInv(Do(s, trace[0]), trace[1..]);
    }
  }

  // ---- the results ----

  /** No transfer task of a drained session outlives shutdown, unless its session had failed first: in
      every reachable state in which shutdown has returned, each task that is still alive and belongs
      to a session it drained belongs to a failed one. */
  lemma OnlyFailedOutlive(s: State, trace: seq<Step>, id: nat)
    requires Init(s) && Legal(s, trace) && Final(s, trace).g.gate.returned
    requires Live(Final(s, trace).g, id)
    requires Final(s, trace).g.transfers[id].session in Final(s, trace).g.sessions.taken
    ensures InState(Final(s, trace).g.sessions, Final(s, trace).g.transfers[id].session, Failed)
  {
    RunKeepsInv(s, trace);
    var f := Final(s, trace);
    assert Accounted(f, id);
    forall j | 0 <= j < |f.actors| ensures !Covers(f.g, f.actors[j], id) {
      assert ActorInv(f.g, f.actors[j]);
    }
  }

  // ---- and those do ----

  lemma {:induction false} LegalAppend(s: State, trace: seq<Step>, step: Step)
    requires Legal(s, trace) && Enabled(Final(s, trace), step)
    ensures Legal(s, trace + [step]) && Final(s, trace + [step]) == Do(Final(s, trace), step)
    decreases |trace|
  {
    if trace == [] {
      assert (trace + [step])[1..] == [];
    } else {
      assert (trace + [step])[1..] == trace[1..] + [step];
      LegalAppend(Do(s, trace[0]), trace[1..], step);
    }
  }

  /** One more access of actor `i` at the end of a run. */
  lemma Play(s: State, trace: seq<Step>, i: nat, g: Shared, a: Actor) returns (trace': seq<Step>)
    requires Legal(s, trace) && Enabled(Final(s, trace), Act(i))
    requires Advance(Final(s, trace).g, Final(s, trace).actors[i]) == (g, a)
    ensures Legal(s, trace') && Final(s, trace') == State(g, Final(s, trace).actors[i := a])
  {
    trace' := trace + [Act(i)];
    LegalAppend(s, trace, Act(i));
  }

  const Up := Gate(false, false, false, false)
  const OneReady := Sessions(false, {0}, map[0 := Ready], {})
  const OneFailed := Sessions(false, {0}, map[0 := Failed], {})
  const Drained := Sessions(true, {}, map[0 := Failed], {0})

  function OneTask(slot: Slot, spawned: bool): map<nat, Transfer> {
    map[0 := Transfer(0, true, slot, spawned, false)]
  }

  /** Session 0 is connected. */
  lemma Connected() returns (s: State, trace: seq<Step>)
    ensures Init(s) && Legal(s, trace)
    ensures Final(s, trace) == State(Shared(Up, OneReady, 0, map[]),
                                     [Launcher(0, GateWait), Reporter(0, Mark), Stopper(SetFlag)])
  {
    var start := Shared(Up, Sessions(false, {}, map[], {}), 0, map[]);
    s := State(start, [Launcher(0, GateWait), Reporter(0, Mark), Stopper(SetFlag)]);
    trace := [Connect(0)];
    assert trace[1..] == [];
  }

  /** A transfer of it is registered. */
  lemma Registered() returns (s: State, trace: seq<Step>)
    ensures Init(s) && Legal(s, trace)
    ensures Final(s, trace) == State(Shared(Up, OneReady, 1, OneTask(Reserved, false)),
                                     [Launcher(0, SpawnTask(0)), Reporter(0, Mark), Stopper(SetFlag)])
  {
    s, trace := Connected();
    hide Init, Legal, Final;
    var g := Shared(Up, OneReady, 0, map[]);
    trace := Play(s, trace, 0, g, Launcher(0, FlagCheck));
    trace := Play(s, trace, 0, g, Launcher(0, FindSession));
    trace := Play(s, trace, 0, g, Launcher(0, CheckState));
    trace := Play(s, trace, 0, g, Launcher(0, Register));
    trace := Play(s, trace, 0, Shared(Up, OneReady, 1, OneTask(Reserved, false)), Launcher(0, SpawnTask(0)));
  }

  /** The transfer is spawned and published; then the session's connection is lost. */
  lemma LaunchedThenLost() returns (s: State, trace: seq<Step>)
    ensures Init(s) && Legal(s, trace)
    ensures Final(s, trace) == State(Shared(Up, OneFailed, 1, OneTask(Stored, true)),
                                     [Finished, Reporter(0, Gather), Stopper(SetFlag)])
  {
    s, trace := Registered();
    hide Init, Legal, Final;
    var task := OneTask(Reserved, false);
    assert task[0 := task[0].(spawned := true)] == OneTask(Reserved, true);
    trace := Play(s, trace, 0, Shared(Up, OneReady, 1, OneTask(Reserved, true)), Launcher(0, Publish(0)));
    task := OneTask(Reserved, true);
    assert task[0 := task[0].(slot := Stored)] == OneTask(Stored, true);
    var g := Shared(Up, OneReady, 1, OneTask(Stored, true));
    trace := Play(s, trace, 0, g, Launcher(0, Release));
    trace := Play(s, trace, 0, g, Finished);
    assert OneReady.states[0 := Failed] == OneFailed.states;
    trace := Play(s, trace, 1, Shared(Up, OneFailed, 1, OneTask(Stored, true)), Reporter(0, Gather));
    assert Final(s, trace).actors == [Finished, Reporter(0, Gather), Stopper(SetFlag)];
  }

  /** The exception is real: shutdown drains a failed session without joining anything, and its task is
      still alive when shutdown has returned. */
  lemma FailedOutlives() returns (s: State, trace: seq<Step>)
    ensures Init(s) && Legal(s, trace)
    ensures var g := Final(s, trace).g;
            && g.gate.returned && 0 in g.sessions.taken && Live(g, 0) && g.transfers[0].session == 0
  {
    s, trace := LaunchedThenLost();
    hide Init, Legal, Final;
    var task := OneTask(Stored, true);
    trace := Play(s, trace, 2, Shared(Gate(true, false, false, false), OneFailed, 1, task), Stopper(CloseGate));
    trace := Play(s, trace, 2, Shared(Gate(true, true, true, false), OneFailed, 1, task), Stopper(Drain));
    var g := Shared(Gate(true, true, true, false), Drained, 1, task);
    trace := Play(s, trace, 2, g, Stopper(SpawnCloses({0})));
    LegalAppend(s, trace, SpawnClose(2, 0));
    trace := trace + [SpawnClose(2, 0)];
    assert {0} - {0} == {};
    assert Final(s, trace) == State(g, [Finished, Reporter(0, Gather), Stopper(SpawnCloses({})), Closer(0, Swap)]);
    trace := Play(s, trace, 3, g, Finished);
    trace := Play(s, trace, 2, Shared(Gate(true, false, true, true), Drained, 1, task), Finished);
  }

  // ---- each call when nobody interferes ----

  lemma Extend(s: State, trace: seq<Step>, step: Step, s': State) returns (trace': seq<Step>)
    requires Legal(s, trace) && Enabled(Final(s, trace), step) && Do(Final(s, trace), step) == s'
    ensures Legal(s, trace') && Final(s, trace') == s'
  {
    trace' := trace + [step];
    LegalAppend(s, trace, step);
  }

  /** Every slot of these entries emptied. */
  function EmptyAll(g: Shared, ids: set<nat>): Shared {
    g.(transfers := map id | id in g.transfers ::
         if id in ids && g.transfers[id].registered then g.transfers[id].(slot := Emptied) else g.transfers[id])
  }

  function Handles(g: Shared, ids: set<nat>): set<nat> {
    set id | id in ids && HasHandle(g, id)
  }

  lemma EmptyOneMore(g: Shared, ids: set<nat>, id: nat)
    requires id in ids
    ensures EmptyAll(Empty(g, id), ids - {id}) == EmptyAll(g, ids)
    ensures Handles(Empty(g, id), ids - {id}) + Handles(g, {id}) == Handles(g, ids)
  {
    var one := Empty(g, id);
    assert EmptyAll(one, ids - {id}).transfers == EmptyAll(g, ids).transfers;
    forall x | x in ids ensures x in Handles(one, ids - {id}) + Handles(g, {id}) <==> x in Handles(g, ids) {
    }
  }

  lemma EmptyNone(g: Shared)
    ensures EmptyAll(g, {}) == g && Handles(g, {}) == {}
  {
    assert EmptyAll(g, {}).transfers == g.transfers;
  }

  /** The loop of a close over its entries takes every handle there is. */
  lemma {:induction false} TakesAll(s: State, run: seq<Step>, i: nat, x: nat, left: set<nat>, joins: set<nat>)
      returns (trace: seq<Step>)
    requires Legal(s, run) && i < |Final(s, run).actors|
    requires Final(s, run).actors[i] == Closer(x, TakeEach(left, joins))
    ensures Legal(s, trace)
    ensures var f := Final(s, run);
            Final(s, trace) == State(EmptyAll(f.g, left),
                                     f.actors[i := Closer(x, TakeEach({}, joins + Handles(f.g, left)))])
    decreases left
  {
    var f := Final(s, run);
    hide Legal, Final;
    if left == {} {
      EmptyNone(f.g);
      assert joins + {} == joins && f.actors[i := f.actors[i]] == f.actors;
      trace := run;
    } else {
      var id :| id in left;
      var more := joins + Handles(f.g, {id});
      var next := State(Empty(f.g, id), f.actors[i := Closer(x, TakeEach(left - {id}, more))]);
      assert more == if HasHandle(f.g, id) then joins + {id} else joins;
      var one := Extend(s, run, TakeOne(i, id), next);
      trace := TakesAll(s, one, i, x, left - {id}, more);
      EmptyOneMore(f.g, left, id);
      assert more + Handles(next.g, left - {id}) == joins + Handles(f.g, left);
      assert next.actors[i := Closer(x, TakeEach({}, joins + Handles(f.g, left)))] ==
             f.actors[i := Closer(x, TakeEach({}, joins + Handles(f.g, left)))];
    }
  }

  /** The join loop ends when every task it waits for is over. */
  lemma {:induction false} JoinsAll(s: State, run: seq<Step>, i: nat, x: nat, waiting: set<nat>)
      returns (trace: seq<Step>)
    requires Legal(s, run) && i < |Final(s, run).actors| && Final(s, run).actors[i] == Closer(x, JoinEach(waiting))
    requires forall id | id in waiting :: id in Final(s, run).g.transfers && Final(s, run).g.transfers[id].over
    ensures Legal(s, trace)
    ensures Final(s, trace) == State(Final(s, run).g, Final(s, run).actors[i := Closer(x, JoinEach({}))])
    decreases waiting
  {
    var f := Final(s, run);
    hide Legal, Final;
    if waiting == {} {
      assert f.actors[i := f.actors[i]] == f.actors;
      trace := run;
    } else {
      var id :| id in waiting;
      var next := State(f.g, f.actors[i := Closer(x, JoinEach(waiting - {id}))]);
      var one := Extend(s, run, JoinOne(i, id), next);
      trace := JoinsAll(s, one, i, x, waiting - {id});
      assert next.actors[i := Closer(x, JoinEach({}))] == f.actors[i := Closer(x, JoinEach({}))];
    }
  }

  /** And the loop of a loss report empties every slot and keeps no handle. */
  lemma {:induction false} DropsAll(s: State, run: seq<Step>, i: nat, x: nat, drops: set<nat>)
      returns (trace: seq<Step>)
    requires Legal(s, run) && i < |Final(s, run).actors| && Final(s, run).actors[i] == Reporter(x, DropEach(drops))
    ensures Legal(s, trace)
    ensures Final(s, trace) == State(EmptyAll(Final(s, run).g, drops),
                                     Final(s, run).actors[i := Reporter(x, DropEach({}))])
    decreases drops
  {
    var f := Final(s, run);
    hide Legal, Final;
    if drops == {} {
      EmptyNone(f.g);
      assert f.actors[i := f.actors[i]] == f.actors;
      trace := run;
    } else {
      var id :| id in drops;
      var next := State(Empty(f.g, id), f.actors[i := Reporter(x, DropEach(drops - {id}))]);
      var one := Extend(s, run, DropOne(i, id), next);
      trace := DropsAll(s, one, i, x, drops - {id});
      EmptyOneMore(f.g, drops, id);
      assert next.actors[i := Reporter(x, DropEach({}))] == f.actors[i := Reporter(x, DropEach({}))];
    }
  }

  /** Undisturbed, a disconnect of a ready session on an open runtime unregisters it, empties every slot
      of its entries, joins each task whose handle was there, and ends. */
  lemma DisconnectAlone(s: State, i: nat, x: nat) returns (trace: seq<Step>)
    requires i < |s.actors| && s.actors[i] == Closer(x, EnsureOpen)
    requires Usable(s.g.sessions, x) && !s.g.gate.shuttingDown
    requires forall id | id in Entries(s.g, x) && HasHandle(s.g, id) :: s.g.transfers[id].over
    ensures Legal(s, trace)
    ensures Final(s, trace) ==
              State(EmptyAll(s.g, Entries(s.g, x)).(
                      sessions := s.g.sessions.(registry := s.g.sessions.registry - {x},
                                                states := s.g.sessions.states[x := Disconnecting])),
                    s.actors[i := Finished])
  {
    trace := [];
    assert Legal(s, trace) && Final(s, trace) == s;
    hide Legal, Final;
    var out := s.g.(sessions := s.g.sessions.(registry := s.g.sessions.registry - {x}));
    trace := Extend(s, trace, Act(i), s.(actors := s.actors[i := Closer(x, Remove)]));
    trace := Extend(s, trace, Act(i), State(out, s.actors[i := Closer(x, Swap)]));
    trace := ClosesAlone(s, trace, i, x, out);
    assert EmptyAll(out, Entries(out, x)).transfers == EmptyAll(s.g, Entries(s.g, x)).transfers;
  }

  /** So does a close task of shutdown, from its swap on. */
  lemma ClosesAlone(s: State, run: seq<Step>, i: nat, x: nat, g: Shared) returns (trace: seq<Step>)
    requires Legal(s, run) && i < |s.actors| && Final(s, run) == State(g, s.actors[i := Closer(x, Swap)])
    requires x in g.sessions.states && g.sessions.states[x] != Failed
    requires forall id | id in Entries(g, x) && HasHandle(g, id) :: g.transfers[id].over
    ensures Legal(s, trace)
    ensures Final(s, trace) ==
              State(EmptyAll(g, Entries(g, x)).(sessions := g.sessions.(states := g.sessions.states[x := Disconnecting])),
                    s.actors[i := Finished])
  {
    hide Legal, Final;
    var closing := g.(sessions := g.sessions.(states := g.sessions.states[x := Disconnecting]));
    var ids := Entries(g, x);
    assert Entries(closing, x) == ids && Handles(closing, ids) == Handles(g, ids);
    trace := Extend(s, run, Act(i), State(closing, s.actors[i := Closer(x, Collect)]));
    trace := Extend(s, trace, Act(i), State(closing, s.actors[i := Closer(x, TakeEach(ids, {}))]));
    trace := TakesAll(s, trace, i, x, ids, {});
    var emptied, joins := EmptyAll(closing, ids), {} + Handles(g, ids);
    assert Final(s, trace).actors == s.actors[i := Closer(x, TakeEach({}, joins))];
    trace := Extend(s, trace, Act(i), State(emptied, s.actors[i := Closer(x, JoinEach(joins))]));
    trace := JoinsAll(s, trace, i, x, joins);
    assert Final(s, trace).actors == s.actors[i := Closer(x, JoinEach({}))];
    trace := Extend(s, trace, Act(i), State(emptied, s.actors[i := Finished]));
    assert emptied.transfers == EmptyAll(g, ids).transfers;
  }

  /** Undisturbed, a loss report of a usable session fails it, empties every slot of its entries and
      waits for nobody. */
  lemma LossAlone(s: State, i: nat, x: nat) returns (trace: seq<Step>)
    requires i < |s.actors| && s.actors[i] == Reporter(x, Mark) && Usable(s.g.sessions, x)
    ensures Legal(s, trace)
    ensures Final(s, trace) ==
              State(EmptyAll(s.g, Entries(s.g, x)).(
                      sessions := s.g.sessions.(states := s.g.sessions.states[x := Failed])),
                    s.actors[i := Finished])
  {
    trace := [];
    assert Legal(s, trace) && Final(s, trace) == s;
    hide Legal, Final;
    var failed := s.g.(sessions := s.g.sessions.(states := s.g.sessions.states[x := Failed]));
    var ids := Entries(s.g, x);
    assert Entries(failed, x) == ids;
    trace := Extend(s, trace, Act(i), State(failed, s.actors[i := Reporter(x, Gather)]));
    trace := Extend(s, trace, Act(i), State(failed, s.actors[i := Reporter(x, DropEach(ids))]));
    trace := DropsAll(s, trace, i, x, ids);
    assert Final(s, trace).actors == s.actors[i := Reporter(x, DropEach({}))];
    trace := Extend(s, trace, Act(i), State(EmptyAll(failed, ids), s.actors[i := Finished]));
    assert EmptyAll(failed, ids).transfers == EmptyAll(s.g, ids).transfers;
  }

  /** The end of a task ends that task, an eviction takes that entry out of the registry, and only one
      that is emptied, or stored with its task over, can be evicted. */
  lemma EndsAndEvictions(s: State, id: nat)
    requires id in s.g.transfers
    ensures s.g.transfers[id].spawned ==>
              && Enabled(s, TaskEnds(id))
              && Do(s, TaskEnds(id)).g.transfers == s.g.transfers[id := s.g.transfers[id].(over := true)]
    ensures Enabled(s, Evict(id)) <==>
              && s.g.transfers[id].registered
              && (s.g.transfers[id].slot == Emptied || (HasHandle(s.g, id) && s.g.transfers[id].over))
    ensures Enabled(s, Evict(id)) ==>
              Do(s, Evict(id)).g.transfers == s.g.transfers[id := s.g.transfers[id].(registered := false)]
  {
  }
}
