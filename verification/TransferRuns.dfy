/** The transfer registry over whole runs: every interleaving of its critical sections, launchers
    spawning tasks and publishing their handles, and tasks finishing, which they may do before their
    handle is stored (crates/handshaker-application/src/transfer.rs, and `start_download` in
    runtime.rs beside it).

    `cancel` is the two sections `CancelToken` and `Transition`, `cancel_for_session` repeats those
    and `TakeHandle` for each of its entries; other calls may fall between any two of them. */
module TransferRuns {
  import opened Wrappers
  import opened TransferModel

  /** `pending` are the ids handed out and not yet registered, `launching` the registered ones whose
      launcher has yet to publish; `tasks` are all tasks spawned, by handle, with the id they work
      for; `done` those that have ended; `published` and `handed` the handles stored by launchers
      and given to closers so far. */
  datatype World = World(
    table: Table,
    next: nat,
    pending: set<nat>,
    launching: set<nat>,
    tasks: map<nat, nat>,
    done: set<nat>,
    published: set<nat>,
    handed: multiset<nat>)

  datatype Op =
    | Allocate
    | Register(snapshot: Snapshot, now: nat, kept: Table)
    | Spawn(id: nat, handle: nat)
    | PublishHandle(id: nat, handle: nat)
    | Move(id: nat, to: TransferState, now: nat)
    | Cancel(id: nat)
    | Take(id: nat)
    | ReapSlots
    | Progress(id: nat, transferred: nat, total: nat, now: nat)
    | Items(id: nat, completed: nat, failed: nat, current: Option<string>, now: nat)
    | Result(id: nat, result: BatchResult)
    | Error(id: nat, error: string)
    | TaskEnds(handle: nat)

  /** Registry settings. */
  datatype Limits = Limits(capacity: nat, ttl: Option<nat>)

  predicate Init(w: World) {
    w == World(map[], w.next, {}, {}, map[], {}, {}, multiset{})
  }

  /** `Register` takes a snapshot as `snapshot_for` builds it and any outcome the reaper allows; a
      launcher spawns one task and then publishes its handle, whether or not the task has ended;
      `transition` is never given `Queued`. */
  ghost predicate Enabled(w: World, lim: Limits, op: Op) {
    match op
    case Register(snap, now, kept) =>
      && snap.id in w.pending && snap.state == Queued && snap.finishedAt == None
      && Reaped(w.table[snap.id := NewEntry(snap)], kept, now, w.done, lim.capacity, lim.ttl)
    case Spawn(id, handle) =>
      id in w.launching && handle !in w.tasks && forall h | h in w.tasks :: w.tasks[h] != id
    case PublishHandle(id, handle) =>
      id in w.launching && handle in w.tasks && w.tasks[handle] == id && handle !in w.published
    case Move(_, to, _) => to != Queued
    case TaskEnds(handle) => handle in w.tasks
    case _ => true
  }

  function Apply(w: World, op: Op): World {
    match op
    case Allocate => w.(next := w.next + 1, pending := w.pending + {w.next})
    case Register(snap, _, kept) =>
      w.(table := kept, pending := w.pending - {snap.id}, launching := w.launching + {snap.id})
    case Spawn(id, handle) => w.(tasks := w.tasks[handle := id])
    case PublishHandle(id, handle) =>
      w.(table := Publish(w.table, id, handle), launching := w.launching - {id}, published := w.published + {handle})
    case Move(id, to, now) => w.(table := Transition(w.table, id, to, now))
    case Cancel(id) => w.(table := CancelToken(w.table, id))
    case Take(id) =>
      var handles := if id in w.table && w.table[id].slot.Published? then multiset{w.table[id].slot.handle} else multiset{};
      w.(table := TakeHandle(w.table, id), handed := w.handed + handles)
    case ReapSlots => w.(table := Reap(w.table, w.done))
    case Progress(id, transferred, total, now) => w.(table := SetProgress(w.table, id, transferred, total, now))
    case Items(id, completed, failed, current, now) =>
      w.(table := SetBatchItems(w.table, id, completed, failed, current, now))
    case Result(id, result) => w.(table := SetBatchResult(w.table, id, result))
    case Error(id, error) => w.(table := SetError(w.table, id, error))
    case TaskEnds(handle) => w.(done := w.done + {handle})
  }

  ghost predicate Legal(w: World, lim: Limits, run: seq<Op>)
    decreases |run|
  {
    run == [] || (Enabled(w, lim, run[0]) && Legal(Apply(w, run[0]), lim, run[1..]))
  }

  function Final(w: World, run: seq<Op>): World
    decreases |run|
  {
    if run == [] then w else Final(Apply(w, run[0]), run[1..])
  }

  // ---- lifecycle ----

  /** What the operations of a run do, in fields: cancelling marks the token, a transition sets the
      state, and the finish time with a terminal one, and leaves terminal states alone, a reap of the slots finishes
      those whose task is done, reports and errors are recorded whatever the state, a batch result only
      before the end; each touches its own entry alone.  A launch spawns one task. */
  lemma OpEffects(w: World, lim: Limits, op: Op, id: nat)
    requires Enabled(w, lim, op) && id in w.table && !op.Register?
    ensures id in Apply(w, op).table
    ensures var e, e' := w.table[id], Apply(w, op).table[id];
            match op {
              case Cancel(x) => e' == if x == id then e.(cancelled := true) else e
              case ReapSlots =>
                e' == if e.slot.Published? && e.slot.handle in w.done then e.(slot := Finished) else e
              case Progress(x, n, total, _) =>
                if x == id then e'.snapshot.transferredBytes == n && e'.snapshot.totalBytes == Some(total) else e' == e
              case Items(x, completed, failed, current, _) =>
                if x == id then e'.snapshot.completedItems == completed && e'.snapshot.failedItems == failed
                                && e'.snapshot.currentItem == current
                else e' == e
              case Result(x, result) =>
                e' == if x == id && e.snapshot.state !in {Completed, Failed, Cancelled}
                      then e.(snapshot := e.snapshot.(batchResult := Some(result))) else e
              case Error(x, error) => e' == if x == id then e.(snapshot := e.snapshot.(error := Some(error))) else e
              case Take(x) => e' == if x == id then e.(slot := Taken) else e
              case PublishHandle(x, handle) => e' == if x == id then e.(slot := Published(handle)) else e
              case Move(x, to, now) =>
                e' == if x != id || e.snapshot.state in {Completed, Failed, Cancelled} then e
                      else if to in {Completed, Failed, Cancelled}
                      then e.(snapshot := e.snapshot.(state := to, finishedAt := Some(now)))
                      else e.(snapshot := e.snapshot.(state := to))
              case _ => e' == e
            }
    ensures forall handle :: Enabled(w, lim, Spawn(id, handle)) <==>
              id in w.launching && handle !in w.tasks && id !in w.tasks.Values
    ensures op.TaskEnds? ==> op.handle in Apply(w, op).done
  {
  }

  predicate FinishedIffTerminal(e: Entry) {
    e.snapshot.finishedAt.Some? <==> Terminal(e.snapshot.state)
  }

  ghost predicate LifecycleInv(w: World) {
    && (forall id | id in w.table :: id < w.next && id !in w.pending && FinishedIffTerminal(w.table[id]))
    && (forall id | id in w.pending :: id < w.next)
  }

  /** One entry later in a run: the rank never falls, and a terminal state is frozen together with
      its finish time and batch result. */
  predicate Advanced(e: Snapshot, e': Snapshot) {
    && Rank(e.state) <= Rank(e'.state)
    && (Terminal(e.state) ==>
          e'.state == e.state && e'.finishedAt == e.finishedAt && e'.batchResult == e.batchResult)
  }

  /** Id `id` is registered, or was and cannot come back. */
  predicate Spent(w: World, id: nat) {
    id < w.next && id !in w.pending
  }

  lemma OpKeepsLifecycle(w: World, lim: Limits, op: Op)
    requires LifecycleInv(w) && Enabled(w, lim, op)
    ensures LifecycleInv(Apply(w, op))
  {
  }

  lemma OpAdvances(w: World, lim: Limits, op: Op, id: nat)
    requires LifecycleInv(w) && Enabled(w, lim, op) && Spent(w, id)
    ensures Spent(Apply(w, op), id)
    ensures id in Apply(w, op).table ==>
              id in w.table && Advanced(w.table[id].snapshot, Apply(w, op).table[id].snapshot)
  {
  }

  lemma {:induction false} RunAdvances(w: World, lim: Limits, run: seq<Op>, id: nat)
    requires LifecycleInv(w) && Legal(w, lim, run) && Spent(w, id)
    ensures LifecycleInv(Final(w, run)) && Spent(Final(w, run), id)
    ensures id in Final(w, run).table ==>
              id in w.table && Advanced(w.table[id].snapshot, Final(w, run).table[id].snapshot)
    decreases |run|
  {
    if run != [] {
      OpKeepsLifecycle(w, lim, run[0]);
      OpAdvances(w, lim, run[0], id);
      RunAdvances(Apply(w, run[0]), lim, run[1..], id);
    }
  }

  lemma {:induction false} RunKeepsLifecycle(w: World, lim: Limits, run: seq<Op>)
    requires LifecycleInv(w) && Legal(w, lim, run)
    ensures LifecycleInv(Final(w, run))
    decreases |run|
  {
    if run != [] {
      OpKeepsLifecycle(w, lim, run[0]);
      RunKeepsLifecycle(Apply(w, run[0]), lim, run[1..]);
    }
  }

  /** Transfer lifecycle over every run, late progress, batch and cancel calls included: an entry
      found now was there before, its rank has not fallen and a terminal state is frozen; and
      `finished_at_ms` is set exactly on terminal entries. */
  lemma LifecycleIsOneWay(w: World, lim: Limits, before: seq<Op>, after: seq<Op>, id: nat)
    requires Init(w) && Legal(w, lim, before) && Legal(Final(w, before), lim, after)
    requires var m := Final(w, before); id in m.table
    ensures var m := Final(w, before);
            var f := Final(m, after);
            && FinishedIffTerminal(m.table[id])
            && (id in f.table ==> Advanced(m.table[id].snapshot, f.table[id].snapshot))
  {
    RunKeepsLifecycle(w, lim, before);
    RunAdvances(Final(w, before), lim, after, id);
  }

  /** An evicted id never comes back. */
  lemma EvictionIsFinal(w: World, lim: Limits, before: seq<Op>, after: seq<Op>, id: nat)
    requires Init(w) && Legal(w, lim, before) && Legal(Final(w, before), lim, after)
    requires Spent(Final(w, before), id) && id !in Final(w, before).table
    ensures id !in Final(Final(w, before), after).table
  {
    RunKeepsLifecycle(w, lim, before);
    RunAdvances(Final(w, before), lim, after, id);
  }

  // ---- handle conservation ----

  predicate HeldAt(w: World, id: nat, handle: nat) {
    id in w.table && w.table[id].slot == Published(handle)
  }

  ghost predicate Held(w: World, handle: nat) {
    exists id :: HeldAt(w, id, handle)
  }

  /** A published handle whose task has not finished is in the slot of a registered entry, or was
      handed out exactly once; never both. */
  ghost predicate Conserved(w: World) {
    forall handle | handle in w.published && handle !in w.done ::
      if Held(w, handle) then w.handed[handle] == 0 else w.handed[handle] == 1
  }

  /** `Conserved` in every state of the run. */
  ghost predicate AlwaysConserved(w: World, run: seq<Op>)
    decreases |run|
  {
    Conserved(w) && (run != [] ==> AlwaysConserved(Apply(w, run[0]), run[1..]))
  }

  predicate Lands(w: World, id: nat, handle: nat) {
    id in w.table || handle in w.done
  }

  /** Every launcher that publishes finds its entry still registered, or its task already over. */
  predicate PublishesLand(w: World, run: seq<Op>)
    decreases |run|
  {
    run == [] || ((run[0].PublishHandle? ==> Lands(w, run[0].id, run[0].handle))
                  && PublishesLand(Apply(w, run[0]), run[1..]))
  }

  /** No `cancel_for_session` takes the slot of an entry between register and publish. */
  predicate Disciplined(w: World, run: seq<Op>)
    decreases |run|
  {
    run == [] || ((run[0].Take? ==> run[0].id !in w.launching) && Disciplined(Apply(w, run[0]), run[1..]))
  }

  ghost predicate SlotsInv(w: World) {
    && (forall id | id in w.table && id in w.launching :: w.table[id].slot == Reserved || w.table[id].slot == Taken)
    && (forall id, handle | HeldAt(w, id, handle) :: handle in w.published && w.handed[handle] == 0)
    && (forall i, j, handle | HeldAt(w, i, handle) && HeldAt(w, j, handle) :: i == j)
    && (forall handle | handle in w.handed :: handle in w.published && w.handed[handle] == 1)
    && w.published <= w.tasks.Keys
  }

  /** A stored handle was stored before, by this very publication otherwise; taking empties a slot. */
  lemma SlotOrigin(w: World, lim: Limits, op: Op, id: nat, handle: nat)
    requires LifecycleInv(w) && Enabled(w, lim, op) && HeldAt(Apply(w, op), id, handle)
    ensures HeldAt(w, id, handle) || op == PublishHandle(id, handle)
    ensures op != Take(id)
  {
  }

  lemma LaunchingSlots(w: World, lim: Limits, op: Op, id: nat)
    requires LifecycleInv(w) && Enabled(w, lim, op)
    requires id in w.table && id in w.launching ==> w.table[id].slot == Reserved || w.table[id].slot == Taken
    requires id in Apply(w, op).table && id in Apply(w, op).launching
    ensures Apply(w, op).table[id].slot == Reserved || Apply(w, op).table[id].slot == Taken
  {
  }

  lemma StoredIsOnlyStored(w: World, lim: Limits, op: Op, id: nat, handle: nat)
    requires LifecycleInv(w) && SlotsInv(w) && Enabled(w, lim, op) && HeldAt(Apply(w, op), id, handle)
    ensures handle in Apply(w, op).published && Apply(w, op).handed[handle] == 0
  {
    assert op.Take? && op.id in w.table && w.table[op.id].slot == Published(handle) ==> HeldAt(w, op.id, handle);
    SlotOrigin(w, lim, op, id, handle);
  }

  lemma HandedWasStored(w: World, lim: Limits, op: Op, handle: nat)
    requires SlotsInv(w) && Enabled(w, lim, op) && handle in Apply(w, op).handed
    ensures handle in Apply(w, op).published && Apply(w, op).handed[handle] == 1
  {
    if op.Take? && op.id in w.table && w.table[op.id].slot.Published? {
      assert HeldAt(w, op.id, w.table[op.id].slot.handle);
    }
  }

  lemma OpKeepsSlots(w: World, lim: Limits, op: Op)
    requires LifecycleInv(w) && SlotsInv(w) && Enabled(w, lim, op)
    ensures SlotsInv(Apply(w, op))
  {
    var w' := Apply(w, op);
    assert w'.published <= w'.tasks.Keys;
    forall id | id in w'.table && id in w'.launching
      ensures w'.table[id].slot == Reserved || w'.table[id].slot == Taken
    {
      LaunchingSlots(w, lim, op, id);
    }
    forall id, handle | HeldAt(w', id, handle)
      ensures HeldAt(w, id, handle) || op == PublishHandle(id, handle)
      ensures handle in w'.published && w'.handed[handle] == 0
    {
      SlotOrigin(w, lim, op, id, handle);
      StoredIsOnlyStored(w, lim, op, id, handle);
    }
    forall handle | handle in w'.handed ensures handle in w'.published && w'.handed[handle] == 1 {
      HandedWasStored(w, lim, op, handle);
    }
    forall i, j, handle | HeldAt(w', i, handle) && HeldAt(w', j, handle) ensures i == j {
      SlotOrigin(w, lim, op, i, handle);
      SlotOrigin(w, lim, op, j, handle);
    }
  }

  /** Only taking empties the slot of an unfinished task. */
  lemma SlotStays(w: World, lim: Limits, op: Op, id: nat, handle: nat)
    requires LifecycleInv(w) && SlotsInv(w) && Enabled(w, lim, op)
    requires HeldAt(w, id, handle) && handle !in Apply(w, op).done && op != Take(id)
    ensures HeldAt(Apply(w, op), id, handle)
  {
  }

  lemma OpConserves(w: World, lim: Limits, op: Op)
    requires LifecycleInv(w) && SlotsInv(w) && Conserved(w) && Enabled(w, lim, op)
    requires op.PublishHandle? ==> Lands(w, op.id, op.handle)
    ensures Conserved(Apply(w, op))
  {
    var w' := Apply(w, op);
    forall handle | handle in w'.published && handle !in w'.done
      ensures if Held(w', handle) then w'.handed[handle] == 0 else w'.handed[handle] == 1
    {
      var taken := op.Take? && op.id in w.table && w.table[op.id].slot == Published(handle);
      assert taken ==> HeldAt(w, op.id, handle);
      if op.PublishHandle? && op.handle == handle {
        assert op.id in w.table && HeldAt(w', op.id, handle);
      } else if id :| HeldAt(w, id, handle) && op != Take(id) {
        SlotStays(w, lim, op, id, handle);
      } else {
        if i :| HeldAt(w', i, handle) {
          SlotOrigin(w, lim, op, i, handle);
        }
        assert taken || !Held(w, handle);
      }
    }
  }

  /** Publishing the handle of a live task into an evicted entry loses it at once. */
  lemma MissedPublishLoses(w: World, lim: Limits, id: nat, handle: nat)
    requires LifecycleInv(w) && SlotsInv(w) && Enabled(w, lim, PublishHandle(id, handle)) && !Lands(w, id, handle)
    ensures !Conserved(Apply(w, PublishHandle(id, handle)))
  {
    var w' := Apply(w, PublishHandle(id, handle));
    assert w'.table == w.table && w'.handed == w.handed;
    assert !Held(w', handle) by {
      if Held(w', handle) {
        var i :| HeldAt(w', i, handle);
        assert HeldAt(w, i, handle);
      }
    }
  }

  lemma {:induction false} RunConservesIff(w: World, lim: Limits, run: seq<Op>)
    requires LifecycleInv(w) && SlotsInv(w) && Conserved(w) && Legal(w, lim, run)
    ensures AlwaysConserved(w, run) <==> PublishesLand(w, run)
    decreases |run|
  {
    if run != [] {
      var op := run[0];
      if op.PublishHandle? && !Lands(w, op.id, op.handle) {
        MissedPublishLoses(w, lim, op.id, op.handle);
        assert !AlwaysConserved(Apply(w, op), run[1..]);
      } else {
        OpKeepsLifecycle(w, lim, op);
        OpKeepsSlots(w, lim, op);
        OpConserves(w, lim, op);
        RunConservesIff(Apply(w, op), lim, run[1..]);
      }
    }
  }

  /** Task-handle conservation, exactly: in any run, no state loses or duplicates the handle of an
      unfinished task if and only if every launcher, when it published, found its entry registered or
      its task already over. */
  lemma HandlesConservedIff(w: World, lim: Limits, run: seq<Op>)
    requires Init(w) && Legal(w, lim, run)
    ensures AlwaysConserved(w, run) <==> PublishesLand(w, run)
  {
    RunConservesIff(w, lim, run);
  }

  /** An entry whose launch is under way and whose slot nobody took is registered. */
  ghost predicate LaunchInv(w: World) {
    && (forall id | id in w.launching :: id in w.table && w.table[id].slot == Reserved)
    && (forall id | id in w.pending :: id !in w.launching)
  }

  lemma OpKeepsLaunch(w: World, lim: Limits, op: Op)
    requires LifecycleInv(w) && LaunchInv(w) && Enabled(w, lim, op)
    requires op.Take? ==> op.id !in w.launching
    ensures LaunchInv(Apply(w, op))
  {
    var w' := Apply(w, op);
    forall id | id in w'.launching ensures id in w'.table && w'.table[id].slot == Reserved {
      LaunchStays(w, lim, op, id);
    }
    assert forall id | id in w.launching :: id < w.next;
  }

  lemma LaunchStays(w: World, lim: Limits, op: Op, id: nat)
    requires LifecycleInv(w) && LaunchInv(w) && Enabled(w, lim, op) && id in Apply(w, op).launching
    requires op.Take? ==> op.id !in w.launching
    ensures id in Apply(w, op).table && Apply(w, op).table[id].slot == Reserved
  {
  }

  lemma {:induction false} DisciplineLands(w: World, lim: Limits, run: seq<Op>)
    requires LifecycleInv(w) && LaunchInv(w) && Legal(w, lim, run) && Disciplined(w, run)
    ensures PublishesLand(w, run)
    decreases |run|
  {
    if run != [] {
      OpKeepsLifecycle(w, lim, run[0]);
      OpKeepsLaunch(w, lim, run[0]);
      DisciplineLands(Apply(w, run[0]), lim, run[1..]);
    }
  }

  /** Hence eviction, reaping and closing never lose a live handle, as long as no
      `cancel_for_session` reaches an entry between its registration and its publication. */
  lemma DisciplineConserves(w: World, lim: Limits, run: seq<Op>)
    requires Init(w) && Legal(w, lim, run) && Disciplined(w, run)
    ensures AlwaysConserved(w, run)
  {
    DisciplineLands(w, lim, run);
    RunConservesIff(w, lim, run);
  }

  function Fresh(id: nat): Snapshot {
    Snapshot(id, 0, Download, "", "", Queued, 0, None, Some(0), None, None, 0, 0, 0, None, None)
  }

  /** Transfer 0 after its session was closed between register and publish. */
  function ClosedEarly(): World {
    var e := NewEntry(Fresh(0).(state := Cancelled, finishedAt := Some(5))).(slot := Taken);
    World(map[0 := e], 1, {}, {0}, map[], {}, {}, multiset{})
  }

  /** One more operation in front of a run that misses a publish. */
  lemma StepInFront(w: World, lim: Limits, op: Op, rest: seq<Op>)
    requires Enabled(w, lim, op) && Legal(Apply(w, op), lim, rest) && !PublishesLand(Apply(w, op), rest)
    ensures Legal(w, lim, [op] + rest) && !PublishesLand(w, [op] + rest)
  {
    assert ([op] + rest)[1..] == rest;
  }

  lemma ClosedEarlyHappens(w: World, lim: Limits, rest: seq<Op>) returns (run: seq<Op>)
    requires w == World(map[], 0, {}, {}, map[], {}, {}, multiset{}) && lim == Limits(1, None)
    requires Legal(ClosedEarly(), lim, rest) && !PublishesLand(ClosedEarly(), rest)
    ensures Legal(w, lim, run) && !PublishesLand(w, run)
  {
    hide Legal, PublishesLand;
    var e := NewEntry(Fresh(0));
    var register := Register(Fresh(0), 0, map[0 := e]);
    var w1 := Apply(w, Allocate);
    var w2 := Apply(w1, register);
    var w3 := Apply(w2, Move(0, Cancelled, 5));
    assert Unexpired(map[0 := e], 0, {}, None) == map[0 := e];
    assert Enabled(w1, lim, register);
    assert Apply(w3, Take(0)) == ClosedEarly();
    hide Apply, Reaped, ClosedEarly;
    StepInFront(w3, lim, Take(0), rest);
    StepInFront(w2, lim, Move(0, Cancelled, 5), [Take(0)] + rest);
    StepInFront(w1, lim, register, [Move(0, Cancelled, 5)] + ([Take(0)] + rest));
    run := [Allocate] + ([register] + ([Move(0, Cancelled, 5)] + ([Take(0)] + rest)));
    StepInFront(w, lim, Allocate, [register] + ([Move(0, Cancelled, 5)] + ([Take(0)] + rest)));
  }

  /** A full registry evicts the closed entry, for the new one. */
  lemma FullEvicts(full: Table, e1: Entry)
    requires full == ClosedEarly().table[1 := e1] && e1 == NewEntry(Fresh(1))
    ensures Reaped(full, map[1 := e1], 6, {}, 1, None)
  {
    assert Unexpired(full, 6, {}, None) == full;
    assert Evictable(full, {}) == {0};
    assert full.Keys == {0, 1} && |full| == 2;
  }

  lemma EvictedThenPublished(lim: Limits) returns (rest: seq<Op>)
    requires lim == Limits(1, None)
    ensures Legal(ClosedEarly(), lim, rest) && !PublishesLand(ClosedEarly(), rest)
  {
    var e1 := NewEntry(Fresh(1));
    var register, spawn, publish := Register(Fresh(1), 6, map[1 := e1]), Spawn(0, 9), PublishHandle(0, 9);
    var w := ClosedEarly();
    var w1 := Apply(w, Allocate);
    FullEvicts(w1.table[1 := e1], e1);
    hide Reaped;
    var w2 := Apply(w1, register);
    var w3 := Apply(w2, spawn);
    assert Legal(Apply(w3, publish), lim, []) && !Lands(w3, 0, 9);
    assert Enabled(w3, lim, publish) && Enabled(w2, lim, spawn) && Enabled(w1, lim, register);
    assert [publish][1..] == [];
    assert Legal(w3, lim, [publish]) && !PublishesLand(w3, [publish]);
    hide Apply, Legal, PublishesLand, Enabled;
    StepInFront(w2, lim, spawn, [publish]);
    StepInFront(w1, lim, register, [spawn] + [publish]);
    rest := [Allocate] + ([register] + ([spawn] + [publish]));
    assert Enabled(w, lim, Allocate) by { AllocateEnabled(w, lim); }
    StepInFront(w, lim, Allocate, [register] + ([spawn] + [publish]));
  }

  lemma AllocateEnabled(w: World, lim: Limits)
    ensures Enabled(w, lim, Allocate)
  {
  }

  /** Without that discipline a handle can go missing: the session is closed between register and
      publish, a full registry evicts the entry, and the publication finds it gone and its task at
      work. */
  lemma UndisciplinedTakeLosesHandle() returns (w: World, lim: Limits, run: seq<Op>)
    ensures Init(w) && Legal(w, lim, run) && !PublishesLand(w, run) && !AlwaysConserved(w, run)
  {
    w, lim := World(map[], 0, {}, {}, map[], {}, {}, multiset{}), Limits(1, None);
    var rest := EvictedThenPublished(lim);
    run := ClosedEarlyHappens(w, lim, rest);
    HandlesConservedIff(w, lim, run);
  }
}
