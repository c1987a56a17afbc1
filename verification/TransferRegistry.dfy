/** `TransferRegistry` as the program has it: an object whose methods update the entry map
    (crates/handshaker-application/src/transfer.rs).  Every method is proved against the functions
    of TransferModel.dfy, whose run properties are in TransferRuns.dfy. */
module TransferRegistry {
  import opened Wrappers
  import opened TransferModel

  datatype Error = TransferNotFound

  /** `order` lists each id of `ids` once: the order in which a hash map happens to be walked. */
  ghost predicate Enumerates(order: seq<nat>, ids: set<nat>) {
    && (forall i, j | 0 <= i < j < |order| :: order[i] != order[j])
    && (forall id :: id in order <==> id in ids)
  }

  function OfSession(t: Table, session: nat): set<nat> {
    set id | id in t && t[id].snapshot.session == session
  }

  /** Nothing but this entry has changed. */
  ghost predicate OnlyAt(t: Table, t': Table, id: nat) {
    t'.Keys == t.Keys && forall other | other in t && other != id :: t'[other] == t[other]
  }

  /** What closing its session does to an entry. */
  function ClosedEntry(e: Entry, now: nat): Entry {
    var snap :=
      if Terminal(e.snapshot.state) then e.snapshot
      else e.snapshot.(state := Cancelled, finishedAt := Some(now));
    Entry(snap, true, Taken, e.throttle)
  }

  /** Oldest first: whatever has gone from `mid` finished no later than what could still go. */
  ghost predicate OldestGone(mid: Table, t: Table, done: set<nat>) {
    forall gone, kept | gone in mid && gone !in t && kept in mid && kept in t
                        && CanEvict(mid[gone], done) && CanEvict(mid[kept], done) ::
      mid[gone].snapshot.finishedAt.value <= mid[kept].snapshot.finishedAt.value
  }

  /** The capacity phase under way. */
  ghost predicate Trimming(mid: Table, t: Table, done: set<nat>, capacity: nat) {
    && t.Keys <= mid.Keys
    && (forall id | id in t :: t[id] == mid[id])
    && (forall id | id in mid && id !in t :: CanEvict(mid[id], done))
    && OldestGone(mid, t, done)
    && |mid| - |t| == |Evictable(mid, done)| - |Evictable(t, done)|
    && (if |mid| <= capacity then t == mid else |t| >= capacity)
  }

  lemma TrimStart(mid: Table, done: set<nat>, capacity: nat)
    ensures Trimming(mid, mid, done, capacity)
  {
  }

  lemma TrimEnd(mid: Table, t: Table, done: set<nat>, capacity: nat)
    requires Trimming(mid, t, done, capacity) && (|t| <= capacity || Evictable(t, done) == {})
    ensures Trimmed(mid, t, done, capacity)
  {
    assert |Evictable(t, done)| >= 0;
  }

  lemma TrimStep(mid: Table, t: Table, oldest: nat, done: set<nat>, capacity: nat)
    requires Trimming(mid, t, done, capacity) && |t| > capacity && oldest in Evictable(t, done)
    requires forall id | id in Evictable(t, done) ::
               t[oldest].snapshot.finishedAt.value <= t[id].snapshot.finishedAt.value
    ensures Trimming(mid, t - {oldest}, done, capacity)
    ensures |t - {oldest}| < |t|
  {
    var t' := t - {oldest};
    assert t'.Keys == t.Keys - {oldest} && |t'| == |t'.Keys| && |t| == |t.Keys|;
    assert Evictable(t', done) == Evictable(t, done) - {oldest};
    forall gone, kept | gone in mid && gone !in t' && kept in t' && CanEvict(mid[gone], done) && CanEvict(mid[kept], done)
      ensures mid[gone].snapshot.finishedAt.value <= mid[kept].snapshot.finishedAt.value
    {
      assert kept in Evictable(t, done);
    }
  }

  /** Every entry of the session closed, every other entry untouched. */
  function SessionClosed(t: Table, session: nat, now: nat): Table {
    map id | id in t :: if t[id].snapshot.session == session then ClosedEntry(t[id], now) else t[id]
  }

  /** Closing an entry is the three critical sections of `cancel_for_session`, one after the other. */
  lemma ClosedByThreeSections(t: Table, id: nat, now: nat)
    requires id in t
    ensures TakeHandle(Transition(CancelToken(t, id), id, Cancelled, now), id) == t[id := ClosedEntry(t[id], now)]
  {
  }

  /** The handles stored in these entries, in this order. */
  function HandlesOf(t: Table, order: seq<nat>): seq<nat> {
    if order == [] then []
    else
      var id := order[|order| - 1];
      HandlesOf(t, order[..|order| - 1])
      + if id in t && t[id].slot.Published? then [t[id].slot.handle] else []
  }

  /** The terminal events closing them publishes. */
  function UpdatesOf(t: Table, order: seq<nat>, now: nat): seq<Snapshot> {
    if order == [] then []
    else
      var id := order[|order| - 1];
      UpdatesOf(t, order[..|order| - 1], now)
      + if id in t && !Terminal(t[id].snapshot.state) then [ClosedEntry(t[id], now).snapshot] else []
  }

  /** The entries of `closed` are closed, all others as they were. */
  ghost predicate ClosedSoFar(before: Table, t: Table, closed: seq<nat>, now: nat) {
    && t.Keys == before.Keys
    && forall id | id in t :: t[id] == if id in closed then ClosedEntry(before[id], now) else before[id]
  }

  lemma CloseStep(before: Table, t: Table, closed: seq<nat>, id: nat, now: nat)
    requires ClosedSoFar(before, t, closed, now) && id in before && id !in closed
    ensures t[id] == before[id]
    ensures ClosedSoFar(before, t[id := ClosedEntry(t[id], now)], closed + [id], now)
    ensures HandlesOf(before, closed + [id]) ==
              HandlesOf(before, closed) + if t[id].slot.Published? then [t[id].slot.handle] else []
    ensures UpdatesOf(before, closed + [id], now) ==
              UpdatesOf(before, closed, now) +
              if Terminal(t[id].snapshot.state) then [] else [ClosedEntry(t[id], now).snapshot]
  {
    assert (closed + [id])[..|closed|] == closed;
  }

  lemma AppendTwice<T>(a: seq<T>, b: seq<T>, c: seq<T>)
    requires b <= c
    ensures a + c == a + b + c[|b|..]
  {
  }

  lemma ClosedAll(before: Table, t: Table, order: seq<nat>, session: nat, now: nat)
    requires ClosedSoFar(before, t, order, now) && Enumerates(order, OfSession(before, session))
    ensures t == SessionClosed(before, session, now)
  {
    assert forall id | id in before :: id in order <==> id in OfSession(before, session);
  }

  /** Every stored handle is returned, and none more often than it is stored. */
  lemma {:induction false} HandlesAreAll(t: Table, order: seq<nat>)
    ensures forall h :: h in HandlesOf(t, order) <==>
                          exists k :: 0 <= k < |order| && order[k] in t && t[order[k]].slot == Published(h)
  {
    if order != [] {
      var n := |order| - 1;
      var front := order[..n];
      HandlesAreAll(t, front);
      forall h ensures h in HandlesOf(t, order) <==>
                         exists k :: 0 <= k < |order| && order[k] in t && t[order[k]].slot == Published(h)
      {
        if k :| 0 <= k < |order| && order[k] in t && t[order[k]].slot == Published(h) {
          if k < n {
            assert front[k] == order[k];
          }
        }
        if h in HandlesOf(t, front) {
          var k :| 0 <= k < n && front[k] in t && t[front[k]].slot == Published(h);
          assert order[k] == front[k];
        }
      }
    }
  }

  /** Every entry that was not terminal has its update published. */
  lemma {:induction false} UpdatesAreAll(t: Table, order: seq<nat>, now: nat)
    ensures forall e :: e in UpdatesOf(t, order, now) <==>
                          exists k :: 0 <= k < |order| && order[k] in t && !Terminal(t[order[k]].snapshot.state)
                                      && e == t[order[k]].snapshot.(state := Cancelled, finishedAt := Some(now))
  {
    if order != [] {
      var n := |order| - 1;
      var front := order[..n];
      UpdatesAreAll(t, front, now);
      forall e ensures e in UpdatesOf(t, order, now) <==>
                         exists k :: 0 <= k < |order| && order[k] in t && !Terminal(t[order[k]].snapshot.state)
                                     && e == t[order[k]].snapshot.(state := Cancelled, finishedAt := Some(now))
      {
        if k :| 0 <= k < |order| && order[k] in t && !Terminal(t[order[k]].snapshot.state)
                && e == t[order[k]].snapshot.(state := Cancelled, finishedAt := Some(now)) {
          if k < n {
            assert front[k] == order[k];
          }
        }
        if e in UpdatesOf(t, front, now) {
          var k :| 0 <= k < n && front[k] in t && !Terminal(t[front[k]].snapshot.state)
                   && e == t[front[k]].snapshot.(state := Cancelled, finishedAt := Some(now));
          assert order[k] == front[k];
        }
      }
    }
  }

  class TransferRegistry {
    var transfers: Table
    var nextId: nat
    const capacity: nat
    const ttl: Option<nat>
    /** The `TransferUpdated` events published so far. */
    var events: seq<Snapshot>

    constructor (historyCapacity: nat, historyTtl: Option<nat>)
      ensures transfers == map[] && nextId == 1 && events == []
      ensures capacity == Max(historyCapacity, 1) && ttl == historyTtl
    {
      transfers, nextId, events := map[], 1, [];
      capacity, ttl := Max(historyCapacity, 1), historyTtl;
    }

    method SnapshotFor(session: nat, direction: Direction, source: string, destination: string, now: nat)
        returns (snap: Snapshot)
      modifies this`nextId
      ensures snap.id == old(nextId) && nextId == old(nextId) + 1
      ensures snap.session == session && snap.direction == direction
      ensures snap.source == source && snap.destination == destination
      ensures snap.state == Queued && snap.startedAt == Some(now) && snap.finishedAt == None && snap.error == None
      ensures snap.transferredBytes == 0 && snap.totalBytes == None && snap.batchResult == None
      ensures snap.itemCount == snap.completedItems == snap.failedItems == 0 && snap.currentItem == None
    {
      snap := Snapshot(nextId, session, direction, source, destination, Queued, 0, None, Some(now), None, None,
                       0, 0, 0, None, None);
      nextId := nextId + 1;
    }

    method Register(snapshot: Snapshot, now: nat, done: set<nat>)
      modifies this`transfers
      ensures Reaped(old(transfers)[snapshot.id := NewEntry(snapshot)], transfers, now, done, capacity, ttl)
      ensures ReapedByAge(old(transfers)[snapshot.id := NewEntry(snapshot)], transfers, now, done, capacity, ttl)
      ensures snapshot.id in transfers && transfers[snapshot.id] == Entry(snapshot, false, Reserved, Throttle(0, 0))
    {
      transfers := transfers[snapshot.id := NewEntry(snapshot)];
      ReapLocked(now, done);
    }

    /** The evictable entry that finished first; among equals, whichever is met first. */
    method OldestFinished(done: set<nat>) returns (oldest: Option<nat>)
      ensures oldest.None? <==> Evictable(transfers, done) == {}
      ensures oldest.Some? ==>
                && oldest.value in Evictable(transfers, done)
                && forall id | id in Evictable(transfers, done) ::
                     transfers[oldest.value].snapshot.finishedAt.value <= transfers[id].snapshot.finishedAt.value
    {
      oldest := None;
      var rest := transfers.Keys;
      while rest != {}
        invariant rest <= transfers.Keys
        invariant oldest.None? ==> forall id | id in transfers && id !in rest :: !CanEvict(transfers[id], done)
        invariant oldest.Some? ==>
                    && oldest.value in Evictable(transfers, done)
                    && forall id | id in Evictable(transfers, done) && id !in rest ::
                         transfers[oldest.value].snapshot.finishedAt.value <= transfers[id].snapshot.finishedAt.value
        decreases rest
      {
        var id :| id in rest;
        rest := rest - {id};
        if CanEvict(transfers[id], done) {
          if oldest.None?
             || transfers[id].snapshot.finishedAt.value < transfers[oldest.value].snapshot.finishedAt.value {
            oldest := Some(id);
          }
        }
      }
    }

    method ReapLocked(now: nat, done: set<nat>)
      modifies this`transfers
      ensures Reaped(old(transfers), transfers, now, done, capacity, ttl)
      ensures ReapedByAge(old(transfers), transfers, now, done, capacity, ttl)
    {
      hide ReapedByAge, Trimmed, Trimming, Evictable;
      ghost var before := transfers;
      ghost var mid := Unexpired(transfers, now, done, ttl);
      if ttl.Some? {
        transfers := Unexpired(transfers, now, done, ttl);
      }
      assert transfers == mid;
      TrimStart(mid, done, capacity);
      while |transfers| > capacity
        invariant Trimming(mid, transfers, done, capacity)
        decreases |transfers|
      {
        var oldest := OldestFinished(done);
        if oldest.None? {
          break;
        }
        TrimStep(mid, transfers, oldest.value, done, capacity);
        transfers := transfers - {oldest.value};
      }
      TrimEnd(mid, transfers, done, capacity);
      ReapByAge(before, transfers, now, done, capacity, ttl);
    }

    method Get(id: nat) returns (r: Result<Snapshot, Error>)
      ensures r.Ok? <==> id in transfers
      ensures r.Ok? ==> r.value == transfers[id].snapshot
    {
      r := if id in transfers then Ok(transfers[id].snapshot) else Err(TransferNotFound);
    }

    method TransitionTo(id: nat, next: TransferState, now: nat) returns (r: Option<Snapshot>)
      modifies this`transfers
      ensures transfers == Transition(old(transfers), id, next, now)
      ensures OnlyAt(old(transfers), transfers, id)
      ensures id in transfers ==>
                var e := old(transfers)[id];
                transfers[id] ==
                  if e.snapshot.state in {Completed, Failed, Cancelled} then e
                  else if next in {Completed, Failed, Cancelled} then
                    e.(snapshot := e.snapshot.(state := next, finishedAt := Some(now)))
                  else e.(snapshot := e.snapshot.(state := next))
      ensures r == if id in transfers then Some(transfers[id].snapshot) else None
    {
      if id !in transfers {
        return None;
      }
      var snapshot := transfers[id].snapshot;
      if !Terminal(snapshot.state) {
        snapshot := snapshot.(state := next);
        if next == Completed || next == Failed || next == Cancelled {
          snapshot := snapshot.(finishedAt := Some(now));
        }
        transfers := transfers[id := transfers[id].(snapshot := snapshot)];
      }
      r := Some(snapshot);
    }

    /** Idempotent; a missing id is the one error.  The entry ends terminal and its event is out. */
    method Cancel(id: nat, now: nat) returns (r: Result<(), Error>)
      modifies this`transfers, this`events
      ensures r.Ok? <==> id in old(transfers)
      ensures transfers == Transition(CancelToken(old(transfers), id), id, Cancelled, now)
      ensures events == if r.Ok? then old(events) + [transfers[id].snapshot] else old(events)
      ensures OnlyAt(old(transfers), transfers, id)
      ensures r.Ok? ==>
                var e := old(transfers)[id];
                transfers[id] ==
                  if e.snapshot.state in {Completed, Failed, Cancelled} then e.(cancelled := true)
                  else e.(cancelled := true, snapshot := e.snapshot.(state := Cancelled, finishedAt := Some(now)))
    {
      if id !in transfers {
        return Err(TransferNotFound);
      }
      transfers := transfers[id := transfers[id].(cancelled := true)];
      var snapshot := TransitionTo(id, Cancelled, now);
      if snapshot.Some? {
        events := events + [snapshot.value];
      }
      r := Ok(());
    }

    /** One entry of a closing session: cancel the token, transition, take the handle. */
    method CloseEntry(id: nat, now: nat) returns (join: Option<nat>)
      requires id in transfers
      modifies this`transfers, this`events
      ensures transfers == old(transfers)[id := ClosedEntry(old(transfers)[id], now)]
      ensures var e := old(transfers)[id];
              transfers[id] ==
                if e.snapshot.state in {Completed, Failed, Cancelled} then e.(cancelled := true, slot := Taken)
                else e.(cancelled := true, slot := Taken,
                        snapshot := e.snapshot.(state := Cancelled, finishedAt := Some(now)))
      ensures join == if old(transfers)[id].slot.Published? then Some(old(transfers)[id].slot.handle) else None
      ensures events == old(events) +
                if Terminal(old(transfers)[id].snapshot.state) then [] else [transfers[id].snapshot]
    {
      var terminal := Terminal(transfers[id].snapshot.state);
      transfers := transfers[id := transfers[id].(cancelled := true)];
      if !terminal {
        var snapshot := TransitionTo(id, Cancelled, now);
        if snapshot.Some? {
          events := events + [snapshot.value];
        }
      }
      var slot := transfers[id].slot;
      join := if slot.Published? then Some(slot.handle) else None;
      transfers := transfers[id := transfers[id].(slot := Taken)];
    }

    method IdsOfSession(session: nat) returns (ids: seq<nat>)
      ensures Enumerates(ids, OfSession(transfers, session))
    {
      ids := [];
      var rest := OfSession(transfers, session);
      while rest != {}
        invariant rest <= OfSession(transfers, session)
        invariant Enumerates(ids, OfSession(transfers, session) - rest)
        decreases rest
      {
        var id :| id in rest;
        ids, rest := ids + [id], rest - {id};
      }
      assert OfSession(transfers, session) - rest == OfSession(transfers, session);
    }

    /** Closes every entry of the session and hands over each handle stored in one of them. */
    method CancelForSession(session: nat, now: nat) returns (joins: seq<nat>, ghost order: seq<nat>)
      modifies this`transfers, this`events
      ensures Enumerates(order, OfSession(old(transfers), session))
      ensures transfers == SessionClosed(old(transfers), session, now)
      ensures joins == HandlesOf(old(transfers), order)
      ensures events == old(events) + UpdatesOf(old(transfers), order, now)
      ensures transfers.Keys == old(transfers).Keys
      ensures forall id | id in transfers && old(transfers)[id].snapshot.session != session ::
                transfers[id] == old(transfers)[id]
      ensures forall id | id in transfers && old(transfers)[id].snapshot.session == session ::
                var e := old(transfers)[id];
                transfers[id] ==
                  if e.snapshot.state in {Completed, Failed, Cancelled} then e.(cancelled := true, slot := Taken)
                  else e.(cancelled := true, slot := Taken,
                          snapshot := e.snapshot.(state := Cancelled, finishedAt := Some(now)))
      ensures forall h :: h in joins <==>
                            exists id :: id in old(transfers) && old(transfers)[id].snapshot.session == session
                                         && old(transfers)[id].slot == Published(h)
      ensures forall id | id in transfers ::
                old(transfers)[id].snapshot.session == session
                && old(transfers)[id].snapshot.state !in {Completed, Failed, Cancelled}
                ==> transfers[id].snapshot in events[|old(events)|..]
    {
      ghost var before := transfers;
      var ids := IdsOfSession(session);
      joins := CloseEach(ids, session, now);
      order := ids;
      HandlesAreAll(before, ids);
      UpdatesAreAll(before, ids, now);
      ClosedAll(before, transfers, ids, session, now);
    }

    method CloseEach(ids: seq<nat>, session: nat, now: nat) returns (joins: seq<nat>)
      requires Enumerates(ids, OfSession(transfers, session))
      modifies this`transfers, this`events
      ensures ClosedSoFar(old(transfers), transfers, ids, now)
      ensures joins == HandlesOf(old(transfers), ids)
      ensures events == old(events) + UpdatesOf(old(transfers), ids, now)
    {
      ghost var before, published := transfers, events;
      joins := [];
      for k := 0 to |ids|
        invariant ClosedSoFar(before, transfers, ids[..k], now)
        invariant joins == HandlesOf(before, ids[..k])
        invariant events == published + UpdatesOf(before, ids[..k], now)
      {
        assert ids[..k + 1] == ids[..k] + [ids[k]] && ids[k] in OfSession(before, session);
        CloseStep(before, transfers, ids[..k], ids[k], now);
        AppendTwice(published, UpdatesOf(before, ids[..k], now), UpdatesOf(before, ids[..k + 1], now));
        var join := CloseEntry(ids[k], now);
        if join.Some? {
          joins := joins + [join.value];
        }
      }
      assert ids[..|ids|] == ids;
    }

    method ReapSlots(done: set<nat>)
      modifies this`transfers
      ensures transfers == Reap(old(transfers), done)
      ensures transfers.Keys == old(transfers).Keys
      ensures forall id | id in transfers ::
                var e := old(transfers)[id];
                transfers[id] == if e.slot.Published? && e.slot.handle in done then e.(slot := Finished) else e
    {
      var rest := transfers.Keys;
      while rest != {}
        invariant rest <= old(transfers).Keys && transfers.Keys == old(transfers).Keys
        invariant forall id | id in transfers ::
                    transfers[id] == if id in rest then old(transfers)[id] else ReapEntry(old(transfers)[id], done)
        decreases rest
      {
        var id :| id in rest;
        rest := rest - {id};
        var slot := transfers[id].slot;
        if slot.Published? && slot.handle in done {
          transfers := transfers[id := transfers[id].(slot := Finished)];
        }
      }
    }

    /** The decision and the throttle's next state; a suppressed update is less than 100 ms and less
        than 256 KiB past the last recorded emit. */
    method ThrottleAllows(th: Throttle, now: nat, bytes: Option<nat>) returns (allowed: bool, next: Throttle)
      ensures allowed == Allows(th, now, bytes) && next == Throttled(th, now, bytes)
      ensures allowed <==> th.lastMs + 100 <= now || (bytes.Some? && th.lastBytes + 262144 <= bytes.value)
      ensures allowed ==> next == Throttle(now, if bytes.Some? then bytes.value else th.lastBytes)
      ensures !allowed ==>
                && next == th && now < th.lastMs + 100 && (bytes.Some? ==> bytes.value < th.lastBytes + 262144)
    {
      var enoughTime := SaturatingSub(now, th.lastMs) >= PROGRESS_MIN_INTERVAL_MS;
      var enoughBytes := if bytes.Some? then SaturatingSub(bytes.value, th.lastBytes) >= PROGRESS_MIN_BYTES else false;
      next := th;
      if enoughTime || enoughBytes {
        next := next.(lastMs := now);
        if bytes.Some? {
          next := next.(lastBytes := bytes.value);
        }
        allowed := true;
      } else {
        allowed := false;
      }
    }

    method UpdateProgress(id: nat, transferred: nat, total: nat, now: nat)
      modifies this`transfers, this`events
      ensures transfers == SetProgress(old(transfers), id, transferred, total, now)
      ensures events == old(events) + Updates(old(transfers), id, [Progress(transferred, total, now)])
      ensures OnlyAt(old(transfers), transfers, id)
      ensures id in transfers ==>
                var e := old(transfers)[id];
                var emits := e.throttle.lastMs + 100 <= now || e.throttle.lastBytes + 262144 <= transferred;
                && transfers[id].snapshot == e.snapshot.(
                     transferredBytes := transferred, totalBytes := Some(total),
                     state := if e.snapshot.state in {Completed, Failed, Cancelled} then e.snapshot.state else Running)
                && transfers[id] == e.(snapshot := transfers[id].snapshot,
                                       throttle := if emits then Throttle(now, transferred) else e.throttle)
                && events == old(events) + if emits then [transfers[id].snapshot] else []
      ensures id !in transfers ==> events == old(events)
    {
      if id !in transfers {
        return;
      }
      var snapshot := transfers[id].snapshot.(transferredBytes := transferred, totalBytes := Some(total));
      if !Terminal(snapshot.state) {
        snapshot := snapshot.(state := Running);
      }
      var emit, throttle := ThrottleAllows(transfers[id].throttle, now, Some(transferred));
      transfers := transfers[id := transfers[id].(snapshot := snapshot, throttle := throttle)];
      if emit {
        events := events + [snapshot];
      }
    }

    method UpdateBatchItems(id: nat, completed: nat, failed: nat, current: Option<string>, now: nat)
      modifies this`transfers, this`events
      ensures transfers == SetBatchItems(old(transfers), id, completed, failed, current, now)
      ensures OnlyAt(old(transfers), transfers, id)
      ensures id in transfers ==>
                var e := old(transfers)[id];
                var emits := e.throttle.lastMs + 100 <= now;
                && transfers[id].snapshot == e.snapshot.(
                     completedItems := completed, failedItems := failed, currentItem := current,
                     state := if e.snapshot.state in {Completed, Failed, Cancelled} then e.snapshot.state else Running)
                && transfers[id] == e.(snapshot := transfers[id].snapshot,
                                       throttle := if emits then e.throttle.(lastMs := now) else e.throttle)
                && events == old(events) + if emits then [transfers[id].snapshot] else []
      ensures id !in transfers ==> events == old(events)
    {
      if id !in transfers {
        return;
      }
      var snapshot := transfers[id].snapshot
                        .(completedItems := completed, failedItems := failed, currentItem := current);
      if !Terminal(snapshot.state) {
        snapshot := snapshot.(state := Running);
      }
      var emit, throttle := ThrottleAllows(transfers[id].throttle, now, None);
      transfers := transfers[id := transfers[id].(snapshot := snapshot, throttle := throttle)];
      if emit {
        events := events + [snapshot];
      }
    }

    method AttachBatchResult(id: nat, result: BatchResult)
      modifies this`transfers
      ensures transfers == SetBatchResult(old(transfers), id, result)
      ensures OnlyAt(old(transfers), transfers, id)
      ensures id in transfers ==>
                var e := old(transfers)[id];
                transfers[id] ==
                  if e.snapshot.state in {Completed, Failed, Cancelled} then e
                  else e.(snapshot := e.snapshot.(batchResult := Some(result)))
    {
      if id in transfers && !Terminal(transfers[id].snapshot.state) {
        transfers := transfers[id := transfers[id].(snapshot := transfers[id].snapshot.(batchResult := Some(result)))];
      }
    }

    method RecordError(id: nat, error: string)
      modifies this`transfers
      ensures transfers == SetError(old(transfers), id, error)
      ensures OnlyAt(old(transfers), transfers, id)
      ensures id in transfers ==>
                transfers[id] == old(transfers)[id].(snapshot := old(transfers)[id].snapshot.(error := Some(error)))
    {
      if id in transfers {
        transfers := transfers[id := transfers[id].(snapshot := transfers[id].snapshot.(error := Some(error)))];
      }
    }
  }
}
