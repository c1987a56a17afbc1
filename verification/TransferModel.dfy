/** The transfer registry on values (crates/handshaker-application/src/transfer.rs): what each
    critical section does to the entries, and what that means over whole runs.  The class in
    TransferRegistry.dfy is proved against these functions. */
module TransferModel {
  import opened Wrappers

  datatype TransferState = Queued | Running | Completed | Failed | Cancelled

  datatype Direction = Download | Upload

  datatype BatchResult = BatchResult(ok: seq<(string, string)>, failures: seq<(string, string, string)>)

  datatype Snapshot = Snapshot(
    id: nat,
    session: nat,
    direction: Direction,
    source: string,
    destination: string,
    state: TransferState,
    transferredBytes: nat,
    totalBytes: Option<nat>,
    startedAt: Option<nat>,
    finishedAt: Option<nat>,
    error: Option<string>,
    itemCount: nat,
    completedItems: nat,
    failedItems: nat,
    currentItem: Option<string>,
    batchResult: Option<BatchResult>)

  /** `TaskPublication`.  A join handle is known by number; whether its task has finished is the
      environment's business and comes in as the set `done`. */
  datatype Slot = Reserved | Published(handle: nat) | Finished | Taken

  datatype Throttle = Throttle(lastMs: nat, lastBytes: nat)

  datatype Entry = Entry(snapshot: Snapshot, cancelled: bool, slot: Slot, throttle: Throttle)

  type Table = map<nat, Entry>

  const PROGRESS_MIN_INTERVAL_MS := 100
  const PROGRESS_MIN_BYTES := 256 * 1024

  predicate Terminal(state: TransferState) {
    state == Completed || state == Failed || state == Cancelled
  }

  function Rank(state: TransferState): nat {
    match state case Queued => 0 case Running => 1 case _ => 2
  }

  function SaturatingSub(a: nat, b: nat): nat {
    if a < b then 0 else a - b
  }

  function NewEntry(snapshot: Snapshot): Entry {
    Entry(snapshot, false, Reserved, Throttle(0, 0))
  }

  // ---- critical sections on one entry ----

  function WithSnapshot(t: Table, id: nat, snapshot: Snapshot): Table
    requires id in t
  {
    t[id := t[id].(snapshot := snapshot)]
  }

  function Transition(t: Table, id: nat, next: TransferState, now: nat): Table {
    if id !in t || Terminal(t[id].snapshot.state) then t
    else
      var snap := t[id].snapshot.(state := next);
      WithSnapshot(t, id, if Terminal(next) then snap.(finishedAt := Some(now)) else snap)
  }

  function CancelToken(t: Table, id: nat): Table {
    if id in t then t[id := t[id].(cancelled := true)] else t
  }

  function TakeHandle(t: Table, id: nat): Table {
    if id in t then t[id := t[id].(slot := Taken)] else t
  }

  /** The launcher's write of its handle; an entry evicted meanwhile is unreachable. */
  function Publish(t: Table, id: nat, handle: nat): Table {
    if id in t then t[id := t[id].(slot := Published(handle))] else t
  }

  function ReapEntry(e: Entry, done: set<nat>): Entry {
    if e.slot.Published? && e.slot.handle in done then e.(slot := Finished) else e
  }

  function Reap(t: Table, done: set<nat>): Table {
    map id | id in t :: ReapEntry(t[id], done)
  }

  predicate Allows(th: Throttle, now: nat, bytes: Option<nat>) {
    || SaturatingSub(now, th.lastMs) >= PROGRESS_MIN_INTERVAL_MS
    || (bytes.Some? && SaturatingSub(bytes.value, th.lastBytes) >= PROGRESS_MIN_BYTES)
  }

  function Throttled(th: Throttle, now: nat, bytes: Option<nat>): Throttle {
    if !Allows(th, now, bytes) then th
    else Throttle(now, if bytes.Some? then bytes.value else th.lastBytes)
  }

  function Started(snap: Snapshot): Snapshot {
    if Terminal(snap.state) then snap else snap.(state := Running)
  }

  function SetProgress(t: Table, id: nat, transferred: nat, total: nat, now: nat): Table {
    if id !in t then t
    else
      var snap := t[id].snapshot.(transferredBytes := transferred, totalBytes := Some(total));
      t[id := t[id].(snapshot := Started(snap), throttle := Throttled(t[id].throttle, now, Some(transferred)))]
  }

  function SetBatchItems(t: Table, id: nat, completed: nat, failed: nat, current: Option<string>, now: nat): Table {
    if id !in t then t
    else
      var snap := t[id].snapshot.(completedItems := completed, failedItems := failed, currentItem := current);
      t[id := t[id].(snapshot := Started(snap), throttle := Throttled(t[id].throttle, now, None))]
  }

  function SetBatchResult(t: Table, id: nat, result: BatchResult): Table {
    if id !in t || Terminal(t[id].snapshot.state) then t
    else WithSnapshot(t, id, t[id].snapshot.(batchResult := Some(result)))
  }

  function SetError(t: Table, id: nat, error: string): Table {
    if id in t then WithSnapshot(t, id, t[id].snapshot.(error := Some(error))) else t
  }

  // ---- eviction ----

  predicate CanEvict(e: Entry, done: set<nat>) {
    && e.snapshot.finishedAt.Some?
    && match e.slot {
         case Reserved => false
         case Published(handle) => handle in done
         case _ => true
       }
  }

  predicate Expired(e: Entry, now: nat, done: set<nat>, ttl: Option<nat>) {
    && ttl.Some? && CanEvict(e, done)
    && SaturatingSub(now, e.snapshot.finishedAt.value) >= ttl.value
  }

  function Unexpired(t: Table, now: nat, done: set<nat>, ttl: Option<nat>): Table {
    map id | id in t && !Expired(t[id], now, done, ttl) :: t[id]
  }

  function Evictable(t: Table, done: set<nat>): set<nat> {
    set id | id in t && CanEvict(t[id], done)
  }

  function Max(a: int, b: int): int {
    if a < b then b else a
  }

  /** The capacity phase: `after` is what is left of `mid`.  Evictable entries have gone, oldest
      first, exactly as many as it takes to be within capacity or to have none left. */
  ghost predicate Trimmed(mid: Table, after: Table, done: set<nat>, capacity: nat) {
    && after.Keys <= mid.Keys
    && (forall id | id in after :: after[id] == mid[id])
    && (forall id | id in mid && id !in after :: CanEvict(mid[id], done))
    && (forall gone, kept | gone in mid && gone !in after && kept in after && CanEvict(mid[kept], done) ::
          mid[gone].snapshot.finishedAt.value <= mid[kept].snapshot.finishedAt.value)
    && |after| == if |mid| <= capacity then |mid| else Max(capacity, |mid| - |Evictable(mid, done)|)
  }

  ghost predicate Reaped(before: Table, after: Table, now: nat, done: set<nat>, capacity: nat, ttl: Option<nat>) {
    Trimmed(Unexpired(before, now, done, ttl), after, done, capacity)
  }

  /** What a reap does to each entry, by its finish time and slot.  Gone is whatever has finished and
      has no live task, once the TTL has passed since (a TTL of zero has always passed).  Staying is
      whatever has not finished, or is reserved, or has a live task, and within capacity also whatever
      the TTL has not passed for. */
  ghost predicate ReapedByAge(
      before: Table, after: Table, now: nat, done: set<nat>, capacity: nat, ttl: Option<nat>)
  {
    && (forall id | id in after :: id in before && after[id] == before[id])
    && (ttl.Some? ==> forall id | id in before && before[id].snapshot.finishedAt.Some? ::
          && (before[id].slot == Finished || before[id].slot == Taken
              || (before[id].slot.Published? && before[id].slot.handle in done))
          && (before[id].snapshot.finishedAt.value + ttl.value <= now || ttl.value == 0)
          ==> id !in after)
    && (forall id | id in before ::
          || before[id].snapshot.finishedAt == None || before[id].slot == Reserved
          || (before[id].slot.Published? && before[id].slot.handle !in done)
          || (|before| <= capacity
              && (ttl == None || (now < before[id].snapshot.finishedAt.value + ttl.value && 0 < ttl.value)))
          ==> id in after)
  }

  lemma ReapByAge(before: Table, after: Table, now: nat, done: set<nat>, capacity: nat, ttl: Option<nat>)
    requires Reaped(before, after, now, done, capacity, ttl)
    ensures ReapedByAge(before, after, now, done, capacity, ttl)
  {
    ReapPromises(before, after, now, done, capacity, ttl);
  }

  /** And by the capacity: what is left is within it or cannot go; an entry the TTL has not passed for
      goes only because there are too many, and then nothing that could go and finished before it
      stays. */
  lemma ReapPromises(before: Table, after: Table, now: nat, done: set<nat>, capacity: nat, ttl: Option<nat>)
    requires Reaped(before, after, now, done, capacity, ttl)
    ensures |after| <= capacity || forall id | id in after ::
              || after[id].snapshot.finishedAt == None || after[id].slot == Reserved
              || (after[id].slot.Published? && after[id].slot.handle !in done)
    ensures forall gone | gone in before && gone !in after && before[gone].snapshot.finishedAt.Some? ::
              ttl == None || (now < before[gone].snapshot.finishedAt.value + ttl.value && 0 < ttl.value)
              ==>
                && |before| > capacity && |after| >= capacity
                && forall kept | kept in after && after[kept].snapshot.finishedAt.Some? ::
                     || before[gone].snapshot.finishedAt.value <= after[kept].snapshot.finishedAt.value
                     || after[kept].slot == Reserved
                     || (after[kept].slot.Published? && after[kept].slot.handle !in done)
  {
    var mid := Unexpired(before, now, done, ttl);
    assert mid.Keys <= before.Keys;
    FewerKeys(mid.Keys, before.Keys);
    if |after| > capacity {
      assert |after| == |mid| - |Evictable(mid, done)|;
      KeepsInevitable(mid, after, done);
      forall id | id in after
        ensures || after[id].snapshot.finishedAt == None || after[id].slot == Reserved
                || (after[id].slot.Published? && after[id].slot.handle !in done)
      {
        assert id !in Evictable(after, done);
      }
    }
    if |mid| <= capacity {
      SameSize(after.Keys, mid.Keys);
    }
  }

  lemma FewerKeys(a: set<nat>, b: set<nat>)
    requires a <= b
    ensures |a| <= |b|
  {
    assert b == a + (b - a);
  }

  /** If as many entries have gone as were evictable, none of those left is. */
  lemma KeepsInevitable(mid: Table, after: Table, done: set<nat>)
    requires after.Keys <= mid.Keys
    requires forall id | id in after :: after[id] == mid[id]
    requires forall id | id in mid && id !in after :: CanEvict(mid[id], done)
    requires |after| == |mid| - |Evictable(mid, done)|
    ensures Evictable(after, done) == {}
  {
    var gone := mid.Keys - after.Keys;
    assert mid.Keys == gone + after.Keys;
    assert |mid.Keys| == |gone| + |after.Keys|;
    var evictable := Evictable(mid, done);
    assert gone <= evictable;
    SameSize(gone, evictable);
    assert forall id | id in Evictable(after, done) :: id in evictable;
  }

  lemma SameSize(a: set<nat>, b: set<nat>)
    requires a <= b && |a| == |b|
    ensures a == b
  {
    assert b == a + (b - a);
    assert |b| == |a| + |b - a|;
  }

  // ---- the throttle bound ----

  /** Progress calls on one entry: the clock and, for byte progress, the byte count. */
  datatype Call = Call(now: nat, bytes: Option<nat>)

  function Emits(th: Throttle, calls: seq<Call>): nat
    decreases |calls|
  {
    if calls == [] then 0
    else
      (if Allows(th, calls[0].now, calls[0].bytes) then 1 else 0)
      + Emits(Throttled(th, calls[0].now, calls[0].bytes), calls[1..])
  }

  /** Neither the clock nor the byte count ever goes back. */
  ghost predicate Monotone(calls: seq<Call>) {
    forall i, j | 0 <= i <= j < |calls| ::
      && calls[i].now <= calls[j].now
      && (calls[i].bytes.Some? && calls[j].bytes.Some? ==> calls[i].bytes.value <= calls[j].bytes.value)
  }

  /** Emits cost time or bytes: from a state reached by an emit, `a` of them are paid for by at least
      100 ms each and `b` by at least 256 KiB each. */
  lemma {:induction false} EmitsArePaidFor(th: Throttle, calls: seq<Call>, now: nat, bytes: nat)
      returns (a: nat, b: nat)
    requires Monotone(calls)
    requires forall i | 0 <= i < |calls| :: th.lastMs <= calls[i].now <= now
    requires forall i | 0 <= i < |calls| && calls[i].bytes.Some? :: th.lastBytes <= calls[i].bytes.value <= bytes
    requires th.lastMs <= now && th.lastBytes <= bytes
    ensures Emits(th, calls) == a + b
    ensures a * PROGRESS_MIN_INTERVAL_MS <= now - th.lastMs
    ensures b * PROGRESS_MIN_BYTES <= bytes - th.lastBytes
    decreases |calls|
  {
    if calls == [] {
      a, b := 0, 0;
    } else {
      var c := calls[0];
      var next := Throttled(th, c.now, c.bytes);
      a, b := EmitsArePaidFor(next, calls[1..], now, bytes);
      if Allows(th, c.now, c.bytes) {
        if SaturatingSub(c.now, th.lastMs) >= PROGRESS_MIN_INTERVAL_MS {
          a := a + 1;
        } else {
          b := b + 1;
        }
      }
    }
  }

  /** The throttle bound for a fresh entry, over any sequence of calls with a clock and byte counts
      that never go back: one emit, plus one per 100 ms elapsed, plus one per 256 KiB. */
  lemma ThrottleBound(calls: seq<Call>, bytes: nat)
    requires Monotone(calls) && calls != []
    requires forall i | 0 <= i < |calls| && calls[i].bytes.Some? :: calls[i].bytes.value <= bytes
    ensures Emits(Throttle(0, 0), calls)
              <= 1 + (calls[|calls| - 1].now - calls[0].now) / PROGRESS_MIN_INTERVAL_MS + bytes / PROGRESS_MIN_BYTES
  {
    BoundFromFirst(Throttle(0, 0), calls, calls[0].now, calls[|calls| - 1].now, bytes);
  }

  lemma PaidBound(a: nat, b: nat, part: nat, span: nat, bytes: nat)
    requires a * PROGRESS_MIN_INTERVAL_MS <= part <= span && b * PROGRESS_MIN_BYTES <= bytes
    ensures a + b <= span / PROGRESS_MIN_INTERVAL_MS + bytes / PROGRESS_MIN_BYTES
  {
  }

  /** The first emit is free; the later ones are paid for from there. */
  lemma {:induction false} BoundFromFirst(th: Throttle, calls: seq<Call>, first: nat, now: nat, bytes: nat)
    requires Monotone(calls) && th == Throttle(0, 0) && first <= now
    requires forall i | 0 <= i < |calls| :: first <= calls[i].now <= now
    requires forall i | 0 <= i < |calls| && calls[i].bytes.Some? :: calls[i].bytes.value <= bytes
    ensures Emits(th, calls) <= 1 + (now - first) / PROGRESS_MIN_INTERVAL_MS + bytes / PROGRESS_MIN_BYTES
    decreases |calls|
  {
    if calls != [] {
      var c := calls[0];
      if Allows(th, c.now, c.bytes) {
        var a, b := EmitsArePaidFor(Throttled(th, c.now, c.bytes), calls[1..], now, bytes);
        PaidBound(a, b, now - c.now, now - first, bytes);
      } else {
        BoundFromFirst(th, calls[1..], first, now, bytes);
      }
    }
  }

  // ---- the throttle and the events ----

  /** One `set_progress`. */
  datatype Report = Progress(transferred: nat, total: nat, now: nat)

  /** The updates a sequence of reports for one transfer publishes; in between, nothing else touches
      the transfer. */
  function Updates(t: Table, id: nat, reports: seq<Report>): seq<Snapshot>
    decreases |reports|
  {
    if reports == [] || id !in t then []
    else
      var r := reports[0];
      var t' := SetProgress(t, id, r.transferred, r.total, r.now);
      (if Allows(t[id].throttle, r.now, Some(r.transferred)) then [t'[id].snapshot] else [])
      + Updates(t', id, reports[1..])
  }

  function CallOf(r: Report): Call {
    Call(r.now, Some(r.transferred))
  }

  function CallsOf(reports: seq<Report>): seq<Call> {
    seq(|reports|, i requires 0 <= i < |reports| => CallOf(reports[i]))
  }

  lemma {:induction false} UpdatesAreEmits(t: Table, id: nat, reports: seq<Report>)
    requires id in t
    ensures |Updates(t, id, reports)| == Emits(t[id].throttle, CallsOf(reports))
    decreases |reports|
  {
    if reports != [] {
      var r := reports[0];
      UpdatesAreEmits(SetProgress(t, id, r.transferred, r.total, r.now), id, reports[1..]);
      assert CallsOf(reports)[1..] == CallsOf(reports[1..]);
    }
  }

  /** The bound on what subscribers see: a registered transfer that has not reported yet publishes, over
      any number of reports with a clock and a byte count that never go back, at most one update, plus
      one per 100 ms, plus one per 256 KiB; and the first report at 100 ms or later is published. */
  lemma UpdatesAreBounded(t: Table, id: nat, reports: seq<Report>)
    requires id in t && t[id].throttle == Throttle(0, 0) && reports != []
    requires forall i, j | 0 <= i <= j < |reports| ::
               reports[i].now <= reports[j].now && reports[i].transferred <= reports[j].transferred
    ensures var last := reports[|reports| - 1];
            |Updates(t, id, reports)| <= 1 + (last.now - reports[0].now) / 100 + last.transferred / 262144
    ensures reports[0].now >= 100 ==>
              && Updates(t, id, reports) != []
              && Updates(t, id, reports)[0].transferredBytes == reports[0].transferred
              && Updates(t, id, reports)[0].totalBytes == Some(reports[0].total)
  {
    UpdatesAreEmits(t, id, reports);
    ThrottleBound(CallsOf(reports), reports[|reports| - 1].transferred);
  }
}
