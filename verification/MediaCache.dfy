/** The media snapshot cache of the runtime: fetchers (`cached_photo_library` and its video and
    audio twins) against invalidators (`invalidate_media_snapshots_inner`), interleaved one shared
    access at a time (crates/handshaker-application/src/runtime.rs).

    The epoch is bumped outside the cache lock, so a fetcher that holds the lock can pass its epoch
    check and still insert after a bump.  What saves it is that the bumping invalidator has yet to
    take the lock and clear.  The invariant therefore tracks every invalidation until it returns. */
module MediaCache {
  /** Snapshot freshness window, in milliseconds. */
  const MEDIA_SNAPSHOT_TTL := 30_000

  datatype Kind = Photo | Video | Audio

  datatype Key = Key(session: nat, kind: Kind)

  /** A library as the phone returned it: what was asked for, and the phone-side change count that it
      reflects. */
  datatype Library = Library(of: Key, changes: nat)

  /** A cached snapshot.  `epoch` (the epoch its fetcher loaded) is history, not stored by the
      program. */
  datatype Entry = Entry(fetchedAt: nat, library: Library, epoch: nat)

  /** One call of a cached getter, by program point. */
  datatype Fetcher =
    | Started(key: Key)
    | Missed(key: Key)
    | Loaded(key: Key, epoch: nat)
    | Fetched(key: Key, epoch: nat, library: Library)
    | Locked(key: Key, epoch: nat, library: Library)
    | CheckedFresh(key: Key, epoch: nat, library: Library)
    | CheckedStale(key: Key, library: Library)
    | Served(key: Key, library: Library)
    | Failed

  datatype Phase = Bumped | Clearing | Returned

  /** One invalidation of a session.  Its index in the state is the epoch its bump ended;
      `changes` is the phone-side change count at the bump. */
  datatype Invalidation = Invalidation(session: nat, changes: nat, phase: Phase)

  datatype Owner = Free | ByFetcher(i: nat) | ByInvalidation(k: nat)

  datatype State = State(
    clock: nat,
    phone: nat,
    epoch: nat,
    cache: map<Key, Entry>,
    owner: Owner,
    fetchers: seq<Fetcher>,
    invalidations: seq<Invalidation>)

  datatype Step =
    | Tick
    | PhoneChanges
    | Lookup(i: nat)
    | LoadEpoch(i: nat)
    | Fetch(i: nat)
    | FetchFails(i: nat)
    | Lock(i: nat)
    | Check(i: nat)
    | Insert(i: nat)
    | Discard(i: nat)
    | Bump(session: nat)
    | ClearLock(k: nat)
    | Clear(k: nat)

  predicate Init(s: State) {
    && s.cache == map[] && s.epoch == 0 && s.owner.Free? && s.invalidations == []
    && (forall i | 0 <= i < |s.fetchers| :: s.fetchers[i].Started?)
  }

  predicate Enabled(s: State, step: Step) {
    match step
    case Tick => true
    case PhoneChanges => true
    case Lookup(i) => i < |s.fetchers| && s.fetchers[i].Started? && s.owner.Free?
    case LoadEpoch(i) => i < |s.fetchers| && s.fetchers[i].Missed?
    case Fetch(i) => i < |s.fetchers| && s.fetchers[i].Loaded?
    case FetchFails(i) => i < |s.fetchers| && s.fetchers[i].Loaded?
    case Lock(i) => i < |s.fetchers| && s.fetchers[i].Fetched? && s.owner.Free?
    case Check(i) => i < |s.fetchers| && s.fetchers[i].Locked?
    case Insert(i) => i < |s.fetchers| && s.fetchers[i].CheckedFresh?
    case Discard(i) => i < |s.fetchers| && s.fetchers[i].CheckedStale?
    case Bump(_) => true
    case ClearLock(k) => k < |s.invalidations| && s.invalidations[k].phase.Bumped? && s.owner.Free?
    case Clear(k) => k < |s.invalidations| && s.invalidations[k].phase.Clearing?
  }

  predicate Hit(s: State, key: Key) {
    key in s.cache && s.clock < s.cache[key].fetchedAt + MEDIA_SNAPSHOT_TTL
  }

  function Move(s: State, i: nat, f: Fetcher): State
    requires i < |s.fetchers|
  {
    s.(fetchers := s.fetchers[i := f])
  }

  function Do(s: State, step: Step): State
    requires Enabled(s, step)
  {
    match step
    case Tick => s.(clock := s.clock + 1)
    case PhoneChanges => s.(phone := s.phone + 1)
    case Lookup(i) =>
      var key := s.fetchers[i].key;
      Move(s, i, if Hit(s, key) then Served(key, s.cache[key].library) else Missed(key))
    case LoadEpoch(i) => Move(s, i, Loaded(s.fetchers[i].key, s.epoch))
    case Fetch(i) => 
      var key := s.fetchers[i].key;
      Move(s, i, Fetched(key, s.fetchers[i].epoch, Library(key, s.phone)))
    case FetchFails(i) => Move(s, i, Failed)
    case Lock(i) =>
      var f := s.fetchers[i];
      Move(s, i, Locked(f.key, f.epoch, f.library)).(owner := ByFetcher(i))
    case Check(i) =>
      var f := s.fetchers[i];
      Move(s, i, if s.epoch == f.epoch then CheckedFresh(f.key, f.epoch, f.library)
                 else CheckedStale(f.key, f.library))
    case Insert(i) =>
      var f := s.fetchers[i];
      Move(s, i, Served(f.key, f.library))
        .(owner := Free, cache := s.cache[f.key := Entry(s.clock, f.library, f.epoch)])
    case Discard(i) =>
      Move(s, i, Served(s.fetchers[i].key, s.fetchers[i].library)).(owner := Free)
    case Bump(session) =>
      s.(epoch := s.epoch + 1, invalidations := s.invalidations + [Invalidation(session, s.phone, Bumped)])
    case ClearLock(k) =>
      s.(owner := ByInvalidation(k), invalidations := s.invalidations[k := s.invalidations[k].(phase := Clearing)])
    case Clear(k) =>
      var session := s.invalidations[k].session;
      s.(owner := Free,
         cache := map key | key in s.cache && key.session != session :: s.cache[key],
         invalidations := s.invalidations[k := s.invalidations[k].(phase := Returned)])
  }

  predicate Legal(s: State, trace: seq<Step>)
    decreases |trace|
  {
    trace == [] || (Enabled(s, trace[0]) && Legal(Do(s, trace[0]), trace[1..]))
  }

  function Final(s: State, trace: seq<Step>): State
    requires Legal(s, trace)
    decreases |trace|
  {
    if trace == [] then s else Final(Do(s, trace[0]), trace[1..])
  }

  // ---- the invariant ----

  predicate Holds(f: Fetcher) {
    f.Locked? || f.CheckedFresh? || f.CheckedStale?
  }

  ghost predicate LockInv(s: State) {
    && (forall i | 0 <= i < |s.fetchers| :: Holds(s.fetchers[i]) <==> s.owner == ByFetcher(i))
    && (forall k | 0 <= k < |s.invalidations| ::
          s.invalidations[k].phase.Clearing? <==> s.owner == ByInvalidation(k))
    && (s.owner.ByFetcher? ==> s.owner.i < |s.fetchers|)
    && (s.owner.ByInvalidation? ==> s.owner.k < |s.invalidations|)
  }

  /** A snapshot fetched for `key` after loading `epoch` reflects whatever the earlier bumps announced. */
  ghost predicate Reflects(s: State, key: Key, epoch: nat, library: Library) {
    && epoch <= |s.invalidations|
    && library.of == key && library.changes <= s.phone
    && (forall k | 0 <= k < epoch :: s.invalidations[k].changes <= library.changes)
  }

  /** No invalidation of this session with a bump at or after `epoch` has returned. */
  ghost predicate StillPending(s: State, session: nat, epoch: nat) {
    forall k | epoch <= k < |s.invalidations| && s.invalidations[k].session == session ::
      !s.invalidations[k].phase.Returned?
  }

  ghost predicate FetcherInv(s: State, f: Fetcher) {
    match f
    case Loaded(_, epoch) => epoch <= |s.invalidations|
    case Fetched(key, epoch, library) => Reflects(s, key, epoch, library)
    case Locked(key, epoch, library) => Reflects(s, key, epoch, library)
    case CheckedFresh(key, epoch, library) =>
      && Reflects(s, key, epoch, library)
      && (forall k | epoch <= k < |s.invalidations| :: s.invalidations[k].phase.Bumped?)
    case CheckedStale(key, library) => library.of == key
    case Served(key, library) => library.of == key
    case _ => true
  }

  ghost predicate Inv(s: State) {
    && s.epoch == |s.invalidations|
    && LockInv(s)
    && (forall k | 0 <= k < |s.invalidations| :: s.invalidations[k].changes <= s.phone)
    && (forall i | 0 <= i < |s.fetchers| :: FetcherInv(s, s.fetchers[i]))
    && (forall key | key in s.cache ::
          && Reflects(s, key, s.cache[key].epoch, s.cache[key].library)
          && StillPending(s, key.session, s.cache[key].epoch)
          && s.cache[key].fetchedAt <= s.clock)
  }

  /** Steps of fetchers, the clock and the phone leave the invalidations alone. */
  lemma FetcherStepKeepsInv(s: State, step: Step)
    requires Inv(s) && Enabled(s, step)
    requires !step.Bump? && !step.ClearLock? && !step.Clear? && !step.Insert?
    ensures Inv(Do(s, step))
  {
    if step.Tick? || step.PhoneChanges? {
      WorldStepKeepsInv(s, step);
    } else {
      MoveKeepsInv(s, step);
    }
  }

  lemma WorldStepKeepsInv(s: State, step: Step)
    requires Inv(s) && (step.Tick? || step.PhoneChanges?)
    ensures Inv(Do(s, step))
  {
    var s' := Do(s, step);
    forall i | 0 <= i < |s.fetchers| ensures FetcherInv(s', s.fetchers[i]) {
      assert FetcherInv(s, s.fetchers[i]);
    }
  }

  lemma MoveKeepsInv(s: State, step: Step)
    requires Inv(s) && Enabled(s, step) && !step.Tick? && !step.PhoneChanges?
    requires !step.Bump? && !step.ClearLock? && !step.Clear? && !step.Insert?
    ensures Inv(Do(s, step))
  {
    var s' := Do(s, step);
    var i := step.i;
    assert s' == s.(fetchers := s.fetchers[i := s'.fetchers[i]], owner := s'.owner);
    MoveKeepsOwn(s, step, i);
    MoveKeepsLock(s, step);
    hide Do, LockInv;
    forall j | 0 <= j < |s.fetchers| ensures FetcherInv(s', s'.fetchers[j]) {
      assert FetcherInv(s, s.fetchers[j]);
    }
  }

  lemma MoveKeepsOwn(s: State, step: Step, i: nat)
    requires Inv(s) && Enabled(s, step) && i < |s.fetchers|
    requires step.Lookup? || step.LoadEpoch? || step.Fetch? || step.FetchFails? || step.Lock? || step.Check? || step.Discard?
    requires i == step.i
    ensures FetcherInv(Do(s, step), Do(s, step).fetchers[i])
  {
    assert FetcherInv(s, s.fetchers[i]);
  }

  lemma MoveKeepsLock(s: State, step: Step)
    requires LockInv(s) && Enabled(s, step)
    requires step.Lookup? || step.LoadEpoch? || step.Fetch? || step.FetchFails? || step.Lock? || step.Check? || step.Discard?
    ensures LockInv(Do(s, step))
  {
  }

  lemma InsertKeepsInv(s: State, i: nat)
    requires Inv(s) && Enabled(s, Insert(i))
    ensures Inv(Do(s, Insert(i)))
  {
  }

  lemma BumpKeepsInv(s: State, session: nat)
    requires Inv(s)
    ensures Inv(Do(s, Bump(session)))
  {
  }

  lemma ClearKeepsInv(s: State, step: Step)
    requires Inv(s) && Enabled(s, step) && (step.ClearLock? || step.Clear?)
    ensures Inv(Do(s, step))
  {
  }

  lemma StepKeepsInv(s: State, step: Step)
    requires Inv(s) && Enabled(s, step)
    ensures Inv(Do(s, step))
  {
    match step {
      case Insert(i) => InsertKeepsInv(s, i);
      case Bump(session) => BumpKeepsInv(s, session);
      case ClearLock(_) => ClearKeepsInv(s, step);
      case Clear(_) => ClearKeepsInv(s, step);
      case _ => FetcherStepKeepsInv(s, step);
    }
  }

  lemma {:induction false} RunKeepsInv(s: State, trace: seq<Step>)
    requires Inv(s) && Legal(s, trace)
    ensures Inv(Final(s, trace))
    decreases |trace|
  {
    if trace != [] {
      StepKeepsInv(s, trace[0]);
      RunKeepsInv(Do(s, trace[0]), trace[1..]);
    }
  }

  // ---- freshness ----

  /** Cache freshness in every reachable state: once an invalidation of a session has returned,
      every snapshot cached for that session comes from a fetch that loaded the epoch after that
      invalidation's bump, and reflects the phone at least as of that bump. */
  lemma CacheIsFresh(s: State, trace: seq<Step>, k: nat, key: Key)
    requires Init(s) && Legal(s, trace)
    requires k < |Final(s, trace).invalidations| && Final(s, trace).invalidations[k].phase.Returned?
    requires key in Final(s, trace).cache && key.session == Final(s, trace).invalidations[k].session
    ensures var f := Final(s, trace);
            && f.cache[key].epoch > k
            && f.cache[key].library.changes >= f.invalidations[k].changes
  {
    RunKeepsInv(s, trace);
  }

  /** What a getter that began after invalidation `k` returned may hold at each point. */
  ghost predicate FreshSince(s: State, i: nat, k: nat) {
    && i < |s.fetchers| && k < |s.invalidations|
    && s.invalidations[k].phase.Returned?
    && match s.fetchers[i] {
         case Started(key) => key.session == s.invalidations[k].session
         case Fetched(_, _, library) => s.invalidations[k].changes <= library.changes
         case Locked(_, _, library) => s.invalidations[k].changes <= library.changes
         case CheckedFresh(_, _, library) => s.invalidations[k].changes <= library.changes
         case CheckedStale(_, library) => s.invalidations[k].changes <= library.changes
         case Served(_, library) => s.invalidations[k].changes <= library.changes
         case _ => true
       }
  }

  lemma StepStaysFresh(s: State, step: Step, i: nat, k: nat)
    requires Inv(s) && Enabled(s, step) && FreshSince(s, i, k)
    ensures FreshSince(Do(s, step), i, k)
    ensures Do(s, step).invalidations[k].changes == s.invalidations[k].changes
  {
  }

  lemma {:induction false} RunStaysFresh(s: State, trace: seq<Step>, i: nat, k: nat)
    requires Inv(s) && Legal(s, trace) && FreshSince(s, i, k)
    ensures FreshSince(Final(s, trace), i, k)
    ensures Final(s, trace).invalidations[k].changes == s.invalidations[k].changes
    decreases |trace|
  {
    if trace != [] {
      StepKeepsInv(s, trace[0]);
      StepStaysFresh(s, trace[0], i, k);
      RunStaysFresh(Do(s, trace[0]), trace[1..], i, k);
    }
  }

  /** End to end: a getter that has not started when an invalidation of its session has returned
      never serves a library older than that invalidation, cached or fetched, whatever happens in
      between. */
  lemma ServedIsFresh(s: State, before: seq<Step>, after: seq<Step>, i: nat, k: nat)
    requires Init(s) && Legal(s, before) && Legal(Final(s, before), after)
    requires var m := Final(s, before);
             && k < |m.invalidations| && m.invalidations[k].phase.Returned?
             && i < |m.fetchers| && m.fetchers[i].Started?
             && m.fetchers[i].key.session == m.invalidations[k].session
    ensures var m := Final(s, before);
            var f := Final(m, after);
            && i < |f.fetchers|
            && (f.fetchers[i].Served? ==> f.fetchers[i].library.changes >= m.invalidations[k].changes)
  {
    RunKeepsInv(s, before);
    RunStaysFresh(Final(s, before), after, i, k);
  }

  // ---- what is under a key ----

  /** In every reachable state whatever is cached under a key, and whatever a getter has served, was
      fetched from the phone for exactly that session and kind. */
  lemma OwnKeyOnly(s: State, trace: seq<Step>)
    requires Init(s) && Legal(s, trace)
    ensures var f := Final(s, trace);
            && (forall key | key in f.cache :: f.cache[key].library.of == key && f.cache[key].fetchedAt <= f.clock)
            && (forall i | 0 <= i < |f.fetchers| && f.fetchers[i].Served? :: f.fetchers[i].library.of == f.fetchers[i].key)
  {
    RunKeepsInv(s, trace);
    var f := Final(s, trace);
    forall i | 0 <= i < |f.fetchers| && f.fetchers[i].Served? ensures f.fetchers[i].library.of == f.fetchers[i].key {
      assert FetcherInv(f, f.fetchers[i]);
    }
  }

  /** A lookup serves what is cached under its key if and only if that is less than 30 seconds old, and
      never renews it. */
  lemma HitsAreYoung(s: State, i: nat)
    requires Enabled(s, Lookup(i))
    ensures var key, f := s.fetchers[i].key, Do(s, Lookup(i)).fetchers[i];
            if key in s.cache && s.clock - s.cache[key].fetchedAt < 30000 then f == Served(key, s.cache[key].library)
            else f == Missed(key)
    ensures Do(s, Lookup(i)).cache == s.cache
  {
  }

  /** No invalidation of this session is under way. */
  ghost predicate Settled(s: State, session: nat) {
    forall k | 0 <= k < |s.invalidations| && s.invalidations[k].session == session :: s.invalidations[k].phase.Returned?
  }

  /** The key was cached at this time or later. */
  predicate CachedSince(s: State, key: Key, time: nat) {
    key in s.cache && s.cache[key].fetchedAt >= time
  }

  /** While no invalidation of its session begins, a cached key stays cached, whatever happens to other
      sessions. */
  lemma {:induction false} StaysCached(s: State, trace: seq<Step>, key: Key, time: nat)
    requires Settled(s, key.session) && time <= s.clock && CachedSince(s, key, time)
    requires Legal(s, trace) && Bump(key.session) !in trace
    ensures CachedSince(Final(s, trace), key, time)
    decreases |trace|
  {
    if trace != [] {
      assert trace[0] in trace && forall step | step in trace[1..] :: step in trace;
      StaysCached(Do(s, trace[0]), trace[1..], key, time);
    }
  }

  /** A getter on its way to caching what it fetches. */
  ghost predicate OnItsWay(s: State, i: nat, key: Key, time: nat) {
    && i < |s.fetchers| && Settled(s, key.session) && time <= s.clock
    && match s.fetchers[i] {
         case Started(_) => false
         case Missed(x) => x == key
         case Loaded(x, epoch) => x == key && epoch == s.epoch
         case Fetched(x, epoch, _) => x == key && epoch == s.epoch
         case Locked(x, epoch, _) => x == key && epoch == s.epoch
         case CheckedFresh(x, _, _) => x == key
         case CheckedStale(_, _) => false
         case Served(x, _) => x == key && CachedSince(s, key, time)
         case Failed => true
       }
  }

  ghost predicate NoBumps(trace: seq<Step>) {
    forall step | step in trace :: !step.Bump?
  }

  lemma StepOnItsWay(s: State, step: Step, i: nat, key: Key, time: nat)
    requires OnItsWay(s, i, key, time) && Enabled(s, step) && !step.Bump?
    ensures OnItsWay(Do(s, step), i, key, time)
  {
  }

  lemma {:induction false} RunOnItsWay(s: State, trace: seq<Step>, i: nat, key: Key, time: nat)
    requires OnItsWay(s, i, key, time) && Legal(s, trace) && NoBumps(trace)
    ensures OnItsWay(Final(s, trace), i, key, time)
    decreases |trace|
  {
    if trace != [] {
      assert trace[0] in trace && forall step | step in trace[1..] :: step in trace;
      StepOnItsWay(s, trace[0], i, key, time);
      RunOnItsWay(Do(s, trace[0]), trace[1..], i, key, time);
    }
  }

  /** The cache does its work: a getter that misses fetches once, and if no invalidation begins before it
      returns, its key is cached from then on, not older than the miss, until an invalidation of its
      session begins. */
  lemma FetchedOnceIsCached(s: State, during: seq<Step>, after: seq<Step>, i: nat, key: Key)
    requires i < |s.fetchers| && s.fetchers[i] == Missed(key) && Settled(s, key.session)
    requires Legal(s, during) && NoBumps(during)
    requires Legal(Final(s, during), after) && Bump(key.session) !in after
    requires i < |Final(s, during).fetchers| && Final(s, during).fetchers[i].Served?
    ensures CachedSince(Final(Final(s, during), after), key, s.clock)
  {
    RunOnItsWay(s, during, i, key, s.clock);
    StaysCached(Final(s, during), after, key, s.clock);
  }

  /** And its own library: the insertion leaves exactly what was fetched under the key. */
  lemma InsertsItsOwn(s: State, i: nat)
    requires Enabled(s, Check(i)) && s.fetchers[i].epoch == s.epoch
    ensures var s' := Do(s, Check(i));
            && Enabled(s', Insert(i))
            && Do(s', Insert(i)).fetchers[i] == Served(s.fetchers[i].key, s.fetchers[i].library)
            && Do(s', Insert(i)).owner == Free
            && s.fetchers[i].key in Do(s', Insert(i)).cache
            && Do(s', Insert(i)).cache[s.fetchers[i].key].library == s.fetchers[i].library
            && Do(s', Insert(i)).cache[s.fetchers[i].key].fetchedAt == s.clock
            && Do(s', Insert(i)).cache - {s.fetchers[i].key} == s.cache - {s.fetchers[i].key}
  {
  }

  // ---- each call when nobody interferes ----

  lemma {:induction false} LegalAppend(s: State, trace: seq<Step>, step: Step)
    requires Legal(s, trace) && Enabled(Final(s, trace), step)
    ensures Legal(s, trace + [step]) && Final(s, trace + [step]) == Do(Final(s, trace), step)
    decreases |trace|
  {
    if trace == [] {
      assert (trace + [step])[1..] == [];
    } else {
      assert (trace + [step])[1..] == trace[1..] + [step];
      LegalAppend(Do(s, trace[0]), trace[1..], step);
    }
  }

  lemma Play(s: State, trace: seq<Step>, step: Step, s': State) returns (trace': seq<Step>)
    requires Legal(s, trace) && Enabled(Final(s, trace), step) && Do(Final(s, trace), step) == s'
    ensures Legal(s, trace') && Final(s, trace') == s'
  {
    trace' := trace + [step];
    LegalAppend(s, trace, step);
  }

  /** A getter that finds nothing young enough fetches the library of its key from the phone, caches it
      now, serves it and gives the lock back. */
  lemma GetterAlone(s: State, i: nat, key: Key) returns (trace: seq<Step>)
    requires i < |s.fetchers| && s.fetchers[i] == Started(key) && s.owner == Free
    requires key in s.cache ==> s.cache[key].fetchedAt + 30000 <= s.clock
    ensures Legal(s, trace)
    ensures var library := Library(key, s.phone);
            Final(s, trace) == s.(cache := s.cache[key := Entry(s.clock, library, s.epoch)],
                                  fetchers := s.fetchers[i := Served(key, library)])
  {
    var library := Library(key, s.phone);
    var s1 := s.(fetchers := s.fetchers[i := Missed(key)]);
    var s2 := s.(fetchers := s.fetchers[i := Loaded(key, s.epoch)]);
    var s3 := s.(fetchers := s.fetchers[i := Fetched(key, s.epoch, library)]);
    trace := [];
    assert Legal(s, trace) && Final(s, trace) == s;
    hide Legal, Final;
    trace := Play(s, trace, Lookup(i), s1);
    trace := Play(s, trace, LoadEpoch(i), s2);
    trace := Play(s, trace, Fetch(i), s3);
    var s4 := s.(fetchers := s.fetchers[i := Locked(key, s.epoch, library)], owner := ByFetcher(i));
    trace := Play(s, trace, Lock(i), s4);
    var s5 := s4.(fetchers := s.fetchers[i := CheckedFresh(key, s.epoch, library)]);
    trace := Play(s, trace, Check(i), s5);
    trace := Play(s, trace, Insert(i),
                  s.(cache := s.cache[key := Entry(s.clock, library, s.epoch)],
                     fetchers := s.fetchers[i := Served(key, library)]));
  }

  /** A stale fetch is served and not cached, and the lock given back. */
  lemma StaleAlone(s: State, i: nat)
    requires Enabled(s, Check(i)) && s.fetchers[i].epoch != s.epoch
    ensures var f, s' := s.fetchers[i], Do(s, Check(i));
            && Enabled(s', Discard(i))
            && Do(s', Discard(i)) == s.(owner := Free, fetchers := s.fetchers[i := Served(f.key, f.library)])
  {
  }

  /** An invalidation moves the epoch on, drops the entries of its session and no others, and gives the
      lock back. */
  lemma InvalidateAlone(s: State, session: nat) returns (trace: seq<Step>)
    requires s.owner == Free
    ensures Legal(s, trace)
    ensures var f := Final(s, trace);
            && f.epoch == s.epoch + 1 && f.owner == Free && f.fetchers == s.fetchers
            && (forall key :: key in f.cache <==> key in s.cache && key.session != session)
            && (forall key | key in f.cache :: f.cache[key] == s.cache[key])
            && f.invalidations == s.invalidations + [Invalidation(session, s.phone, Returned)]
  {
    var k := |s.invalidations|;
    trace := [];
    assert Legal(s, trace) && Final(s, trace) == s;
    hide Legal, Final;
    var s1 := s.(epoch := s.epoch + 1, invalidations := s.invalidations + [Invalidation(session, s.phone, Bumped)]);
    trace := Play(s, trace, Bump(session), s1);
    var s2 := Do(s1, ClearLock(k));
    trace := Play(s, trace, ClearLock(k), s2);
    var s3 := Do(s2, Clear(k));
    trace := Play(s, trace, Clear(k), s3);
    assert s3.invalidations == s.invalidations + [Invalidation(session, s.phone, Returned)];
  }
}
