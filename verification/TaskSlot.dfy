/** The run slot of one sync job: `start_sync` publishing its task handle, the task itself, and any
    number of `take_published_task` calls, interleaved one shared access at a time
    (crates/handshaker-application/src/runtime.rs). */
module TaskSlot {
  import opened Wrappers

  /** `TaskPublication`; there is one handle, so `Published` carries nothing. */
  datatype Slot = Reserved | Published | Finished | Taken

  /** `start_sync` from the spawn on.  Dropping the launch future drops `start_tx`. */
  datatype Launcher = Spawned | Stored | Released | Dropped

  /** The spawned task: waiting for the start signal, in `run_sync_job`, about to write `Finished`
      to the slot, ended; or ended without ever having been released. */
  datatype Task = Waiting | Working | Closing | Done | NeverRan

  /** One `take_published_task`: about to look, waiting for the notification, in the timeout
      fallback, returned. */
  datatype Taker = Looking | AwaitingNotify | TimedOut | Got | Nothing

  /** `worked` (the task has done work), `finishedSlot` (it has written `Finished`), `owner` (the
      taker that received the handle) and `gaveUp` (a fallback replaced a `Reserved` slot) are
      history. */
  datatype State = State(
    slot: Slot,
    launcher: Launcher,
    task: Task,
    takers: seq<Taker>,
    worked: bool,
    finishedSlot: bool,
    owner: Option<nat>,
    gaveUp: bool)

  datatype Step =
    | Store
    | Release
    | Drop
    | TaskStarts
    | TaskGivesUp
    | TaskEnds
    | TaskCloses
    | Look(k: nat)
    | Notified(k: nat)
    | Timeout(k: nat)
    | Fallback(k: nat)

  predicate Init(s: State) {
    && s == State(Reserved, Spawned, Waiting, s.takers, false, false, None, false)
    && (forall k | 0 <= k < |s.takers| :: s.takers[k] == Looking)
  }

  /** A notification can come late or never; the wait ends by one or by the timeout. */
  predicate Enabled(s: State, step: Step) {
    match step
    case Store => s.launcher == Spawned
    case Release => s.launcher == Stored
    case Drop => s.launcher == Spawned || s.launcher == Stored
    case TaskStarts => s.task == Waiting && s.launcher == Released
    case TaskGivesUp => s.task == Waiting && s.launcher == Dropped
    case TaskEnds => s.task == Working
    case TaskCloses => s.task == Closing
    case Look(k) => k < |s.takers| && s.takers[k] == Looking
    case Notified(k) => k < |s.takers| && s.takers[k] == AwaitingNotify
    case Timeout(k) => k < |s.takers| && s.takers[k] == AwaitingNotify
    case Fallback(k) => k < |s.takers| && s.takers[k] == TimedOut
  }

  function Do(s: State, step: Step): State
    requires Enabled(s, step)
  {
    match step
    case Store => s.(slot := Published, launcher := Stored)
    case Release => s.(launcher := Released)
    case Drop => s.(launcher := Dropped)
    case TaskStarts => s.(task := Working, worked := true)
    case TaskGivesUp => s.(task := NeverRan)
    case TaskEnds => s.(task := Closing)
    case TaskCloses => s.(task := Done, slot := Finished, finishedSlot := true)
    case Look(k) =>
      (match s.slot
       case Published => s.(slot := Taken, takers := s.takers[k := Got], owner := Some(k))
       case Reserved => s.(takers := s.takers[k := AwaitingNotify])
       case _ => s.(slot := Taken, takers := s.takers[k := Nothing]))
    case Notified(k) => s.(takers := s.takers[k := Looking])
    case Timeout(k) => s.(takers := s.takers[k := TimedOut])
    case Fallback(k) =>
      if s.slot == Published then s.(slot := Taken, takers := s.takers[k := Got], owner := Some(k))
      else s.(slot := Taken, takers := s.takers[k := Nothing], gaveUp := s.gaveUp || s.slot == Reserved)
  }

  predicate Legal(s: State, trace: seq<Step>)
    decreases |trace|
  {
    trace == [] || (Enabled(s, trace[0]) && Legal(Do(s, trace[0]), trace[1..]))
  }

  function Final(s: State, trace: seq<Step>): State
    requires Legal(s, trace)
    decreases |trace|
  {
    if trace == [] then s else Final(Do(s, trace[0]), trace[1..])
  }

  /** The slot tells where the handle is.  Only a fallback can make it say `Taken` while the handle
      is neither stored nor owned. */
  ghost predicate SlotInv(s: State) {
    && (s.slot == Published ==> s.owner.None? && s.launcher != Spawned)
    && (s.slot == Reserved ==> s.owner.None? && !s.finishedSlot && s.launcher != Stored && s.launcher != Released)
    && (s.slot == Finished ==> s.finishedSlot)
    && (s.finishedSlot ==> s.slot == Finished || s.slot == Taken)
    && (s.slot == Taken ==> s.owner.Some? || s.finishedSlot || s.gaveUp)
    && (s.slot == Taken && s.owner.None? && !s.finishedSlot ==> s.launcher == Spawned || s.launcher == Dropped)
    && (s.launcher == Spawned ==> s.task == Waiting && s.owner.None?)
    && (s.launcher == Stored ==> s.task == Waiting)
    && (s.launcher == Dropped ==> s.task == Waiting || s.task == NeverRan)
    && (s.launcher == Released ==> s.task != NeverRan)
    && (s.worked <==> s.task == Working || s.task == Closing || s.task == Done)
    && (s.finishedSlot <==> s.task == Done)
  }

  ghost predicate TakersInv(s: State) {
    && (forall k | 0 <= k < |s.takers| :: s.takers[k] == Got <==> s.owner == Some(k))
    && (s.owner.Some? ==> s.owner.value < |s.takers|)
    && (forall k | 0 <= k < |s.takers| && s.takers[k] == Nothing :: s.owner.Some? || s.finishedSlot || s.gaveUp)
  }

  ghost predicate Inv(s: State) {
    SlotInv(s) && TakersInv(s)
  }

  lemma SlotKept(s: State, step: Step)
    requires SlotInv(s) && Enabled(s, step)
    ensures SlotInv(Do(s, step))
  {
  }

  lemma TakersKept(s: State, step: Step)
    requires SlotInv(s) && TakersInv(s) && Enabled(s, step)
    ensures TakersInv(Do(s, step))
  {
  }

  /** Every step of the launcher, of the task and of any taker keeps the account of the handle. */
  lemma StepKeepsInv(s: State, step: Step)
    requires Inv(s) && Enabled(s, step)
    ensures Inv(Do(s, step))
  {
    SlotKept(s, step);
    TakersKept(s, step);
  }

  lemma {:induction false} RunKeepsInv(s: State, trace: seq<Step>)
    requires Inv(s) && Legal(s, trace)
    ensures Inv(Final(s, trace))
    decreases |trace|
  {
    if trace != [] {
      StepKeepsInv(s, trace[0]);
      RunKeepsInv(Do(s, trace[0]), trace[1..]);
    }
  }

  /** Handover in every reachable state: a task that has worked was published first; one that is done
      has worked and left the slot finished, unless it has been taken since; at most one
      taker ever gets the handle; a stored handle whose run has not ended is in the slot or with
      exactly that taker; and a taker that came away empty, with no fallback having hit a reserved
      slot, did so because the run ended or somebody owns the handle. */
  lemma Handover(s: State, trace: seq<Step>)
    requires Init(s) && Legal(s, trace)
    ensures var f := Final(s, trace);
            && (f.worked ==> f.launcher == Released)
            && (f.task == Done ==> f.worked && (f.slot == Finished || f.slot == Taken))
            && (forall j, k | 0 <= j < |f.takers| && 0 <= k < |f.takers| && f.takers[j] == Got && f.takers[k] == Got ::
                  j == k)
            && (f.launcher == Stored || f.launcher == Released ==>
                  f.slot == Published || f.task == Done || exists k :: 0 <= k < |f.takers| && f.takers[k] == Got)
            && (forall k | 0 <= k < |f.takers| && f.takers[k] == Nothing && !f.gaveUp ::
                  f.task == Done || exists j :: 0 <= j < |f.takers| && j != k && f.takers[j] == Got)
  {
    RunKeepsInv(s, trace);
    var f := Final(s, trace);
    if f.owner.Some? {
      assert f.takers[f.owner.value] == Got;
    }
  }

  /** No taker has come away empty while the run is neither over, nor given up by its launcher, nor
      owned by another taker. */
  ghost predicate NobodyMissesOut(s: State) {
    forall k | 0 <= k < |s.takers| && s.takers[k] == Nothing ::
      || s.task == Done || s.launcher == Dropped
      || exists j :: 0 <= j < |s.takers| && j != k && s.takers[j] == Got
  }

  ghost predicate NobodyEverMissesOut(s: State, trace: seq<Step>)
    requires Legal(s, trace)
    decreases |trace|
  {
    NobodyMissesOut(s) && (trace != [] ==> NobodyEverMissesOut(Do(s, trace[0]), trace[1..]))
  }

  /** A timeout fallback that finds the slot reserved by a launcher still at work. */
  predicate TooEarly(s: State, step: Step) {
    step.Fallback? && s.slot == Reserved && s.launcher != Dropped
  }

  predicate NeverTooEarly(s: State, trace: seq<Step>)
    requires Legal(s, trace)
    decreases |trace|
  {
    trace == [] || (!TooEarly(s, trace[0]) && NeverTooEarly(Do(s, trace[0]), trace[1..]))
  }

  /** Every fallback that comes too early leaves its taker with nothing. */
  lemma TooEarlyMissesOut(s: State, step: Step)
    requires Inv(s) && Enabled(s, step) && TooEarly(s, step)
    ensures !NobodyMissesOut(Do(s, step))
  {
    assert Do(s, step).takers[step.k] == Nothing;
  }

  /** Whoever gave up on a reserved slot did so on a launch that was dropped. */
  predicate Quiet(s: State) {
    s.gaveUp ==> s.launcher == Dropped
  }

  lemma QuietMissesNothing(s: State)
    requires Inv(s) && Quiet(s)
    ensures NobodyMissesOut(s)
  {
    if s.owner.Some? {
      assert s.takers[s.owner.value] == Got;
    }
  }

  lemma StaysQuiet(s: State, step: Step)
    requires Inv(s) && Quiet(s) && Enabled(s, step) && !TooEarly(s, step)
    ensures Quiet(Do(s, step))
  {
  }

  lemma {:induction false} RunMissesOutIff(s: State, trace: seq<Step>)
    requires Inv(s) && Quiet(s) && Legal(s, trace)
    ensures NobodyEverMissesOut(s, trace) <==> NeverTooEarly(s, trace)
    decreases |trace|
  {
    QuietMissesNothing(s);
    if trace != [] {
      StepKeepsInv(s, trace[0]);
      if TooEarly(s, trace[0]) {
        TooEarlyMissesOut(s, trace[0]);
      } else {
        StaysQuiet(s, trace[0]);
        RunMissesOutIff(Do(s, trace[0]), trace[1..]);
      }
    }
  }

  /** When a taker may conclude that there is nothing to take, exactly: in every state of a run an
      empty-handed taker means that the run is over, will never come, or is owned by another taker, if
      and only if no timeout fallback of the run finds the slot reserved by a launcher at work. */
  lemma MissesOutIff(s: State, trace: seq<Step>)
    requires Init(s) && Legal(s, trace)
    ensures NobodyEverMissesOut(s, trace) <==> NeverTooEarly(s, trace)
  {
    RunMissesOutIff(s, trace);
  }

  lemma {:induction false} RunKeepsOwner(s: State, trace: seq<Step>)
    requires Inv(s) && Legal(s, trace)
    ensures s.owner.Some? ==> Final(s, trace).owner == s.owner
    decreases |trace|
  {
    if trace != [] {
      StepKeepsInv(s, trace[0]);
      RunKeepsOwner(Do(s, trace[0]), trace[1..]);
    }
  }

  /** The handle is handed out once: whoever owns it owns it in every later state, so a second taker
      can never receive it afterwards either. */
  lemma HandedOutOnce(s: State, before: seq<Step>, after: seq<Step>, j: nat, k: nat)
    requires Init(s) && Legal(s, before) && Legal(Final(s, before), after)
    requires j < |Final(s, before).takers| && Final(s, before).takers[j] == Got
    requires k < |Final(Final(s, before), after).takers| && Final(Final(s, before), after).takers[k] == Got
    ensures j == k
  {
    RunKeepsInv(s, before);
    RunKeepsOwner(Final(s, before), after);
    RunKeepsInv(Final(s, before), after);
  }

  /** The timeout is the only gap: a taker that times out on a reserved slot returns nothing, and the
      run then starts and works with its handle in the slot. */
  lemma TimeoutLosesTheRun() returns (s: State, trace: seq<Step>)
    ensures Init(s) && Legal(s, trace)
    ensures var f := Final(s, trace);
            f.gaveUp && f.takers == [Nothing] && f.task == Working && f.slot == Published
  {
    s := State(Reserved, Spawned, Waiting, [Looking], false, false, None, false);
    trace := [Look(0), Timeout(0), Fallback(0), Store, Release, TaskStarts];
    var s1 := Do(s, trace[0]);
    var s2 := Do(s1, trace[1]);
    var s3 := Do(s2, trace[2]);
    var s4 := Do(s3, trace[3]);
    var s5 := Do(s4, trace[4]);
    var s6 := Do(s5, trace[5]);
    assert Legal(s6, trace[6..]) && Final(s6, trace[6..]) == s6;
    assert Legal(s5, trace[5..]) && Final(s5, trace[5..]) == s6;
    assert Legal(s4, trace[4..]) && Final(s4, trace[4..]) == s6;
    assert Legal(s3, trace[3..]) && Final(s3, trace[3..]) == s6;
    assert Legal(s2, trace[2..]) && Final(s2, trace[2..]) == s6;
    assert Legal(s1, trace[1..]) && Final(s1, trace[1..]) == s6;
  }

  // ---- runs come to an end ----

  function LaunchWork(l: Launcher): nat {
    match l case Spawned => 2 case Stored => 1 case Released => 0 case Dropped => 0
  }

  function TaskWork(k: Task): nat {
    match k case Waiting => 3 case Working => 2 case Closing => 1 case Done => 0 case NeverRan => 0
  }

  function TakerWork(k: Taker): nat {
    match k case Looking => 3 case AwaitingNotify => 2 case TimedOut => 1 case Got => 0 case Nothing => 0
  }

  function TakersWork(takers: seq<Taker>): nat {
    if takers == [] then 0 else TakerWork(takers[0]) + TakersWork(takers[1..])
  }

  function Work(s: State): nat {
    LaunchWork(s.launcher) + TaskWork(s.task) + TakersWork(s.takers)
  }

  lemma {:induction false} TakersWorkUpdate(takers: seq<Taker>, k: nat, next: Taker)
    requires k < |takers|
    ensures TakersWork(takers[k := next]) + TakerWork(takers[k]) == TakersWork(takers) + TakerWork(next)
  {
    if k == 0 {
      assert takers[0 := next][1..] == takers[1..];
    } else {
      assert takers[k := next][1..] == takers[1..][k - 1 := next];
      TakersWorkUpdate(takers[1..], k - 1, next);
    }
  }

  /** Every step uses up work, but for a notification, which sends one taker back to look again. */
  lemma StepWorks(s: State, step: Step)
    requires Enabled(s, step)
    ensures if step.Notified? then Work(Do(s, step)) == Work(s) + 1 else Work(Do(s, step)) < Work(s)
  {
    hide TakersWork;
    match step {
      case Look(k) =>
        TakersWorkUpdate(s.takers, k, if s.slot == Published then Got
                                      else if s.slot == Reserved then AwaitingNotify else Nothing);
      case Notified(k) => TakersWorkUpdate(s.takers, k, Looking);
      case Timeout(k) => TakersWorkUpdate(s.takers, k, TimedOut);
      case Fallback(k) => TakersWorkUpdate(s.takers, k, if s.slot == Published then Got else Nothing);
      case _ =>
    }
  }

  function Notifications(trace: seq<Step>): nat {
    if trace == [] then 0 else (if trace[0].Notified? then 1 else 0) + Notifications(trace[1..])
  }

  lemma {:induction false} RunWorks(s: State, trace: seq<Step>)
    requires Legal(s, trace)
    ensures |trace| + Work(Final(s, trace)) <= Work(s) + 2 * Notifications(trace)
    decreases |trace|
  {
    if trace != [] {
      StepWorks(s, trace[0]);
      RunWorks(Do(s, trace[0]), trace[1..]);
    }
  }

  lemma {:induction false} AllLooking(takers: seq<Taker>)
    requires forall k | 0 <= k < |takers| :: takers[k] == Looking
    ensures TakersWork(takers) == 3 * |takers|
  {
    if takers != [] {
      AllLooking(takers[1..]);
    }
  }

  ghost predicate Stuck(s: State) {
    forall step :: !Enabled(s, step)
  }

  lemma StuckIsOver(f: State)
    requires Inv(f) && Stuck(f)
    ensures f.launcher == Released || f.launcher == Dropped
    ensures f.task == if f.launcher == Released then Done else NeverRan
    ensures forall k | 0 <= k < |f.takers| :: f.takers[k] == Got || f.takers[k] == Nothing
  {
    assert !Enabled(f, Store) && !Enabled(f, Release) && !Enabled(f, TaskStarts) && !Enabled(f, TaskGivesUp);
    assert !Enabled(f, TaskEnds) && !Enabled(f, TaskCloses);
    forall k | 0 <= k < |f.takers| ensures f.takers[k] == Got || f.takers[k] == Nothing {
      assert !Enabled(f, Look(k)) && !Enabled(f, Timeout(k)) && !Enabled(f, Fallback(k));
    }
  }

  /** Nobody hangs: a run takes at most five steps of launcher and task, three per taker and two per
      notification; and when none is left to take, the launcher has released or dropped the run, the run
      is done or never ran accordingly, and every taker has returned. */
  lemma EverybodyReturns(s: State, trace: seq<Step>)
    requires Init(s) && Legal(s, trace)
    ensures |trace| <= 5 + 3 * |s.takers| + 2 * Notifications(trace)
    ensures var f := Final(s, trace);
            Stuck(f) ==>
              && (f.launcher == Released || f.launcher == Dropped)
              && f.task == (if f.launcher == Released then Done else NeverRan)
              && (forall k | 0 <= k < |f.takers| :: f.takers[k] == Got || f.takers[k] == Nothing)
  {
    RunWorks(s, trace);
    AllLooking(s.takers);
    RunKeepsInv(s, trace);
    hide Enabled, Legal, Final, Inv;
    if Stuck(Final(s, trace)) {
      StuckIsOver(Final(s, trace));
    }
  }

  /** What a take does to the slot: a look waits at a reserved one and leaves it; otherwise, and always
      after a timeout, the slot is taken, and whoever takes it has the handle exactly if it was stored. */
  lemma TakeOutcome(s: State, k: nat, late: bool)
    requires k < |s.takers| && s.takers[k] == if late then TimedOut else Looking
    ensures var step := if late then Fallback(k) else Look(k);
            && Enabled(s, step)
            && Do(s, step).takers ==
                 s.takers[k := if s.slot == Published then Got
                               else if s.slot == Reserved && !late then AwaitingNotify else Nothing]
            && Do(s, step).slot == (if s.slot == Reserved && !late then Reserved else Taken)
            && Do(s, step).launcher == s.launcher && Do(s, step).task == s.task
  {
  }

  /** A launcher can drop the launch at any moment before the release, and then the run never starts. */
  lemma DropAlone(s: State)
    requires (s.launcher == Spawned || s.launcher == Stored) && s.task == Waiting
    ensures Legal(s, [Drop, TaskGivesUp])
    ensures Final(s, [Drop, TaskGivesUp]) == s.(launcher := Dropped, task := NeverRan)
  {
    var dropped := Do(s, Drop);
    assert [Drop, TaskGivesUp][1..] == [TaskGivesUp] && [TaskGivesUp][1..] == [];
    assert Legal(dropped, [TaskGivesUp]) && Final(dropped, [TaskGivesUp]) == Do(dropped, TaskGivesUp);
  }
}
