/** The wake-up protocol of `CancellationToken` (crates/handshaker-core/src/cancellation.rs).

    The token is an atomic flag plus a watch channel, modelled as a value and a version.  Any
    number of `cancel` calls and `cancelled` waits interleave, one shared access at a time. */
module Cancellation {

  /** One `cancel` call: before the swap, after winning it (send pending), finished. */
  datatype Canceller = Swapping | Sending | Finished

  /** One `cancelled` wait.  `seen` is the channel version the subscription started from. */
  datatype Waiter =
    | Entering
    | Subscribed(seen: nat)
    | CheckingFlag(seen: nat)
    | Blocked(seen: nat)
    | Returned

  datatype State = State(
    cancelled: bool,
    value: bool,
    version: nat,
    cancellers: seq<Canceller>,
    waiters: seq<Waiter>)

  datatype Step =
    | Swap(i: nat)
    | Send(i: nat)
    | Subscribe(j: nat)
    | Borrow(j: nat)
    | LoadFlag(j: nat)
    | Wake(j: nat)

  predicate Init(s: State) {
    && !s.cancelled && !s.value && s.version == 0
    && (forall i | 0 <= i < |s.cancellers| :: s.cancellers[i] == Swapping)
    && (forall j | 0 <= j < |s.waiters| :: s.waiters[j] == Entering)
  }

  /** When a step can be taken.  Only `Wake` waits for somebody else: `changed()` stays pending
      until the channel version differs from the one the subscription has seen. */
  predicate Enabled(s: State, step: Step) {
    match step
    case Swap(i) => i < |s.cancellers| && s.cancellers[i].Swapping?
    case Send(i) => i < |s.cancellers| && s.cancellers[i].Sending?
    case Subscribe(j) => j < |s.waiters| && s.waiters[j].Entering?
    case Borrow(j) => j < |s.waiters| && s.waiters[j].Subscribed?
    case LoadFlag(j) => j < |s.waiters| && s.waiters[j].CheckingFlag?
    case Wake(j) => j < |s.waiters| && s.waiters[j].Blocked? && s.version != s.waiters[j].seen
  }

  function Do(s: State, step: Step): State
    requires Enabled(s, step)
  {
    match step
    case Swap(i) =>
      s.(cancelled := true, cancellers := s.cancellers[i := if s.cancelled then Finished else Sending])
    case Send(i) =>
      s.(value := true, version := s.version + 1, cancellers := s.cancellers[i := Finished])
    case Subscribe(j) =>
      s.(waiters := s.waiters[j := Subscribed(s.version)])
    case Borrow(j) =>
      s.(waiters := s.waiters[j := if s.value then Returned else CheckingFlag(s.waiters[j].seen)])
    case LoadFlag(j) =>
      s.(waiters := s.waiters[j := if s.cancelled then Returned else Blocked(s.waiters[j].seen)])
    case Wake(j) =>
      s.(waiters := s.waiters[j := Returned])
  }

  /** Every step of the trace is taken when it is enabled. */
  predicate Legal(s: State, trace: seq<Step>)
    decreases |trace|
  {
    trace == [] || (Enabled(s, trace[0]) && Legal(Do(s, trace[0]), trace[1..]))
  }

  function Final(s: State, trace: seq<Step>): State
    requires Legal(s, trace)
    decreases |trace|
  {
    if trace == [] then s else Final(Do(s, trace[0]), trace[1..])
  }

  /** The inductive invariant.  A canceller between its swap and its send is unique and sends the
      only message; a waiter that got past the value check subscribed before that message. */
  ghost predicate Inv(s: State) {
    && (s.value <==> s.version == 1)
    && s.version <= 1
    && (s.value ==> s.cancelled)
    && (s.cancelled && !s.value ==> exists i :: 0 <= i < |s.cancellers| && s.cancellers[i].Sending?)
    && (!s.cancelled ==> forall i | 0 <= i < |s.cancellers| :: s.cancellers[i].Swapping?)
    && (s.value ==> forall i | 0 <= i < |s.cancellers| :: !s.cancellers[i].Sending?)
    && (forall i, k | 0 <= i < k < |s.cancellers| :: !(s.cancellers[i].Sending? && s.cancellers[k].Sending?))
    && (forall j | 0 <= j < |s.waiters| :: WaiterInv(s, s.waiters[j]))
  }

  predicate WaiterInv(s: State, w: Waiter) {
    match w
    case Entering => true
    case Subscribed(seen) => seen <= s.version
    case CheckingFlag(seen) => seen == 0
    case Blocked(seen) => seen == 0
    case Returned => s.cancelled
  }

  lemma StepKeepsInv(s: State, step: Step)
    requires Inv(s) && Enabled(s, step)
    ensures Inv(Do(s, step))
  {
    var s' := Do(s, step);
    match step {
      case Swap(i) =>
        if !s.cancelled {
          assert s'.cancellers[i].Sending?;
        } else if !s.value {
          var k :| 0 <= k < |s.cancellers| && s.cancellers[k].Sending?;
          assert s'.cancellers[k].Sending?;
        }
      case Send(i) =>
      case Subscribe(j) =>
        if s.cancelled && !s.value {
          var k :| 0 <= k < |s.cancellers| && s.cancellers[k].Sending?;
          assert s'.cancellers[k].Sending?;
        }
      case Borrow(j) =>
      case LoadFlag(j) =>
      case Wake(j) =>
    }
  }

  lemma {:induction false} RunKeepsInv(s: State, trace: seq<Step>)
    requires Inv(s) && Legal(s, trace)
    ensures Inv(Final(s, trace))
    decreases |trace|
  {
    if trace != [] {
      StepKeepsInv(s, trace[0]);
      RunKeepsInv(Do(s, trace[0]), trace[1..]);
    }
  }

  /** No lost wake-up.  In every reachable state: once the first canceller has sent, no waiter is
      stuck in `changed()`; a set flag with no message yet means its sender is about to send; and
      whoever returned did so after cancellation. */
  lemma NoLostWakeUp(s: State, trace: seq<Step>)
    requires Init(s) && Legal(s, trace)
    ensures var f := Final(s, trace);
            && (f.value ==> forall j | 0 <= j < |f.waiters| && f.waiters[j].Blocked? :: Enabled(f, Wake(j)))
            && (f.cancelled && !f.value ==>
                  exists i :: 0 <= i < |f.cancellers| && Enabled(f, Send(i)))
            && (forall j | 0 <= j < |f.waiters| && f.waiters[j].Returned? :: f.cancelled)
  {
    RunKeepsInv(s, trace);
    var f := Final(s, trace);
    if f.cancelled && !f.value {
      var i :| 0 <= i < |f.cancellers| && f.cancellers[i].Sending?;
      assert Enabled(f, Send(i));
    }
  }

  // ---- every wait ends ----

  function CancellerWork(c: Canceller): nat {
    match c case Swapping => 2 case Sending => 1 case Finished => 0
  }

  function WaiterWork(w: Waiter): nat {
    match w case Entering => 4 case Subscribed(_) => 3 case CheckingFlag(_) => 2 case Blocked(_) => 1 case Returned => 0
  }

  function Sum(work: seq<nat>): nat {
    if work == [] then 0 else work[0] + Sum(work[1..])
  }

  /** Steps still to come, counted per actor. */
  function Work(s: State): nat {
    Sum(seq(|s.cancellers|, i requires 0 <= i < |s.cancellers| => CancellerWork(s.cancellers[i])))
    + Sum(seq(|s.waiters|, j requires 0 <= j < |s.waiters| => WaiterWork(s.waiters[j])))
  }

  lemma {:induction false} SumUpdate(work: seq<nat>, i: nat, n: nat)
    requires i < |work|
    ensures Sum(work[i := n]) == Sum(work) - work[i] + n
  {
    if i == 0 {
      assert work[i := n][1..] == work[1..];
    } else {
      assert work[i := n][1..] == work[1..][i - 1 := n];
      SumUpdate(work[1..], i - 1, n);
    }
  }

  lemma {:induction false} SumBound(work: seq<nat>, c: nat)
    requires forall i | 0 <= i < |work| :: work[i] <= c
    ensures Sum(work) <= c * |work|
  {
    if work != [] {
      SumBound(work[1..], c);
      assert c * |work| == c + c * |work[1..]|;
    }
  }

  lemma StepWorks(s: State, step: Step)
    requires Enabled(s, step)
    ensures Work(Do(s, step)) < Work(s)
  {
    var s' := Do(s, step);
    var cs := seq(|s.cancellers|, i requires 0 <= i < |s.cancellers| => CancellerWork(s.cancellers[i]));
    var cs' := seq(|s'.cancellers|, i requires 0 <= i < |s'.cancellers| => CancellerWork(s'.cancellers[i]));
    var ws := seq(|s.waiters|, j requires 0 <= j < |s.waiters| => WaiterWork(s.waiters[j]));
    var ws' := seq(|s'.waiters|, j requires 0 <= j < |s'.waiters| => WaiterWork(s'.waiters[j]));
    if step.Swap? || step.Send? {
      assert cs' == cs[step.i := cs'[step.i]] && ws' == ws;
      SumUpdate(cs, step.i, cs'[step.i]);
    } else {
      assert ws' == ws[step.j := ws'[step.j]] && cs' == cs;
      SumUpdate(ws, step.j, ws'[step.j]);
    }
  }

  lemma {:induction false} RunWorks(s: State, trace: seq<Step>)
    requires Legal(s, trace)
    ensures |trace| + Work(Final(s, trace)) <= Work(s)
    decreases |trace|
  {
    if trace != [] {
      StepWorks(s, trace[0]);
      RunWorks(Do(s, trace[0]), trace[1..]);
    }
  }

  ghost predicate Stuck(s: State) {
    forall step :: !Enabled(s, step)
  }

  lemma {:induction false} RunKeepsActors(s: State, trace: seq<Step>)
    requires Legal(s, trace)
    ensures |Final(s, trace).cancellers| == |s.cancellers| && |Final(s, trace).waiters| == |s.waiters|
    decreases |trace|
  {
    if trace != [] {
      RunKeepsActors(Do(s, trace[0]), trace[1..]);
    }
  }

  /** Every run is finite, and a run that cannot continue has released every waiter as soon as
      anybody called `cancel`. */
  lemma EveryWaiterReturns(s: State, trace: seq<Step>)
    requires Init(s) && Legal(s, trace)
    ensures |trace| <= 2 * |s.cancellers| + 4 * |s.waiters|
    ensures Stuck(Final(s, trace)) && |s.cancellers| > 0 ==>
              forall j | 0 <= j < |Final(s, trace).waiters| :: Final(s, trace).waiters[j].Returned?
  {
    RunWorks(s, trace);
    SumBound(seq(|s.cancellers|, i requires 0 <= i < |s.cancellers| => CancellerWork(s.cancellers[i])), 2);
    SumBound(seq(|s.waiters|, j requires 0 <= j < |s.waiters| => WaiterWork(s.waiters[j])), 4);
    RunKeepsInv(s, trace);
    RunKeepsActors(s, trace);
    var f := Final(s, trace);
    if Stuck(f) && |s.cancellers| > 0 {
      forall i | 0 <= i < |f.cancellers| ensures f.cancellers[i].Finished? {
        assert !Enabled(f, Swap(i)) && !Enabled(f, Send(i));
      }
      assert f.cancellers[0].Finished?;
      assert f.value;
      forall j | 0 <= j < |f.waiters| ensures f.waiters[j].Returned? {
        assert !Enabled(f, Subscribe(j)) && !Enabled(f, Borrow(j));
        assert !Enabled(f, LoadFlag(j)) && !Enabled(f, Wake(j));
      }
    }
  }
}
