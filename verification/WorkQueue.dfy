/**
 * The work queue as a protocol (wirelog/workqueue.c).
 *
 * Workers and one coordinator take turns in critical sections of one mutex. Threads that
 * wait on a condition variable are asleep until notified, and may also wake for no reason.
 * The coordinator's calls are serialized (wirelog/workqueue.h). Every step below is one
 * critical section, taken from what the mutex protects: the ring, the two counters and
 * the dispatch gate.
 */
module WorkQueue {
  import opened Bytes
  import WorkRing

  // ---- what the mutex protects ------------------------------------------------------------

  datatype Shared = Shared(capacity: nat, queue: seq<nat>, submitted: nat, completed: nat, gate: bool)

  function Enqueued(s: Shared, item: nat): Shared {
    if |s.queue| < s.capacity then s.(queue := s.queue + [item], submitted := s.submitted + 1) else s
  }

  function Dequeued(s: Shared): Shared
    requires s.queue != []
  {
    s.(queue := s.queue[1..])
  }

  /** The batch is over: counters back to zero and the gate shut. */
  function BatchEnded(s: Shared): Shared { s.(gate := false, submitted := 0, completed := 0) }

  class Queue {
    const ring: WorkRing.Ring<nat>
    var submitted: nat
    var completed: nat
    var gate: bool

    ghost predicate Valid()
      reads this, ring
    {
      ring.Valid()
    }

    ghost function View(): Shared
      requires Valid()
      reads this, ring, ring.ring
    {
      Shared(ring.ring.Length, ring.Contents(), submitted, completed, gate)
    }

    constructor (capacity: nat)
      requires capacity > 0
      ensures Valid() && View() == Shared(capacity, [], 0, 0, false) && fresh(ring) && fresh(ring.ring)
    {
      ring := new WorkRing.Ring(capacity);
      submitted, completed, gate := 0, 0, false;
    }

    method Submit(item: nat) returns (ok: bool)
      requires Valid()
      modifies this, ring, ring.ring
      ensures Valid() && View() == Enqueued(old(View()), item)
      ensures ok == (|old(View()).queue| < old(View()).capacity)
    {
      ok := ring.Enqueue(item);
      if ok {
        submitted := submitted + 1;
      }
    }

    /** A worker's test: an item when the gate is open and there is one, else it must sleep. */
    method TakeOrSleep() returns (item: Option<nat>)
      requires Valid()
      modifies this, ring
      ensures Valid()
      ensures item.Some? == (old(View()).queue != [] && old(View()).gate)
      ensures View() == if item.Some? then Dequeued(old(View())) else old(View())
      ensures item.Some? ==> item.value == old(View()).queue[0]
    {
      if ring.count == 0 || !gate {
        return None;
      }
      var x := ring.Dequeue();
      return Some(x);
    }

    /** A worker's completion, and whether it must signal the coordinator. */
    method Complete() returns (signal: bool)
      requires Valid()
      modifies this`completed
      ensures Valid() && View() == old(View()).(completed := old(View()).completed + 1)
      ensures signal == (View().completed == View().submitted)
    {
      completed := completed + 1;
      signal := completed == submitted;
    }

    /** The coordinator's test in wait_all, with the gate opened on entry. */
    method WaitTest(entering: bool) returns (finished: bool)
      requires Valid()
      modifies this
      ensures Valid()
      ensures finished == (old(View()).completed >= old(View()).submitted)
      ensures View() == if finished then BatchEnded(old(View()))
                        else if entering then old(View()).(gate := true) else old(View())
    {
      if entering {
        gate := true;
      }
      finished := completed >= submitted;
      if finished {
        gate, submitted, completed := false, 0, 0;
      }
    }

    /** The coordinator's turn in drain: the next item, or none left to take. */
    method DrainTake() returns (item: Option<nat>)
      requires Valid()
      modifies this, ring
      ensures Valid()
      ensures item.Some? == (old(View()).queue != [])
      ensures View() == if item.Some? then Dequeued(old(View())).(gate := false) else old(View()).(gate := false)
      ensures item.Some? ==> item.value == old(View()).queue[0]
    {
      gate := false;
      if ring.count == 0 {
        return None;
      }
      var x := ring.Dequeue();
      return Some(x);
    }
  }

  // ---- the protocol ----------------------------------------------------------------------------

  /** About to test under the mutex, asleep on work_avail, or running an item outside it. */
  datatype Worker = Ready | Asleep | Running(item: nat)

  /**
   * Between calls; asleep on all_done in wait_all or in drain (notified or not yet);
   * running an item of its own in drain.
   */
  datatype Coordinator = Idle | Waiting(notified: bool) | Draining(item: nat) | DrainWaiting(notified: bool)

  /**
   * The history: how many items were accepted, which were started, in order, which
   * finished, and which the caller of drain ran itself. Items are numbered as accepted.
   */
  datatype State = State(
    shared: Shared,
    workers: seq<Worker>,
    coord: Coordinator,
    accepted: nat,
    started: seq<nat>,
    finished: multiset<nat>,
    byCaller: set<nat>)

  datatype Event =
    | Submit
    | WaitAll
    | Drain
    | CoordinatorWakes
    | CallerFinishes
    | WorkerTests(i: nat)
    | WorkerWakes(i: nat)
    | WorkerFinishes(i: nat)

  function Broadcast(ws: seq<Worker>): (r: seq<Worker>)
    ensures |r| == |ws|
  {
    seq(|ws|, i requires 0 <= i < |ws| => if ws[i].Asleep? then Ready else ws[i])
  }

  function Notified(c: Coordinator): Coordinator {
    match c
    case Waiting(_) => Waiting(true)
    case DrainWaiting(_) => DrainWaiting(true)
    case _ => c
  }

  /** wait_all tests: done, or asleep until notified. */
  function WaitOrReturn(s: State): State {
    if s.shared.completed >= s.shared.submitted then s.(shared := BatchEnded(s.shared), coord := Idle)
    else s.(coord := Waiting(false))
  }

  /** drain's loop: take the next item, or wait for what workers still run, or return. */
  function DrainTurn(s: State): State {
    if s.shared.queue != [] then
      var item := s.shared.queue[0];
      s.(shared := Dequeued(s.shared), coord := Draining(item), started := s.started + [item])
    else if s.shared.completed >= s.shared.submitted then s.(shared := BatchEnded(s.shared), coord := Idle)
    else s.(coord := DrainWaiting(false))
  }

  function WorkerTurn(s: State, i: nat): State
    requires i < |s.workers|
  {
    if s.shared.queue == [] || !s.shared.gate then s.(workers := s.workers[i := Asleep])
    else
      var item := s.shared.queue[0];
      s.(shared := Dequeued(s.shared), workers := s.workers[i := Running(item)], started := s.started + [item])
  }

  function WorkerDone(s: State, i: nat): State
    requires i < |s.workers| && s.workers[i].Running?
  {
    var shared := s.shared.(completed := s.shared.completed + 1);
    s.(shared := shared,
       workers := s.workers[i := Ready],
       coord := if shared.completed == shared.submitted then Notified(s.coord) else s.coord,
       finished := s.finished + multiset{s.workers[i].item})
  }

  function CallerDone(s: State): State
    requires s.coord.Draining?
  {
    s.(shared := s.shared.(completed := s.shared.completed + 1),
       finished := s.finished + multiset{s.coord.item},
       byCaller := s.byCaller + {s.coord.item})
  }

  /** One step; None when it is not possible in this state. */
  function Next(s: State, e: Event): Option<State> {
    match e
    case Submit =>
      if !s.coord.Idle? then None
      else if |s.shared.queue| < s.shared.capacity
      then Some(s.(shared := Enqueued(s.shared, s.accepted), accepted := s.accepted + 1)) else Some(s)
    case WaitAll =>
      if !s.coord.Idle? then None
      else Some(WaitOrReturn(s.(shared := s.shared.(gate := true), workers := Broadcast(s.workers))))
    case Drain =>
      if !s.coord.Idle? then None else Some(DrainTurn(s.(shared := s.shared.(gate := false))))
    case CoordinatorWakes =>
      if s.coord.Waiting? then Some(WaitOrReturn(s))
      else if s.coord.DrainWaiting? then Some(DrainTurn(s)) else None
    case CallerFinishes => if s.coord.Draining? then Some(DrainTurn(CallerDone(s))) else None
    case WorkerTests(i) => if i < |s.workers| && s.workers[i].Ready? then Some(WorkerTurn(s, i)) else None
    case WorkerWakes(i) =>
      if i < |s.workers| && s.workers[i].Asleep? then Some(s.(workers := s.workers[i := Ready])) else None
    case WorkerFinishes(i) => if i < |s.workers| && s.workers[i].Running? then Some(WorkerDone(s, i)) else None
  }

  function Start(workers: nat, capacity: nat): State {
    State(Shared(capacity, [], 0, 0, false), seq(workers, _ => Ready), Idle, 0, [], multiset{}, {})
  }

  /** The state after a run of events, if it is a run. */
  function Run(s: State, events: seq<Event>): Option<State>
    decreases |events|
  {
    if events == [] then Some(s)
    else match Run(s, events[..|events| - 1])
         case None => None
         case Some(t) => Next(t, events[|events| - 1])
  }

  // ---- the invariant -----------------------------------------------------------------------------------

  function Held(w: Worker): multiset<nat> { if w.Running? then multiset{w.item} else multiset{} }

  function HeldByAll(ws: seq<Worker>): multiset<nat>
    decreases |ws|
  {
    if ws == [] then multiset{} else HeldByAll(ws[..|ws| - 1]) + Held(ws[|ws| - 1])
  }

  function HeldByCaller(c: Coordinator): multiset<nat> { if c.Draining? then multiset{c.item} else multiset{} }

  function FirstN(n: nat): (s: seq<nat>)
    ensures |s| == n
  {
    seq(n, i requires 0 <= i < n => i)
  }

  /** How many items are being run. */
  function RunningCount(s: State): nat { |HeldByAll(s.workers)| + |HeldByCaller(s.coord)| }

  /** Nothing is lost or invented: submitted = queued + running + completed. */
  predicate Conserved(s: State) {
    s.shared.submitted == |s.shared.queue| + RunningCount(s) + s.shared.completed
  }

  /** First in, first out: what was started, then what is queued, is what was accepted. */
  predicate InOrder(s: State) { s.started + s.shared.queue == FirstN(s.accepted) }

  /** What was started is finished or being run, each item once. */
  predicate OnceEach(s: State) {
    multiset(s.started) == s.finished + HeldByAll(s.workers) + HeldByCaller(s.coord)
  }

  /** No worker sleeps through an open gate with items waiting. */
  predicate NobodyOversleeps(s: State) {
    s.shared.gate && s.shared.queue != [] ==> forall i | 0 <= i < |s.workers| :: !s.workers[i].Asleep?
  }

  /** Where the current batch starts. */
  function BatchStart(s: State): int { s.accepted - s.shared.submitted }

  /** Items of the current batch that drain has taken were taken by its caller. */
  predicate CallerTook(s: State) {
    forall x | x in s.started && x >= BatchStart(s) :: x in s.byCaller || (s.coord.Draining? && s.coord.item == x)
  }

  predicate CoordinatorOk(s: State) {
    match s.coord
    case Idle => !s.shared.gate && HeldByAll(s.workers) == multiset{} && s.shared.completed == 0
    case Waiting(notified) => s.shared.gate && notified == (s.shared.completed == s.shared.submitted)
    case Draining(_) => !s.shared.gate && HeldByAll(s.workers) == multiset{} && CallerTook(s)
    case DrainWaiting(notified) => false
  }

  predicate Inv(s: State) {
    && |s.shared.queue| <= s.shared.capacity
    && Conserved(s) && InOrder(s) && OnceEach(s) && NobodyOversleeps(s) && CoordinatorOk(s)
    && s.shared.submitted <= s.accepted && s.shared.submitted <= s.shared.capacity
  }

  // ---- every step keeps it -----------------------------------------------------------------------------------

  /** Changing one worker exchanges what it holds. */
  lemma {:induction false} HeldUpdate(ws: seq<Worker>, i: nat, w: Worker)
    requires i < |ws|
    ensures HeldByAll(ws) + Held(w) == HeldByAll(ws[i := w]) + Held(ws[i])
    decreases |ws|
  {
    hide Held;
    var n := |ws| - 1;
    if i == n {
      assert ws[i := w][..n] == ws[..n];
    } else {
      HeldUpdate(ws[..n], i, w);
      assert ws[i := w][..n] == ws[..n][i := w];
      var a, b, h := HeldByAll(ws[..n]), HeldByAll(ws[..n][i := w]), Held(ws[n]);
      assert a + h + Held(w) == a + Held(w) + h;
      assert b + h + Held(ws[i]) == b + Held(ws[i]) + h;
    }
  }

  lemma {:induction false} HeldBroadcast(ws: seq<Worker>)
    ensures HeldByAll(Broadcast(ws)) == HeldByAll(ws)
    decreases |ws|
  {
    if ws != [] {
      var n := |ws| - 1;
      HeldBroadcast(ws[..n]);
      assert Broadcast(ws)[..n] == Broadcast(ws[..n]);
    }
  }

  lemma {:induction false} NobodyHolds(workers: nat)
    ensures HeldByAll(seq(workers, _ => Ready)) == multiset{}
    decreases workers
  {
    if workers > 0 {
      var ws := seq(workers, _ => Ready);
      NobodyHolds(workers - 1);
      assert ws[..workers - 1] == seq(workers - 1, _ => Ready);
    }
  }

  lemma NoneLeft(m: multiset<nat>)
    requires |m| == 0
    ensures m == multiset{}
  {}

  lemma StartHolds(workers: nat, capacity: nat)
    ensures Inv(Start(workers, capacity))
  {
    NobodyHolds(workers);
  }

  lemma SubmitKeeps(s: State)
    requires Inv(s) && s.coord.Idle? && |s.shared.queue| < s.shared.capacity
    ensures Inv(Next(s, Submit).value)
  {
    var t := Next(s, Submit).value;
    assert FirstN(s.accepted + 1) == FirstN(s.accepted) + [s.accepted];
    assert t.started + t.shared.queue == s.started + s.shared.queue + [s.accepted];
  }

  /** Taking the oldest item moves it from the queue to the started ones. */
  lemma TakeInOrder(s: State)
    requires InOrder(s) && s.shared.queue != []
    ensures s.started + [s.shared.queue[0]] + s.shared.queue[1..] == FirstN(s.accepted)
  {
    assert s.shared.queue == [s.shared.queue[0]] + s.shared.queue[1..];
  }

  /** What the invariant says apart from the coordinator's place. */
  predicate Core(s: State) {
    && |s.shared.queue| <= s.shared.capacity
    && Conserved(s) && InOrder(s) && OnceEach(s) && NobodyOversleeps(s)
    && s.shared.submitted <= s.accepted && s.shared.submitted <= s.shared.capacity
  }

  lemma ReturnKeeps(s: State)
    requires Core(s) && !s.coord.Draining? && s.shared.completed >= s.shared.submitted
    ensures Inv(s.(shared := BatchEnded(s.shared), coord := Idle)) && s.shared.queue == []
    ensures HeldByAll(s.workers) == multiset{} && s.finished == multiset(FirstN(s.accepted))
  {
    NoneLeft(HeldByAll(s.workers));
    assert s.started + [] == s.started;
  }

  lemma WaitKeeps(s: State)
    requires Core(s) && s.shared.gate && (s.coord.Idle? || s.coord.Waiting?)
    ensures Inv(WaitOrReturn(s))
  {
    if s.shared.completed >= s.shared.submitted {
      ReturnKeeps(s);
    }
  }

  lemma WaitAllKeeps(s: State)
    requires Inv(s) && s.coord.Idle?
    ensures Inv(Next(s, WaitAll).value)
  {
    HeldBroadcast(s.workers);
    WaitKeeps(s.(shared := s.shared.(gate := true), workers := Broadcast(s.workers)));
  }

  lemma StartedBelow(s: State, x: nat)
    requires InOrder(s) && x in s.started
    ensures x < |s.started|
  {
    var i :| 0 <= i < |s.started| && s.started[i] == x;
    assert (s.started + s.shared.queue)[i] == x;
  }

  /** drain's loop, with nothing running anywhere and everything of the batch taken by the caller. */
  lemma DrainTurnKeeps(s: State)
    requires Core(s) && !s.shared.gate && HeldByAll(s.workers) == multiset{} && s.coord.Idle?
    requires forall x | x in s.started && x >= BatchStart(s) :: x in s.byCaller
    ensures Inv(DrainTurn(s))
  {
    if s.shared.queue != [] {
      TakeInOrder(s);
      var item, t := s.shared.queue[0], DrainTurn(s);
      assert s.started + [item] + s.shared.queue[1..] == t.started + t.shared.queue;
      assert forall x | x in t.started :: x in s.started || x == item;
    } else {
      ReturnKeeps(s);
    }
  }

  lemma DrainKeeps(s: State)
    requires Inv(s) && s.coord.Idle?
    ensures Inv(Next(s, Drain).value)
  {
    assert |s.started + s.shared.queue| == s.accepted;
    forall x | x in s.started
      ensures x < BatchStart(s)
    {
      StartedBelow(s, x);
    }
    DrainTurnKeeps(s.(shared := s.shared.(gate := false)));
  }

  lemma CallerKeeps(s: State)
    requires Inv(s) && s.coord.Draining?
    ensures Inv(Next(s, CallerFinishes).value)
  {
    var u := CallerDone(s).(coord := Idle);
    assert DrainTurn(CallerDone(s)) == DrainTurn(u) by { DrainTurnSame(CallerDone(s)); }
    assert Core(u);
    DrainTurnKeeps(u);
  }

  /** The loop does not look at where the coordinator came from, unless it must wait. */
  lemma DrainTurnSame(s: State)
    ensures DrainTurn(s) == DrainTurn(s.(coord := Idle))
  {}

  /** A step that only puts a worker to sleep or wakes it. */
  lemma WorkersOnly(s: State, ws: seq<Worker>)
    requires Inv(s) && HeldByAll(ws) == HeldByAll(s.workers) && NobodyOversleeps(s.(workers := ws))
    ensures Inv(s.(workers := ws))
  {
    hide HeldByAll, FirstN, NobodyOversleeps;
  }

  lemma NotHolding(ws: seq<Worker>, i: nat, w: Worker)
    requires i < |ws| && !ws[i].Running? && !w.Running?
    ensures HeldByAll(ws[i := w]) == HeldByAll(ws)
  {
    HeldUpdate(ws, i, w);
    hide HeldByAll;
    assert HeldByAll(ws[i := w]) + multiset{} == HeldByAll(ws[i := w]) && HeldByAll(ws) + multiset{} == HeldByAll(ws);
  }

  lemma Holding(ws: seq<Worker>, i: nat, item: nat)
    requires i < |ws| && !ws[i].Running?
    ensures HeldByAll(ws[i := Running(item)]) == HeldByAll(ws) + multiset{item}
  {
    HeldUpdate(ws, i, Running(item));
  }

  lemma Released(ws: seq<Worker>, i: nat)
    requires i < |ws| && ws[i].Running?
    ensures HeldByAll(ws) == HeldByAll(ws[i := Ready]) + multiset{ws[i].item}
  {
    HeldUpdate(ws, i, Ready);
  }

  lemma WorkerTurnKeeps(s: State, i: nat)
    requires Inv(s) && i < |s.workers| && s.workers[i].Ready?
    ensures Inv(WorkerTurn(s, i))
  {
    if s.shared.queue == [] || !s.shared.gate {
      NotHolding(s.workers, i, Asleep);
      hide Inv;
      assert NobodyOversleeps(s.(workers := s.workers[i := Asleep]));
      WorkersOnly(s, s.workers[i := Asleep]);
    } else {
      WorkerTakes(s, i);
    }
  }

  lemma TakeConserves(s: State, t: State, item: nat)
    requires Conserved(s) && s.shared.queue != [] && t.shared == Dequeued(s.shared) && t.coord == s.coord
    requires HeldByAll(t.workers) == HeldByAll(s.workers) + multiset{item}
    ensures Conserved(t)
  {
    hide HeldByAll, HeldByCaller;
  }

  lemma TakeOnce(s: State, t: State, item: nat)
    requires OnceEach(s) && t.started == s.started + [item] && t.finished == s.finished && t.coord == s.coord
    requires HeldByAll(t.workers) == HeldByAll(s.workers) + multiset{item}
    ensures OnceEach(t)
  {
    hide HeldByAll, HeldByCaller;
    assert multiset(s.started + [item]) == multiset(s.started) + multiset{item};
  }

  lemma WorkerTakes(s: State, i: nat)
    requires Inv(s) && i < |s.workers| && s.workers[i].Ready? && s.shared.queue != [] && s.shared.gate
    ensures Inv(WorkerTurn(s, i))
  {
    hide HeldByAll, Conserved, OnceEach, FirstN;
    var item, t := s.shared.queue[0], WorkerTurn(s, i);
    Holding(s.workers, i, item);
    TakeConserves(s, t, item);
    TakeOnce(s, t, item);
    TakeInOrder(s);
    assert s.started + [item] + s.shared.queue[1..] == t.started + t.shared.queue;
    assert NobodyOversleeps(t);
  }

  lemma WorkerWakesKeeps(s: State, i: nat)
    requires Inv(s) && i < |s.workers| && s.workers[i].Asleep?
    ensures Inv(s.(workers := s.workers[i := Ready]))
  {
    NotHolding(s.workers, i, Ready);
    assert NobodyOversleeps(s.(workers := s.workers[i := Ready]));
    hide Inv;
    WorkersOnly(s, s.workers[i := Ready]);
  }

  lemma WorkerDoneKeeps(s: State, i: nat)
    requires Inv(s) && i < |s.workers| && s.workers[i].Running?
    ensures Inv(WorkerDone(s, i))
  {
    Released(s.workers, i);
    hide HeldByAll, FirstN;
    var t := WorkerDone(s, i);
    assert s.workers[i].item in HeldByAll(s.workers);
    assert NobodyOversleeps(t);
  }

  /** Every step keeps the invariant. */
  lemma StepKeeps(s: State, e: Event)
    requires Inv(s) && Next(s, e).Some?
    ensures Inv(Next(s, e).value)
  {
    hide Inv, WorkerTurn, WorkerDone, DrainTurn, WaitOrReturn, CallerDone;
    match e
    case Submit =>
      if |s.shared.queue| < s.shared.capacity {
        SubmitKeeps(s);
      }
    case WaitAll => WaitAllKeeps(s);
    case Drain => DrainKeeps(s);
    case CoordinatorWakes => WakeKeeps(s);
    case CallerFinishes => CallerKeeps(s);
    case WorkerTests(i) => WorkerTurnKeeps(s, i);
    case WorkerWakes(i) => WorkerWakesKeeps(s, i);
    case WorkerFinishes(i) => WorkerDoneKeeps(s, i);
  }

  /** The coordinator never sleeps in drain, so waking is always waking in wait_all. */
  lemma WakeKeeps(s: State)
    requires Inv(s) && Next(s, CoordinatorWakes).Some?
    ensures s.coord.Waiting? && Inv(Next(s, CoordinatorWakes).value)
  {
    WaitKeeps(s);
  }

  /** Over every interleaving: conservation, order, once each, no oversleeping, no lost signal. */
  lemma {:induction false} RunKeeps(workers: nat, capacity: nat, events: seq<Event>)
    requires Run(Start(workers, capacity), events).Some?
    ensures Inv(Run(Start(workers, capacity), events).value)
    ensures |Run(Start(workers, capacity), events).value.workers| == workers
    decreases |events|
  {
    hide Inv, Next;
    if events == [] {
      StartHolds(workers, capacity);
    } else {
      var init := events[..|events| - 1];
      RunKeeps(workers, capacity, init);
      StepKeeps(Run(Start(workers, capacity), init).value, events[|events| - 1]);
      SameWorkers(Run(Start(workers, capacity), init).value, events[|events| - 1]);
    }
  }

  lemma SameWorkers(s: State, e: Event)
    requires Next(s, e).Some?
    ensures |Next(s, e).value.workers| == |s.workers|
  {}

  // ---- what the invariant gives ----------------------------------------------------------------------------

  predicate Returns(s: State, e: Event) {
    Next(s, e).Some? && Next(s, e).value.coord.Idle? && (!s.coord.Idle? || e.WaitAll? || e.Drain?)
  }

  /** Both calls return only when nothing is queued or running, and every item accepted so far has run. */
  lemma BarrierHolds(s: State, e: Event)
    requires Inv(s) && Returns(s, e)
    ensures var t := Next(s, e).value;
            t.shared.queue == [] && RunningCount(t) == 0 && t.finished == multiset(FirstN(t.accepted))
            && !t.shared.gate && t.shared.submitted == t.shared.completed == 0
  {
    ReturnsClear(s, e);
    StepKeeps(s, e);
    hide Next, HeldByAll, FirstN;
    var t := Next(s, e).value;
    NoneLeft(HeldByAll(t.workers));
    assert t.started + t.shared.queue == t.started;
  }

  lemma ReturnsClear(s: State, e: Event)
    requires Inv(s) && Returns(s, e)
    ensures var t := Next(s, e).value; t.shared.submitted == 0 && !t.shared.gate
  {
    hide HeldByAll, FirstN, Conserved, OnceEach, InOrder, NobodyOversleeps;
  }

  /** A batch ended by drain ran wholly on the caller. */
  lemma DrainRunsOnCaller(s: State, e: Event, x: nat)
    requires Inv(s) && s.coord.Draining? && Next(s, e).Some? && Next(s, e).value.coord.Idle?
    requires BatchStart(s) <= x < s.accepted
    ensures x in Next(s, e).value.byCaller
  {
    assert e.CallerFinishes?;
    assert s.shared.queue == [] && s.started + [] == s.started;
    assert s.started[x] == x;
  }

  /** Nobody passes a shut gate: while the caller drains, workers only test and sleep. */
  lemma ShutGateHolds(s: State, i: nat)
    requires Inv(s) && !s.coord.Waiting? && i < |s.workers|
    ensures Next(s, WorkerFinishes(i)).None?
    ensures s.workers[i].Ready? ==> Next(s, WorkerTests(i)) == Some(s.(workers := s.workers[i := Asleep]))
  {
    SomeoneIsHeld(s.workers, i);
    hide HeldByAll, FirstN, Conserved, OnceEach, InOrder;
  }

  lemma SomeoneIsHeld(ws: seq<Worker>, i: nat)
    requires i < |ws|
    ensures HeldByAll(ws) == multiset{} ==> !ws[i].Running?
  {
    HeldUpdate(ws, i, Ready);
  }

  /** Each item is started once: the started items are 0, 1, 2, ... in order. */
  lemma StartedOnce(s: State, i: nat, j: nat)
    requires Inv(s) && i < |s.started| && j < |s.started| && s.started[i] == s.started[j]
    ensures i == j && s.started[i] == i
  {
    assert (s.started + s.shared.queue)[i] == i && (s.started + s.shared.queue)[j] == j;
  }

  // ---- progress --------------------------------------------------------------------------------------------------

  /** What is left to do before the coordinator can be signalled. */
  function Remaining(s: State): nat { 2 * |s.shared.queue| + |HeldByAll(s.workers)| }

  /** A step of a worker that takes or finishes an item. */
  predicate IsWork(s: State, e: Event) {
    || (e.WorkerTests? && e.i < |s.workers| && s.workers[e.i].Ready? && s.shared.gate && s.shared.queue != [])
    || (e.WorkerFinishes? && e.i < |s.workers| && s.workers[e.i].Running?)
  }

  lemma WorkDecreases(s: State, e: Event)
    requires IsWork(s, e)
    ensures Next(s, e).Some? && Remaining(Next(s, e).value) < Remaining(s)
  {
    hide HeldByAll;
    if e.WorkerTests? {
      Holding(s.workers, e.i, s.shared.queue[0]);
    } else {
      Released(s.workers, e.i);
    }
  }

  lemma {:induction false} SomeoneHolds(ws: seq<Worker>) returns (i: nat)
    requires HeldByAll(ws) != multiset{}
    ensures i < |ws| && ws[i].Running?
    decreases |ws|
  {
    var n := |ws| - 1;
    if ws[n].Running? {
      i := n;
    } else {
      i := SomeoneHolds(ws[..n]);
    }
  }

  /** No wakeup is lost: while the coordinator sleeps un-notified, some worker has work to do. */
  lemma SomeoneCanWork(s: State) returns (e: Event)
    requires Inv(s) && s.coord == Waiting(false) && s.workers != []
    ensures IsWork(s, e)
  {
    if HeldByAll(s.workers) != multiset{} {
      var i := SomeoneHolds(s.workers);
      e := WorkerFinishes(i);
    } else {
      assert s.shared.queue != [];
      SomeoneIsHeld(s.workers, 0);
      assert !s.workers[0].Asleep?;
      e := WorkerTests(0);
    }
  }

  lemma WorkKeepsWaiting(s: State, e: Event)
    requires Inv(s) && s.coord.Waiting? && IsWork(s, e)
    ensures Next(s, e).Some? && Next(s, e).value.coord.Waiting? && |Next(s, e).value.workers| == |s.workers|
  {}

  /** A notified coordinator returns when it wakes. */
  lemma WakeReturns(s: State)
    requires Inv(s) && s.coord == Waiting(true)
    ensures Next(s, CoordinatorWakes).Some? && Next(s, CoordinatorWakes).value.coord.Idle?
  {}

  /** From every state of a wait, working steps alone lead to the return of wait_all. */
  lemma {:induction false} WaitCanReturn(s: State) returns (events: seq<Event>)
    requires Inv(s) && s.coord.Waiting? && s.workers != []
    ensures Run(s, events).Some? && Run(s, events).value.coord.Idle?
    ensures |events| <= Remaining(s) + 1
    decreases Remaining(s)
  {
    hide Inv, Next, Remaining, IsWork;
    if s.coord.notified {
      events := [CoordinatorWakes];
      WakeReturns(s);
      RunCons(s, CoordinatorWakes, []);
      assert [CoordinatorWakes] + [] == [CoordinatorWakes];
    } else {
      var e := SomeoneCanWork(s);
      WorkDecreases(s, e);
      StepKeeps(s, e);
      WorkKeepsWaiting(s, e);
      var rest := WaitCanReturn(Next(s, e).value);
      events := [e] + rest;
      RunCons(s, e, rest);
    }
  }

  lemma {:induction false} RunCons(s: State, e: Event, rest: seq<Event>)
    requires Next(s, e).Some?
    ensures Run(s, [e] + rest) == Run(Next(s, e).value, rest)
    decreases |rest|
  {
    hide Next;
    var all := [e] + rest;
    if rest == [] {
      assert all == [e] && [e][..0] == [];
    } else {
      RunCons(s, e, rest[..|rest| - 1]);
      assert all[..|all| - 1] == [e] + rest[..|rest| - 1];
    }
  }

  /** A run during which wait_all does not return. */
  predicate StillWaiting(s: State, events: seq<Event>)
    decreases |events|
  {
    && Run(s, events).Some? && Run(s, events).value.coord.Waiting?
    && (events != [] ==> StillWaiting(s, events[..|events| - 1]))
  }

  /** How many of its steps take or finish an item. */
  function WorkSteps(s: State, events: seq<Event>): nat
    requires Run(s, events).Some?
    decreases |events|
  {
    if events == [] then 0
    else
      var init, e := events[..|events| - 1], events[|events| - 1];
      WorkSteps(s, init) + if IsWork(Run(s, init).value, e) then 1 else 0
  }

  /** In a wait, working steps use up one unit of what remains and no other step changes it. */
  lemma StepUses(s: State, e: Event)
    requires Inv(s) && s.coord.Waiting? && Next(s, e).Some? && Next(s, e).value.coord.Waiting?
    ensures Remaining(s) == Remaining(Next(s, e).value) + if IsWork(s, e) then 1 else 0
  {
    hide Inv, HeldByAll;
    if e.WorkerTests? || e.WorkerWakes? || e.WorkerFinishes? {
      var w, ws := s.workers[e.i], Next(s, e).value.workers;
      assert ws == s.workers[e.i := ws[e.i]];
      HeldUpdate(s.workers, e.i, ws[e.i]);
      assert |HeldByAll(s.workers) + Held(ws[e.i])| == |HeldByAll(s.workers)| + |Held(ws[e.i])|;
      assert |HeldByAll(ws) + Held(w)| == |HeldByAll(ws)| + |Held(w)|;
    }
  }

  lemma {:induction false} WaitKeepsInv(s: State, events: seq<Event>)
    requires Inv(s) && Run(s, events).Some?
    ensures Inv(Run(s, events).value)
    decreases |events|
  {
    hide Inv, Next;
    if events != [] {
      var init := events[..|events| - 1];
      WaitKeepsInv(s, init);
      StepKeeps(Run(s, init).value, events[|events| - 1]);
    }
  }

  lemma SignalledIff(s: State)
    requires Inv(s) && s.coord.Waiting?
    ensures s.coord.notified <==> Remaining(s) == 0
  {
    hide HeldByAll, FirstN, OnceEach, InOrder, NobodyOversleeps;
  }

  /**
   * Over every run of a wait, whatever the interleaving: working steps and what remains add
   * up to what remained at the start, and the signal comes with the last of them.
   */
  lemma {:induction false} EveryWaitIsBounded(s: State, events: seq<Event>)
    requires Inv(s) && StillWaiting(s, events)
    ensures WorkSteps(s, events) + Remaining(Run(s, events).value) == Remaining(s)
    ensures Run(s, events).value.coord.notified <==> WorkSteps(s, events) == Remaining(s)
    decreases |events|
  {
    hide Inv, Next, Remaining, IsWork;
    WaitKeepsInv(s, events);
    SignalledIff(Run(s, events).value);
    if events != [] {
      var init := events[..|events| - 1];
      EveryWaitIsBounded(s, init);
      WaitKeepsInv(s, init);
      StepUses(Run(s, init).value, events[|events| - 1]);
    }
  }
}
