/** The kernel work list (excerpts/kernel_list.c): any number of submitters append
work under a spin lock and wake one worker thread, which tests the list for
emptiness without taking the lock before it goes to sleep. */
module WorkQueue {
  import opened Common

  datatype Work = Work(func: nat, data: nat)

  datatype LockState = Unlocked | ByWorker | BySubmitter(t: nat)

  /** Where a submitter stands; `node` is the address kmalloc returned. */
  datatype SubPc =
    | Idle
    | Filled(node: nat)   // allocated and populated
    | Holding(node: nat)  // spin lock taken
    | Added               // list_add_tail done, worker not woken yet
    | Woken               // wake_up done, lock still held

  /** Where the worker stands. */
  datatype WorkerPc =
    | Start
    | TestDie
    | AddWait
    | TestEmpty
    | Schedule                        // inside schedule()
    | SetRunning
    | RemoveWait
    | Acquire
    | TestList                        // from here to Release the lock is held
    | Unlink(node: nat, work: Work)   // first node read
    | Free(node: nat, work: Work)     // off the list
    | Release(work: Work)             // freed
    | Execute(work: Work)
    | Reacquire
    | FinalUnlock
    | SetInterruptible
    | Leave
    | Done

  /** `heap` holds the allocated nodes, `running` is the worker's task state, and
      `onQueue` says that it is on the wait queue.  `submitted` and `executed`
      record tail insertions and calls of work functions, in order. */
  datatype Sys = Sys(list: seq<nat>, heap: map<nat, Work>, lock: LockState, onQueue: bool, running: bool,
                     worker: WorkerPc, subs: seq<SubPc>, submitted: seq<Work>, executed: seq<Work>)

  datatype Event =
    | Worker(die: bool)                        // next statement; `die` is what asked_to_die() says
    | Submit(t: nat, node: nat, work: Work)    // kmalloc and populate
    | Step(t: nat)                             // next statement of a submitter
    | Signal                                   // any other wake-up of the worker

  function Init(n: nat): Sys {
    Sys([], map[], Unlocked, false, true, Start, seq(n, _ => Idle), [], [])
  }

  /** The worker's next statement; None while it spins on the lock or sleeps. */
  function DoWorker(s: Sys, die: bool): Option<Sys> {
    match s.worker
    case Start => Some(s.(running := false, worker := TestDie))
    case TestDie => Some(s.(worker := if die then Leave else AddWait))
    case AddWait => Some(s.(onQueue := true, worker := TestEmpty))
    case TestEmpty => Some(s.(worker := if s.list == [] then Schedule else SetRunning))
    case Schedule => if s.running then Some(s.(worker := RemoveWait)) else None
    case SetRunning => Some(s.(running := true, worker := RemoveWait))
    case RemoveWait => Some(s.(onQueue := false, worker := Acquire))
    case Acquire => if s.lock.Unlocked? then Some(s.(lock := ByWorker, worker := TestList)) else None
    case TestList =>
      if s.list == [] then Some(s.(worker := FinalUnlock))
      else if s.list[0] in s.heap then Some(s.(worker := Unlink(s.list[0], s.heap[s.list[0]])))
      else None
    case Unlink(node, work) =>
      if s.list == [] then None else Some(s.(list := s.list[1..], worker := Free(node, work)))
    case Free(node, work) => Some(s.(heap := s.heap - {node}, worker := Release(work)))
    case Release(work) => Some(s.(lock := Unlocked, worker := Execute(work)))
    case Execute(work) => Some(s.(executed := s.executed + [work], worker := Reacquire))
    case Reacquire => if s.lock.Unlocked? then Some(s.(lock := ByWorker, worker := TestList)) else None
    case FinalUnlock => Some(s.(lock := Unlocked, worker := SetInterruptible))
    case SetInterruptible => Some(s.(running := false, worker := TestDie))
    case Leave => Some(s.(running := true, worker := Done))
    case Done => None
  }

  function DoSubmit(s: Sys, t: nat, node: nat, work: Work): Option<Sys> {
    if t < |s.subs| && s.subs[t].Idle? && node !in s.heap  // kmalloc returns memory not in use
    then Some(s.(heap := s.heap[node := work], subs := s.subs[t := Filled(node)]))
    else None
  }

  function DoStep(s: Sys, t: nat): Option<Sys> {
    if t >= |s.subs| then None else
    match s.subs[t]
    case Idle => None
    case Filled(node) =>
      if s.lock.Unlocked? then Some(s.(lock := BySubmitter(t), subs := s.subs[t := Holding(node)])) else None
    case Holding(node) =>
      if node in s.heap
      then Some(s.(list := s.list + [node], submitted := s.submitted + [s.heap[node]], subs := s.subs[t := Added]))
      else None
    case Added => Some(s.(running := s.running || s.onQueue, subs := s.subs[t := Woken]))
    case Woken => Some(s.(lock := Unlocked, subs := s.subs[t := Idle]))
  }

  function Do(s: Sys, e: Event): Option<Sys> {
    match e
    case Worker(die) => DoWorker(s, die)
    case Submit(t, node, work) => DoSubmit(s, t, node, work)
    case Step(t) => DoStep(s, t)
    case Signal => Some(s.(running := true))
  }

  // ---------------------------------------------------------------- the invariant

  predicate WorkerLocks(w: WorkerPc) { w.TestList? || w.Unlink? || w.Free? || w.Release? || w.FinalUnlock? }

  predicate WorkerQueued(w: WorkerPc) { w.TestEmpty? || w.Schedule? || w.SetRunning? || w.RemoveWait? }

  /** Between the end of the sleep and the next set_current_state(). */
  predicate WorkerRuns(w: WorkerPc) {
    w.RemoveWait? || w.Acquire? || WorkerLocks(w) || w.Execute? || w.Reacquire?
  }

  predicate SubLocks(p: SubPc) { p.Holding? || p.Added? || p.Woken? }

  predicate HasNode(p: SubPc) { p.Filled? || p.Holding? }

  predicate Distinct(xs: seq<nat>) { forall i, j :: 0 <= i < j < |xs| ==> xs[i] != xs[j] }

  /** The work taken off the list but not called yet. */
  function InHand(w: WorkerPc): seq<Work> {
    match w
    case Free(_, work) => [work]
    case Release(work) => [work]
    case Execute(work) => [work]
    case _ => []
  }

  function Works(list: seq<nat>, heap: map<nat, Work>): seq<Work>
    requires forall x <- list :: x in heap
  {
    seq(|list|, i requires 0 <= i < |list| => heap[list[i]])
  }

  predicate LockOk(s: Sys) {
    && (s.lock == ByWorker <==> WorkerLocks(s.worker))
    && (s.lock.BySubmitter? ==> s.lock.t < |s.subs|)
    && (forall t :: 0 <= t < |s.subs| ==> (SubLocks(s.subs[t]) <==> s.lock == BySubmitter(t)))
  }

  /** Listed and pending nodes are allocated and distinct: no use after free. */
  predicate NodesOk(s: Sys) {
    && Distinct(s.list)
    && (forall x <- s.list :: x in s.heap)
    && (forall t :: 0 <= t < |s.subs| && HasNode(s.subs[t]) ==> s.subs[t].node in s.heap && s.subs[t].node !in s.list)
    && (forall t, u :: 0 <= t < u < |s.subs| && HasNode(s.subs[t]) && HasNode(s.subs[u]) ==> s.subs[t].node != s.subs[u].node)
    && (s.worker.Unlink? ==> s.list != [] && s.list[0] == s.worker.node && s.heap[s.worker.node] == s.worker.work)
    && (s.worker.Free? ==> s.worker.node in s.heap && s.worker.node !in s.list
                           && forall t :: 0 <= t < |s.subs| && HasNode(s.subs[t]) ==> s.subs[t].node != s.worker.node)
  }

  predicate Waking(s: Sys) { exists t :: 0 <= t < |s.subs| && s.subs[t].Added? }

  predicate SleepOk(s: Sys) {
    && (s.onQueue <==> WorkerQueued(s.worker))
    && (WorkerRuns(s.worker) ==> s.running)
    && (s.worker.Schedule? && !s.running && s.list != [] ==> Waking(s))
  }

  predicate Inv(s: Sys) {
    LockOk(s) && NodesOk(s) && SleepOk(s) && Fifo(s)
  }

  lemma WorkerLock(s: Sys, die: bool)
    requires LockOk(s) && DoWorker(s, die).Some?
    ensures LockOk(DoWorker(s, die).value)
  {
    hide SubLocks;
    var u := DoWorker(s, die).value;
    assert u.subs == s.subs;
    if u.lock == s.lock { assert WorkerLocks(u.worker) == WorkerLocks(s.worker); }
  }

  lemma LockStep(s: Sys, e: Event)
    requires LockOk(s) && Do(s, e).Some?
    ensures LockOk(Do(s, e).value)
  {
    if e.Worker? { WorkerLock(s, e.die); }
  }

  lemma UnlinkNodes(s: Sys)
    requires NodesOk(s) && s.worker.Unlink?
    ensures NodesOk(s.(list := s.list[1..], worker := Free(s.worker.node, s.worker.work)))
  {
    var rest := s.list[1..];
    assert forall i :: 0 <= i < |rest| ==> rest[i] == s.list[i + 1];
    assert forall x <- rest :: x in s.list;
  }

  lemma FreeNodes(s: Sys)
    requires NodesOk(s) && s.worker.Free?
    ensures NodesOk(s.(heap := s.heap - {s.worker.node}, worker := Release(s.worker.work)))
  {
  }

  lemma SameNodes(s: Sys, u: Sys)
    requires NodesOk(s) && u.list == s.list && u.heap == s.heap && u.subs == s.subs && !u.worker.Free?
    requires u.worker.Unlink? ==> u.list != [] && u.list[0] == u.worker.node && u.worker.node in u.heap && u.heap[u.worker.node] == u.worker.work
    ensures NodesOk(u)
  {
    hide Distinct, HasNode;
  }

  lemma WorkerNodes(s: Sys, die: bool)
    requires LockOk(s) && NodesOk(s) && DoWorker(s, die).Some?
    ensures NodesOk(DoWorker(s, die).value)
  {
    hide LockOk, NodesOk;
    if s.worker.Unlink? { UnlinkNodes(s); }
    else if s.worker.Free? { FreeNodes(s); }
    else { SameNodes(s, DoWorker(s, die).value); }
  }

  /** While the worker is between reading and freeing a node it holds the lock. */
  lemma SubmitterNodes(s: Sys, e: Event)
    requires LockOk(s) && NodesOk(s) && (e.Submit? || e.Step?) && Do(s, e).Some?
    ensures NodesOk(Do(s, e).value)
  {
    var u := Do(s, e).value;
    if e.Step? && s.subs[e.t].Holding? {
      assert SubLocks(s.subs[e.t]) && !WorkerLocks(s.worker);
      hide LockOk;
      LinkNodes(s, e.t);
    }
  }

  lemma LinkNodes(s: Sys, t: nat)
    requires NodesOk(s) && !WorkerLocks(s.worker) && t < |s.subs| && s.subs[t].Holding?
    ensures DoStep(s, t).Some? && NodesOk(DoStep(s, t).value)
  {
    var u, node := DoStep(s, t).value, s.subs[t].node;
    assert HasNode(s.subs[t]);
    assert forall x <- u.list :: x == node || x in s.list;
  }

  lemma SleepStep(s: Sys, e: Event)
    requires SleepOk(s) && Do(s, e).Some?
    ensures SleepOk(Do(s, e).value)
  {
    if e.Worker? { WorkerSleep(s, e.die); } else { SubmitterSleep(s, e); }
  }

  lemma WorkerSleep(s: Sys, die: bool)
    requires SleepOk(s) && DoWorker(s, die).Some?
    ensures SleepOk(DoWorker(s, die).value)
  {
    assert DoWorker(s, die).value.subs == s.subs;
    hide Waking;
  }

  lemma SubmitterSleep(s: Sys, e: Event)
    requires SleepOk(s) && !e.Worker? && Do(s, e).Some?
    ensures SleepOk(Do(s, e).value)
  {
    var u := Do(s, e).value;
    assert u.worker == s.worker && u.onQueue == s.onQueue;
    hide WorkerQueued, WorkerRuns;
    if Waking(s) {
      var q :| 0 <= q < |s.subs| && s.subs[q].Added?;
      if !(e.Step? && q == e.t) { assert u.subs[q].Added?; }
    }
    if e.Step? && s.subs[e.t].Holding? { assert u.subs[e.t].Added?; }
  }

  /** Executed, in hand, and listed work together are what was submitted, in order. */
  predicate Fifo(s: Sys)
    requires forall x <- s.list :: x in s.heap
  {
    s.submitted == s.executed + InHand(s.worker) + Works(s.list, s.heap)
  }

  lemma SameWorks(list: seq<nat>, h: map<nat, Work>, k: map<nat, Work>)
    requires forall x <- list :: x in h && x in k && h[x] == k[x]
    ensures Works(list, h) == Works(list, k)
  {
  }

  lemma FifoStep(s: Sys, e: Event)
    requires NodesOk(s) && Fifo(s) && Do(s, e).Some? && NodesOk(Do(s, e).value)
    ensures Fifo(Do(s, e).value)
  {
    match e
    case Worker(die) => WorkerFifo(s, die);
    case _ => SubmitterFifo(s, e);
  }

  lemma WorkerFifo(s: Sys, die: bool)
    requires NodesOk(s) && Fifo(s) && DoWorker(s, die).Some? && NodesOk(DoWorker(s, die).value)
    ensures Fifo(DoWorker(s, die).value)
  {
    hide Distinct, HasNode, Works;
    var u := DoWorker(s, die).value;
    if s.worker.Unlink? {
      UnlinkFifo(s);
    } else {
      HandStep(s, die);
      assert forall x <- s.list :: x in u.heap && u.heap[x] == s.heap[x];
      hide NodesOk, InHand, DoWorker;
      SameWorks(s.list, s.heap, u.heap);
    }
  }

  lemma HandStep(s: Sys, die: bool)
    requires DoWorker(s, die).Some? && !s.worker.Unlink?
    ensures var u := DoWorker(s, die).value;
            u.list == s.list && u.submitted == s.submitted && u.executed + InHand(u.worker) == s.executed + InHand(s.worker)
  {
  }

  lemma SubmitterFifo(s: Sys, e: Event)
    requires NodesOk(s) && Fifo(s) && !e.Worker? && Do(s, e).Some? && NodesOk(Do(s, e).value)
    ensures Fifo(Do(s, e).value)
  {
    hide Distinct, HasNode;
    var u := Do(s, e).value;
    assert u.executed == s.executed && u.worker == s.worker;
    if e.Step? && s.subs[e.t].Holding? {
      assert Works(u.list, u.heap) == Works(s.list, s.heap) + [s.heap[s.subs[e.t].node]];
    } else {
      SameWorks(s.list, s.heap, u.heap);
    }
  }

  lemma UnlinkFifo(s: Sys)
    requires NodesOk(s) && Fifo(s) && s.worker.Unlink?
    ensures forall x <- s.list[1..] :: x in s.heap
    ensures Fifo(s.(list := s.list[1..], worker := Free(s.worker.node, s.worker.work)))
  {
    assert forall x <- s.list[1..] :: x in s.list;
    assert Works(s.list, s.heap) == [s.worker.work] + Works(s.list[1..], s.heap);
  }

  /** Every step of the worker and of every submitter keeps the invariant. */
  lemma StepInv(s: Sys, e: Event)
    requires Inv(s) && Do(s, e).Some?
    ensures Inv(Do(s, e).value)
  {
    LockStep(s, e);
    SleepStep(s, e);
    match e {
      case Worker(die) => WorkerNodes(s, die);
      case Signal =>
      case _ => SubmitterNodes(s, e);
    }
    FifoStep(s, e);
  }

  // ---------------------------------------------------------------- every run

  function Run(s: Sys, es: seq<Event>): Option<Sys>
    decreases |es|
  {
    if es == [] then Some(s)
    else match Do(s, es[0])
         case None => None
         case Some(t) => Run(t, es[1..])
  }

  lemma {:induction false} RunInv(s: Sys, es: seq<Event>)
    requires Inv(s) && Run(s, es).Some?
    ensures Inv(Run(s, es).value)
    decreases |es|
  {
    if es != [] {
      StepInv(s, es[0]);
      RunInv(Do(s, es[0]).value, es[1..]);
    }
  }

  ghost predicate Reachable(s: Sys) { exists n: nat, es :: Run(Init(n), es) == Some(s) }

  lemma ReachableInv(s: Sys)
    requires Reachable(s)
    ensures Inv(s)
  {
    var n: nat, es :| Run(Init(n), es) == Some(s);
    RunInv(Init(n), es);
  }

  /** No lost wake-up: the worker never sleeps over a non-empty list unless the
      submitter that filled it is just about to wake it. */
  lemma NoLostWakeup(s: Sys)
    requires Reachable(s)
    requires s.worker.Schedule? && DoWorker(s, false).None? && s.list != []
    ensures exists t :: 0 <= t < |s.subs| && s.subs[t].Added? && s.lock == BySubmitter(t)
                        && DoStep(s, t).Some? && DoWorker(DoStep(s, t).value, false).Some?
  {
    ReachableInv(s);
    var t :| 0 <= t < |s.subs| && s.subs[t].Added?;
    assert SubLocks(s.subs[t]);
  }

  /** Work is called at most once and in the order of the tail insertions. */
  lemma ExecutedInOrder(s: Sys)
    requires Reachable(s)
    ensures s.executed <= s.submitted
    ensures |s.submitted| == |s.executed| + |InHand(s.worker)| + |s.list|
  {
    ReachableInv(s);
  }

  /** A work function runs with the lock released by the worker and the task
      running; its node was unlinked and freed, and no list node is free. */
  lemma CallsUnlocked(s: Sys)
    requires Reachable(s)
    ensures s.worker.Execute? ==> s.lock != ByWorker && s.running && !s.onQueue
    ensures forall x <- s.list :: x in s.heap
    ensures s.worker.Free? ==> s.worker.node !in s.list
  {
    ReachableInv(s);
  }

  /** The lock is held by at most one party, and by the one whose code says so. */
  lemma LockExclusive(s: Sys)
    requires Reachable(s)
    ensures forall t, u :: 0 <= t < |s.subs| && 0 <= u < |s.subs| && SubLocks(s.subs[t]) && SubLocks(s.subs[u]) ==> t == u
    ensures forall t :: 0 <= t < |s.subs| && SubLocks(s.subs[t]) ==> !WorkerLocks(s.worker)
  {
    ReachableInv(s);
  }

  // ---------------------------------------------------------------- what was asked for

  function AskedBy(e: Event, w: Work): nat { if e.Submit? && e.work == w then 1 else 0 }

  /** How many submit_work() calls of a run ask for w. */
  function Asked(es: seq<Event>, w: Work): nat {
    if es == [] then 0 else AskedBy(es[0], w) + Asked(es[1..], w)
  }

  /** Whether a submitter has w in a node that is not on the list yet. */
  function PendingOf(p: SubPc, heap: map<nat, Work>, w: Work): nat {
    if HasNode(p) && p.node in heap && heap[p.node] == w then 1 else 0
  }

  function Pending(subs: seq<SubPc>, heap: map<nat, Work>, w: Work): nat {
    if subs == [] then 0 else Pending(subs[..|subs| - 1], heap, w) + PendingOf(subs[|subs| - 1], heap, w)
  }

  lemma {:induction false} PendingUpdate(subs: seq<SubPc>, heap: map<nat, Work>, w: Work, t: nat, p: SubPc)
    requires t < |subs|
    ensures Pending(subs[t := p], heap, w) == Pending(subs, heap, w) - PendingOf(subs[t], heap, w) + PendingOf(p, heap, w)
  {
    hide PendingOf;
    var m := |subs| - 1;
    if t == m {
      assert subs[t := p][..m] == subs[..m];
    } else {
      PendingUpdate(subs[..m], heap, w, t, p);
      assert subs[t := p][..m] == subs[..m][t := p];
    }
  }

  lemma {:induction false} PendingFrame(subs: seq<SubPc>, h: map<nat, Work>, k: map<nat, Work>, w: Work)
    requires forall t :: 0 <= t < |subs| ==> PendingOf(subs[t], h, w) == PendingOf(subs[t], k, w)
    ensures Pending(subs, h, w) == Pending(subs, k, w)
  {
    if subs != [] { PendingFrame(subs[..|subs| - 1], h, k, w); }
  }

  function Times(xs: seq<Work>, w: Work): nat { multiset(xs)[w] }

  /** How often w was inserted or is about to be. */
  function Balance(s: Sys, w: Work): nat { Times(s.submitted, w) + Pending(s.subs, s.heap, w) }

  lemma StepBalance(s: Sys, e: Event, w: Work)
    requires Inv(s) && Do(s, e).Some?
    ensures Balance(Do(s, e).value, w) == Balance(s, w) + AskedBy(e, w)
  {
    match e {
      case Worker(die) => WorkerBalance(s, die, w);
      case Submit(t, node, work) => SubmitBalance(s, t, node, work, w);
      case Step(t) => SubmitterBalance(s, t, w);
      case Signal =>
    }
  }

  lemma SubmitBalance(s: Sys, t: nat, node: nat, work: Work, w: Work)
    requires Inv(s) && DoSubmit(s, t, node, work).Some?
    ensures Balance(DoSubmit(s, t, node, work).value, w) == Balance(s, w) + if work == w then 1 else 0
  {
    var u := DoSubmit(s, t, node, work).value;
    forall q | 0 <= q < |s.subs| ensures PendingOf(s.subs[q], s.heap, w) == PendingOf(s.subs[q], u.heap, w) {}
    hide Inv, Times;
    PendingFrame(s.subs, s.heap, u.heap, w);
    PendingUpdate(s.subs, u.heap, w, t, Filled(node));
  }

  lemma WorkerBalance(s: Sys, die: bool, w: Work)
    requires Inv(s) && DoWorker(s, die).Some?
    ensures Balance(DoWorker(s, die).value, w) == Balance(s, w)
  {
    var u := DoWorker(s, die).value;
    WorkerHeap(s, die);
    hide DoWorker, Inv;
    FreePending(s, w);
    PendingFrame(s.subs, s.heap, u.heap, w);
  }

  /** The worker changes no submitter, and frees at most its own node. */
  lemma WorkerHeap(s: Sys, die: bool)
    requires DoWorker(s, die).Some?
    ensures var u := DoWorker(s, die).value;
            u.subs == s.subs && u.submitted == s.submitted
            && (u.heap == s.heap || (s.worker.Free? && u.heap == s.heap - {s.worker.node}))
  {}

  lemma FreePending(s: Sys, w: Work)
    requires Inv(s)
    ensures s.worker.Free? ==>
              forall q :: 0 <= q < |s.subs| ==> PendingOf(s.subs[q], s.heap, w) == PendingOf(s.subs[q], s.heap - {s.worker.node}, w)
  {}

  lemma SubmitterBalance(s: Sys, t: nat, w: Work)
    requires Inv(s) && DoStep(s, t).Some?
    ensures Balance(DoStep(s, t).value, w) == Balance(s, w)
  {
    SubmitterMoves(s, t, w);
    hide Inv, Times, Pending, PendingOf, DoStep;
    PendingUpdate(s.subs, s.heap, w, t, DoStep(s, t).value.subs[t]);
  }

  /** What leaves the submitter's hands is inserted. */
  lemma SubmitterMoves(s: Sys, t: nat, w: Work)
    requires Inv(s) && DoStep(s, t).Some?
    ensures t < |s.subs| == |DoStep(s, t).value.subs|
    ensures var u := DoStep(s, t).value;
            && u.subs == s.subs[t := u.subs[t]] && u.heap == s.heap
            && Times(u.submitted, w) + PendingOf(u.subs[t], s.heap, w) == Times(s.submitted, w) + PendingOf(s.subs[t], s.heap, w)
  {
    if HasNode(s.subs[t]) { NodeInHeap(s, t); }
    hide Inv, Times;
    match s.subs[t] {
      case Filled(node) => SubsAt(s.subs, t, Holding(node));
      case Holding(node) =>
        SubsAt(s.subs, t, Added);
        TimesSnoc(s.submitted, s.heap[node], w);
      case Added => SubsAt(s.subs, t, Woken);
      case Woken => SubsAt(s.subs, t, Idle);
      case Idle =>
    }
  }

  lemma NodeInHeap(s: Sys, t: nat)
    requires Inv(s) && t < |s.subs| && HasNode(s.subs[t])
    ensures s.subs[t].node in s.heap
  {}

  lemma SubsAt(subs: seq<SubPc>, t: nat, p: SubPc)
    requires t < |subs|
    ensures subs[t := p][t] == p && |subs[t := p]| == |subs|
  {}

  lemma TimesSnoc(xs: seq<Work>, x: Work, w: Work)
    ensures Times(xs + [x], w) == Times(xs, w) + if x == w then 1 else 0
  {}

  lemma {:induction false} RunBalance(s: Sys, es: seq<Event>, t: Sys, w: Work)
    requires Inv(s) && Run(s, es) == Some(t)
    ensures Balance(t, w) == Balance(s, w) + Asked(es, w)
    decreases |es|
  {
    hide Do, Inv, Balance;
    if es != [] {
      StepInv(s, es[0]);
      StepBalance(s, es[0], w);
      RunBalance(Do(s, es[0]).value, es[1..], t, w);
    }
  }

  lemma {:induction false} NonePending(subs: seq<SubPc>, heap: map<nat, Work>, w: Work)
    requires forall t :: 0 <= t < |subs| ==> !HasNode(subs[t])
    ensures Pending(subs, heap, w) == 0
  {
    if subs != [] { NonePending(subs[..|subs| - 1], heap, w); }
  }

  /** Nothing is executed that nobody asked for, nor more often; and when everything
      has drained, all that was asked for was executed. */
  lemma ExecutesWhatIsAsked(n: nat, es: seq<Event>, s: Sys, w: Work)
    requires Run(Init(n), es) == Some(s)
    ensures Times(s.executed, w) <= Times(s.submitted, w) <= Asked(es, w)
    ensures s.list == [] && InHand(s.worker) == [] && (forall t :: 0 <= t < |s.subs| ==> !HasNode(s.subs[t])) ==>
              Times(s.executed, w) == Asked(es, w)
  {
    NonePending(Init(n).subs, map[], w);
    RunBalance(Init(n), es, s, w);
    RunInv(Init(n), es);
    FifoParts(s);
    if forall t :: 0 <= t < |s.subs| ==> !HasNode(s.subs[t]) { NonePending(s.subs, s.heap, w); }
  }

  lemma FifoParts(s: Sys)
    requires Inv(s)
    ensures exists rest :: s.submitted == s.executed + rest && |rest| == |InHand(s.worker)| + |s.list|
  {
    var rest := InHand(s.worker) + Works(s.list, s.heap);
    assert s.submitted == s.executed + rest;
  }

  /** The work of submitter t's latest submit_work(). */
  function LastAsked(es: seq<Event>, t: nat): Option<Work> {
    if es == [] then None
    else match es[|es| - 1]
         case Submit(q, _, work) => if q == t then Some(work) else LastAsked(es[..|es| - 1], t)
         case _ => LastAsked(es[..|es| - 1], t)
  }

  lemma {:induction false} RunSnoc(s: Sys, es: seq<Event>)
    requires es != [] && Run(s, es).Some?
    ensures Run(s, es[..|es| - 1]).Some? && Do(Run(s, es[..|es| - 1]).value, es[|es| - 1]) == Run(s, es)
    decreases |es|
  {
    hide Do;
    if |es| == 1 {
      assert es[1..] == [] && es[..0] == [];
    } else {
      RunSnoc(Do(s, es[0]).value, es[1..]);
      assert es[1..][..|es| - 2] == es[..|es| - 1][1..];
    }
  }

  lemma SameSubs(s: Sys, e: Event)
    requires Do(s, e).Some?
    ensures |Do(s, e).value.subs| == |s.subs|
  {}

  lemma InitInv(n: nat)
    ensures Inv(Init(n))
  {}

  lemma NodeStep(s: Sys, e: Event, t: nat)
    requires Inv(s) && Do(s, e).Some? && t < |s.subs|
    ensures var u := Do(s, e).value;
            && |u.subs| == |s.subs|
            && (HasNode(u.subs[t]) ==>
                  u.subs[t].node in u.heap
                  && (if e.Submit? && e.t == t then u.heap[u.subs[t].node] == e.work
                      else HasNode(s.subs[t]) && s.subs[t].node in s.heap && u.heap[u.subs[t].node] == s.heap[s.subs[t].node]))
  {
    match e {
      case Worker(die) =>
        WorkerHeap(s, die);
        hide DoWorker;
      case Submit(_, _, _) =>
      case Step(q) => if HasNode(s.subs[q]) { NodeInHeap(s, q); }
      case Signal =>
    }
  }

  /** A node holds what its submitter asked for last, until it is on the list. */
  lemma {:induction false} HoldsLastAsked(n: nat, es: seq<Event>, s: Sys, t: nat)
    requires Run(Init(n), es) == Some(s) && t < |s.subs| && HasNode(s.subs[t])
    ensures s.subs[t].node in s.heap && LastAsked(es, t) == Some(s.heap[s.subs[t].node])
    decreases |es|
  {
    if es != [] {
      hide Do, Inv, HasNode;
      var m := |es| - 1;
      RunSnoc(Init(n), es);
      InitInv(n);
      RunInv(Init(n), es[..m]);
      var u := Run(Init(n), es[..m]).value;
      SameSubs(u, es[m]);
      NodeStep(u, es[m], t);
      if !(es[m].Submit? && es[m].t == t) { HoldsLastAsked(n, es[..m], u, t); }
    }
  }

  /** What a tail insertion inserts. */
  lemma InsertsLastAsked(n: nat, es: seq<Event>, s: Sys, t: nat)
    requires Run(Init(n), es) == Some(s) && t < |s.subs| && s.subs[t].Holding?
    ensures LastAsked(es, t).Some? && DoStep(s, t).Some?
    ensures DoStep(s, t).value.submitted == s.submitted + [LastAsked(es, t).value]
  {
    HoldsLastAsked(n, es, s, t);
  }

  /** The worker leaves only if asked_to_die() said so. */
  lemma {:induction false} LeavesOnlyIfAsked(n: nat, es: seq<Event>, s: Sys)
    requires Run(Init(n), es) == Some(s) && (s.worker.Leave? || s.worker.Done?)
    ensures Worker(true) in es
    decreases |es|
  {
    if es != [] {
      var m := |es| - 1;
      RunSnoc(Init(n), es);
      var u := Run(Init(n), es[..m]).value;
      assert u.worker.Leave? || u.worker.Done? || es[m] == Worker(true);
      if u.worker.Leave? || u.worker.Done? { LeavesOnlyIfAsked(n, es[..m], u); }
    }
  }

  /** And then it does, with the task running. */
  lemma LeavesIfAsked(s: Sys)
    requires s.worker.TestDie?
    ensures Run(s, [Worker(true), Worker(true)]) == Some(s.(running := true, worker := Done))
  {
    assert [Worker(true), Worker(true)][1..] == [Worker(true)] && [Worker(true)][1..] == [];
    assert Run(DoWorker(s, true).value, [Worker(true)]) == Some(s.(running := true, worker := Done));
  }

  // ---------------------------------------------------------------- nothing is left undone

  /** Distance of the worker's place from the next TestList (or from the sleep). */
  function Rank(w: WorkerPc): nat {
    match w
    case Start => 9 case TestDie => 8 case AddWait => 7 case TestEmpty => 6 case Schedule => 5 case SetRunning => 5
    case RemoveWait => 4 case Acquire => 3 case TestList => 2
    case Unlink(_, _) => 1 case Free(_, _) => 6 case Release(_) => 5 case Execute(_) => 4 case Reacquire => 3
    case FinalUnlock => 11 case SetInterruptible => 10
    case Leave => 0 case Done => 0
  }

  /** n steps of the worker alone, never asked to die. */
  function Alone(s: Sys, n: nat): Option<Sys>
    decreases n
  {
    if n == 0 then Some(s)
    else match DoWorker(s, false)
         case None => None
         case Some(t) => Alone(t, n - 1)
  }

  predicate Quiet(s: Sys) { (forall t :: 0 <= t < |s.subs| ==> s.subs[t].Idle?) && !s.worker.Leave? && !s.worker.Done? }

  /** With no submitter at work the worker is never stuck before everything that
      was submitted has been executed: left alone, it gets there. */
  lemma {:induction false} Drains(s: Sys) returns (n: nat)
    requires Inv(s) && Quiet(s)
    ensures Alone(s, n).Some? && Alone(s, n).value.executed == s.submitted
    decreases |s.list|, Rank(s.worker)
  {
    if s.executed == s.submitted {
      n := 0;
    } else {
      assert s.lock.BySubmitter? ==> !SubLocks(s.subs[s.lock.t]);
      var t := DoWorker(s, false);
      StepInv(s, Worker(false));
      n := Drains(t.value);
      n := n + 1;
    }
  }

  /** What the invariant says about the worker's next statement. */
  lemma WorkerFacts(s: Sys)
    requires Inv(s)
    ensures s.list != [] ==> s.list[0] in s.heap
    ensures s.worker.Unlink? ==> s.list != []
  {
    assert s.list != [] ==> s.list[0] in s.list;
  }

  /** When it is refused, and what a refusal means. */
  lemma WorkerRefused(s: Sys, die: bool)
    requires Inv(s)
    ensures DoWorker(s, die).None? <==> match s.worker
                                        case Schedule => !s.running
                                        case Acquire => !s.lock.Unlocked?
                                        case Reacquire => !s.lock.Unlocked?
                                        case Done => true
                                        case _ => false
    ensures s.worker.Schedule? && !s.running && s.list != [] ==> exists t :: 0 <= t < |s.subs| && s.subs[t].Added?
    ensures s.worker.Acquire? || s.worker.Reacquire? ==> s.lock != ByWorker
  {
    WorkerFacts(s);
  }

  /** Its step keeps the invariant and calls at most one work function, the next. */
  lemma WorkerCalls(s: Sys, die: bool)
    requires Inv(s) && DoWorker(s, die).Some?
    ensures var u := DoWorker(s, die).value;
            && Inv(u) && u.submitted == s.submitted && u.executed <= u.submitted
            && u.executed == if s.worker.Execute? then s.submitted[..|s.executed| + 1] else s.executed
  {
    StepInv(s, Worker(die));
    assert s.worker.Execute? ==> s.submitted == s.executed + [s.worker.work] + Works(s.list, s.heap);
    hide LockOk, SleepOk, Works;
  }

  // ---------------------------------------------------------------- in place

  /** The list, its lock and its wait queue as the two sides update them; each
      method is the next statement of one side. */
  class Queue {
    var list: seq<nat>
    var heap: map<nat, Work>
    var lock: LockState
    var onQueue: bool
    var running: bool
    var worker: WorkerPc
    var subs: seq<SubPc>
    ghost var submitted: seq<Work>
    ghost var executed: seq<Work>

    ghost function State(): Sys
      reads this
    {
      Sys(list, heap, lock, onQueue, running, worker, subs, submitted, executed)
    }

    constructor (n: nat)
      ensures State() == Init(n) && Inv(State())
    {
      list, heap, lock := [], map[], Unlocked;
      onQueue, running, worker := false, true, Start;
      subs := seq(n, _ => Idle);
      submitted, executed := [], [];
    }

    /** submit_work() up to the lock; kmalloc may fail. */
    method SubmitWork(t: nat, memory: Option<nat>, work: Work) returns (rc: int)
      requires Inv(State()) && t < |subs| && subs[t].Idle? && (memory.Some? ==> memory.value !in heap)
      modifies this`heap, this`subs
      ensures Inv(State())
      ensures rc == if memory.None? then -1 else 0
      ensures rc == 0 ==> heap == old(heap)[memory.value := work] && subs == old(subs)[t := Filled(memory.value)]
      ensures State() == if memory.None? then old(State()) else Do(old(State()), Submit(t, memory.value, work)).value
    {
      ghost var s := State();
      if memory.None? { return -1; }
      StepInv(s, Submit(t, memory.value, work));
      heap := heap[memory.value := work];
      subs := subs[t := Filled(memory.value)];
      rc := 0;
    }

    /** Refused only between calls, or while somebody else has the lock; the one
        step that submits appends this submitter's work; the next one leaves a
        sleeping worker ready to run. */
    method SubmitterStep(t: nat) returns (ok: bool)
      requires Inv(State()) && t < |subs|
      modifies this
      ensures Inv(State()) && ok == Do(old(State()), Step(t)).Some?
      ensures State() == if ok then Do(old(State()), Step(t)).value else old(State())
      ensures ok <==> !(old(subs[t]).Idle? || (old(subs[t]).Filled? && !old(lock).Unlocked?))
      ensures executed == old(executed)
      ensures submitted == old(submitted) + if old(subs[t]).Holding? then [old(heap)[old(subs[t]).node]] else []
      ensures old(subs[t]).Added? && worker.Schedule? ==> running
    {
      ghost var s := State();
      assert SubLocks(subs[t]) ==> lock == BySubmitter(t);
      if Do(s, Step(t)).Some? { StepInv(s, Step(t)); }
      assert worker.Schedule? ==> onQueue;
      assert HasNode(subs[t]) ==> subs[t].node in heap;
      hide Inv;
      ok := true;
      match subs[t]
      case Idle => ok := false;
      case Filled(node) =>
        if lock.Unlocked? { lock, subs := BySubmitter(t), subs[t := Holding(node)]; } else { ok := false; }
      case Holding(node) =>
        list := list + [node];  // list_add_tail
        submitted := submitted + [heap[node]];
        subs := subs[t := Added];
      case Added =>
        if onQueue { running := true; }  // wake_up
        subs := subs[t := Woken];
      case Woken =>
        lock, subs := Unlocked, subs[t := Idle];
    }

    /** Refused only asleep, spinning on a submitter's lock, or done; asleep over a
        non-empty list only while a submitter is about to wake it; at most one call,
        and always of the work that comes next. */
    method WorkerStep(die: bool) returns (ok: bool)
      requires Inv(State())
      modifies this
      ensures Inv(State()) && ok == Do(old(State()), Worker(die)).Some?
      ensures State() == if ok then Do(old(State()), Worker(die)).value else old(State())
      ensures !ok <==> match old(worker)
                       case Schedule => !old(running)
                       case Acquire => !old(lock).Unlocked?
                       case Reacquire => !old(lock).Unlocked?
                       case Done => true
                       case _ => false
      ensures !ok && worker.Schedule? && list != [] ==> exists t :: 0 <= t < |subs| && subs[t].Added?
      ensures !ok && !worker.Schedule? && !worker.Done? ==> lock.BySubmitter?
      ensures submitted == old(submitted) && executed <= submitted
      ensures old(worker).TestDie? ==> (worker.Leave? <==> die) && (worker.AddWait? <==> !die)
      ensures executed == if old(worker).Execute? then old(submitted)[..|old(executed)| + 1] else old(executed)
    {
      ghost var s := State();
      WorkerFacts(s);
      WorkerRefused(s, die);
      if DoWorker(s, die).Some? { WorkerCalls(s, die); }
      hide Inv;
      ok := true;
      match worker
      case Start => running, worker := false, TestDie;
      case TestDie => worker := if die then Leave else AddWait;
      case AddWait => onQueue, worker := true, TestEmpty;
      case TestEmpty => worker := if list == [] then Schedule else SetRunning;
      case Schedule => if running { worker := RemoveWait; } else { ok := false; }
      case SetRunning => running, worker := true, RemoveWait;
      case RemoveWait => onQueue, worker := false, Acquire;
      case Acquire => if lock.Unlocked? { lock, worker := ByWorker, TestList; } else { ok := false; }
      case Execute(work) =>
        executed := executed + [work];
        worker := Reacquire;
      case Reacquire => if lock.Unlocked? { lock, worker := ByWorker, TestList; } else { ok := false; }
      case SetInterruptible => running, worker := false, TestDie;
      case Leave => running, worker := true, Done;
      case Done => ok := false;
      case _ => LockedStep(die);
    }

    /** Inside the lock the worker is never refused. */
    method LockedStep(die: bool)
      requires WorkerLocks(worker) && (list != [] ==> list[0] in heap) && (worker.Unlink? ==> list != [])
      modifies this`list, this`heap, this`lock, this`worker
      ensures DoWorker(old(State()), die) == Some(State())
    {
      match worker
      case TestList => worker := if list == [] then FinalUnlock else Unlink(list[0], heap[list[0]]);
      case Unlink(node, work) => list, worker := list[1..], Free(node, work);
      case Free(node, work) => heap, worker := heap - {node}, Release(work);
      case Release(work) => lock, worker := Unlocked, Execute(work);
      case FinalUnlock => lock, worker := Unlocked, SetInterruptible;
    }

    /** One event, through the step that makes it. */
    method Next(e: Event) returns (ok: bool)
      requires Inv(State())
      modifies this
      ensures Inv(State()) && ok == Do(old(State()), e).Some?
      ensures State() == if ok then Do(old(State()), e).value else old(State())
    {
      ghost var s := State();
      if e.Signal? { StepInv(s, e); }
      hide Inv;
      ok := false;
      match e
      case Worker(die) => ok := WorkerStep(die);
      case Submit(t, node, work) =>
        if t < |subs| && subs[t].Idle? && node !in heap {
          var rc := SubmitWork(t, Some(node), work);
          ok := true;
        }
      case Step(t) => if t < |subs| { ok := SubmitterStep(t); }
      case Signal => running, ok := true, true;
    }

    /** Any interleaving of the steps, in place, is the run of the protocol. */
    method Play(es: seq<Event>) returns (done: bool)
      requires Inv(State())
      modifies this
      ensures Inv(State()) && (done <==> Run(old(State()), es).Some?)
      ensures done ==> Run(old(State()), es) == Some(State())
    {
      hide Inv, Do;
      ghost var s := State();
      var i := 0;
      assert es[0..] == es;
      while i < |es|
        invariant 0 <= i <= |es| && Inv(State()) && Run(State(), es[i..]) == Run(s, es)
      {
        assert es[i..][0] == es[i] && es[i..][1..] == es[i + 1..];
        var ok := Next(es[i]);
        if !ok { return false; }
        i := i + 1;
      }
      assert es[i..] == [];
      done := true;
    }
  }
}
