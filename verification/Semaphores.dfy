/** Reference-counted System V semaphores (unix_source/lib.sun/semaph.c).

One key is shared by any number of processes.  Each system call is one atomic
step; the steps of all processes interleave freely and any process may exit
between any two steps, in which case the kernel applies its undo values.

Set members: [0] the semaphore value, [1] the process counter, [2] the lock. */
module Semaphores {
  import opened Common

  const BIGCOUNT: int := 10000

  // ---------------------------------------------------------------- semop()

  datatype SemBuf = SemBuf(num: nat, op: int, undo: bool)

  const OP_LOCK := [SemBuf(2, 0, false), SemBuf(2, 1, true)]
  const OP_ENDCREATE := [SemBuf(1, -1, true), SemBuf(2, -1, true)]
  const OP_OPEN := [SemBuf(1, -1, true)]
  const OP_CLOSE := [SemBuf(2, 0, false), SemBuf(2, 1, true), SemBuf(1, 1, true)]
  const OP_UNLOCK := [SemBuf(2, -1, true)]

  function OpOp(amount: int): seq<SemBuf> { [SemBuf(0, amount, true)] }

  /** One number per member of the set. */
  datatype Vec = Vec(c0: int, c1: int, c2: int) {
    function At(k: nat): int
      requires k < 3
    {
      if k == 0 then c0 else if k == 1 then c1 else c2
    }

    function With(k: nat, v: int): Vec
      requires k < 3
    {
      if k == 0 then this.(c0 := v) else if k == 1 then this.(c1 := v) else this.(c2 := v)
    }
  }

  /** The member values with one process's undo values for them. */
  datatype Members = Members(val: Vec, adj: Vec)

  /** XSI semop(): the whole array or nothing; None means the caller blocks. */
  function Semop(m: Members, ops: seq<SemBuf>): (r: Option<Members>)
    requires forall o <- ops :: o.num < 3
    decreases |ops|
  {
    if ops == [] then Some(m)
    else
      var o := ops[0];
      if o.op == 0 then
        if m.val.At(o.num) == 0 then Semop(m, ops[1..]) else None
      else if m.val.At(o.num) + o.op < 0 then None
      else
        Semop(Members(m.val.With(o.num, m.val.At(o.num) + o.op),
                      if o.undo then m.adj.With(o.num, m.adj.At(o.num) - o.op) else m.adj),
              ops[1..])
  }

  // ------------------------------------------------------------ the processes

  /** Where a process stands between two system calls. */
  datatype Pc =
    | Idle
    | CreateGot(id: nat, initval: int)     // after semget() in sem_create
    | CreateLocked(id: nat, initval: int)  // holds the lock, counter not read yet
    | CreateFresh(id: nat, initval: int)   // read 0: must initialise
    | CreateSet(id: nat, initval: int)     // [0] written, [1] not yet
    | CreateReady(id: nat)                 // about to end the creation
    | OpenGot(id: nat)                     // after semget() in sem_open
    | CloseLocked(id: nat)                 // counted out, counter not read yet
    | CloseLast(id: nat)                   // read BIGCOUNT: will remove the set
    | CloseMore(id: nat)                   // read less: will only unlock
    | Dumped                               // "sem[1] > BIGCOUNT"
    | Dead

  /** `opens` counts completed creates and opens minus closes: it is what the
      caller knows, independent of the kernel's undo values `adj`. */
  datatype Proc = Proc(pc: Pc, adj: Vec, opens: int)

  /** The current set of the key (generation `gen`).  `inited`, `everOpened`,
      `init0` and `lost` are history: whether [1] was set, whether anybody ever
      attached, the value last written to [0], and what undo could not subtract
      from [0] because semaphore values stop at 0. */
  datatype Sys = Sys(procs: seq<Proc>, gen: nat, live: bool, val: Vec,
                     inited: bool, everOpened: bool, init0: int, lost: int)

  datatype Event =
    | Create(p: nat, initval: int) | Lock(p: nat) | GetVal(p: nat)
    | SetVal0(p: nat) | SetVal1(p: nat) | EndCreate(p: nat)
    | Open(p: nat) | OpenCount(p: nat)
    | Close(p: nat) | CloseGetVal(p: nat) | Remove(p: nat) | Unlock(p: nat)
    | Op(p: nat, amount: int)
    | Exit(p: nat)

  const ZERO3 := Vec(0, 0, 0)

  function Start(n: nat): Sys {
    Sys(seq(n, _ => Proc(Idle, ZERO3, 0)), 0, false, ZERO3, false, false, 0, 0)
  }

  predicate Valid(s: Sys, id: nat) { s.live && id == s.gen }

  function Goto(s: Sys, p: nat, pc: Pc): Sys
    requires p < |s.procs|
  {
    s.(procs := s.procs[p := s.procs[p].(pc := pc)])
  }

  function Max0(x: int): int { if x < 0 then 0 else x }

  /** Process termination: the kernel adds the undo values, stopping at 0. */
  function ExitOf(s: Sys, p: nat): Sys
    requires p < |s.procs|
  {
    var a := s.procs[p].adj;
    var gone := s.(procs := s.procs[p := Proc(Dead, ZERO3, 0)]);
    if s.live then
      gone.(val := Vec(Max0(s.val.c0 + a.c0), Max0(s.val.c1 + a.c1), Max0(s.val.c2 + a.c2)),
            lost := s.lost + Max0(s.val.c0 + a.c0) - (s.val.c0 + a.c0))
    else gone
  }

  /** A semop() of process p with `pc` as the place it reaches. */
  function SemopStep(s: Sys, p: nat, ops: seq<SemBuf>, pc: Pc, delta: int): (r: Option<Sys>)
    requires p < |s.procs|
    requires forall o <- ops :: o.num < 3
  {
    match Semop(Members(s.val, s.procs[p].adj), ops)
    case None => None
    case Some(m) => Some(s.(val := m.val,
                            procs := s.procs[p := Proc(pc, m.adj, s.procs[p].opens + delta)],
                            everOpened := s.everOpened || delta > 0))
  }

  /** semctl(SETVAL): writes one member and clears every undo value for it. */
  function SetVal(s: Sys, k: nat, v: int): Sys
    requires k < 3
  {
    s.(val := s.val.With(k, v),
       procs := seq(|s.procs|, q requires 0 <= q < |s.procs| =>
                    s.procs[q].(adj := s.procs[q].adj.With(k, 0))))
  }

  /** semctl(IPC_RMID): the set is gone, and with it all undo values and handles. */
  function RemoveSet(s: Sys): Sys {
    s.(live := false,
       procs := seq(|s.procs|, q requires 0 <= q < |s.procs| => s.procs[q].(adj := ZERO3, opens := 0)))
  }

  /** semget(IPC_CREAT) when no set has the key: all three members are 0. */
  function FreshSet(s: Sys): Sys {
    s.(gen := s.gen + 1, live := true, val := ZERO3, inited := false, everOpened := false, init0 := 0, lost := 0)
  }

  // One atomic step per function.  None: the event cannot happen now (wrong
  // place, or the semop() blocks).  Every err_sys() ends in process termination.

  function DoCreate(s: Sys, p: nat, initval: int): Option<Sys>
    requires p < |s.procs|
  {
    var pc := s.procs[p].pc;
    if !pc.Idle? then None
    else
      var t := if s.live then s else FreshSet(s);
      Some(Goto(t, p, CreateGot(t.gen, initval)))
  }

  function DoLock(s: Sys, p: nat): Option<Sys>
    requires p < |s.procs|
  {
    var pc := s.procs[p].pc;
    if !pc.CreateGot? then None
    else if !Valid(s, pc.id) then  // EINVAL: goto again
      var t := if s.live then s else FreshSet(s);
      Some(Goto(t, p, CreateGot(t.gen, pc.initval)))
    else SemopStep(s, p, OP_LOCK, CreateLocked(pc.id, pc.initval), 0)
  }

  function DoGetVal(s: Sys, p: nat): Option<Sys>
    requires p < |s.procs|
  {
    var pc := s.procs[p].pc;
    if !pc.CreateLocked? then None
    else if !Valid(s, pc.id) then Some(ExitOf(s, p))
    else Some(Goto(s, p, if s.val.c1 == 0 then CreateFresh(pc.id, pc.initval) else CreateReady(pc.id)))
  }

  function DoSetVal0(s: Sys, p: nat): Option<Sys>
    requires p < |s.procs|
  {
    var pc := s.procs[p].pc;
    if !pc.CreateFresh? then None
    else if !Valid(s, pc.id) || pc.initval < 0 then Some(ExitOf(s, p))
    else Some(Goto(SetVal(s, 0, pc.initval).(init0 := pc.initval, lost := 0), p, CreateSet(pc.id, pc.initval)))
  }

  function DoSetVal1(s: Sys, p: nat): Option<Sys>
    requires p < |s.procs|
  {
    var pc := s.procs[p].pc;
    if !pc.CreateSet? then None
    else if !Valid(s, pc.id) then Some(ExitOf(s, p))
    else Some(Goto(SetVal(s, 1, BIGCOUNT).(inited := true), p, CreateReady(pc.id)))
  }

  function DoEndCreate(s: Sys, p: nat): Option<Sys>
    requires p < |s.procs|
  {
    var pc := s.procs[p].pc;
    if !pc.CreateReady? then None
    else if !Valid(s, pc.id) then Some(ExitOf(s, p))
    else SemopStep(s, p, OP_ENDCREATE, Idle, 1)
  }

  function DoOpen(s: Sys, p: nat): Option<Sys>
    requires p < |s.procs|
  {
    var pc := s.procs[p].pc;
    if !pc.Idle? || !s.live then None  // not there: sem_open returns -1
    else Some(Goto(s, p, OpenGot(s.gen)))
  }

  function DoOpenCount(s: Sys, p: nat): Option<Sys>
    requires p < |s.procs|
  {
    var pc := s.procs[p].pc;
    if !pc.OpenGot? then None
    else if !Valid(s, pc.id) then Some(ExitOf(s, p))
    else SemopStep(s, p, OP_OPEN, Idle, 1)
  }

  function DoClose(s: Sys, p: nat): Option<Sys>
    requires p < |s.procs|
  {
    var pc := s.procs[p].pc;
    if !pc.Idle? then None
    else if !s.live then Some(ExitOf(s, p))
    else SemopStep(s, p, OP_CLOSE, CloseLocked(s.gen), -1)
  }

  function DoCloseGetVal(s: Sys, p: nat): Option<Sys>
    requires p < |s.procs|
  {
    var pc := s.procs[p].pc;
    if !pc.CloseLocked? then None
    else if !Valid(s, pc.id) then Some(ExitOf(s, p))
    else Some(Goto(s, p, if s.val.c1 > BIGCOUNT then Dumped
                         else if s.val.c1 == BIGCOUNT then CloseLast(pc.id)
                         else CloseMore(pc.id)))
  }

  function DoRemove(s: Sys, p: nat): Option<Sys>
    requires p < |s.procs|
  {
    var pc := s.procs[p].pc;
    if !pc.CloseLast? then None
    else if !Valid(s, pc.id) then Some(ExitOf(s, p))
    else Some(Goto(RemoveSet(s), p, Idle))
  }

  function DoUnlock(s: Sys, p: nat): Option<Sys>
    requires p < |s.procs|
  {
    var pc := s.procs[p].pc;
    if !pc.CloseMore? then None
    else if !Valid(s, pc.id) then Some(ExitOf(s, p))
    else SemopStep(s, p, OP_UNLOCK, Idle, 0)
  }

  function DoOp(s: Sys, p: nat, amount: int): Option<Sys>
    requires p < |s.procs|
  {
    var pc := s.procs[p].pc;
    if !pc.Idle? then None
    else if amount == 0 || !s.live then Some(ExitOf(s, p))
    else SemopStep(s, p, OpOp(amount), Idle, 0)
  }

  function DoExit(s: Sys, p: nat): Option<Sys>
    requires p < |s.procs|
  {
    var pc := s.procs[p].pc;
    if pc.Dead? then None else Some(ExitOf(s, p))
  }

  function Do(s: Sys, e: Event): Option<Sys> {
    if e.p >= |s.procs| then None else
    match e
    case Create(_, initval) => DoCreate(s, e.p, initval)
    case Lock(_) => DoLock(s, e.p)
    case GetVal(_) => DoGetVal(s, e.p)
    case SetVal0(_) => DoSetVal0(s, e.p)
    case SetVal1(_) => DoSetVal1(s, e.p)
    case EndCreate(_) => DoEndCreate(s, e.p)
    case Open(_) => DoOpen(s, e.p)
    case OpenCount(_) => DoOpenCount(s, e.p)
    case Close(_) => DoClose(s, e.p)
    case CloseGetVal(_) => DoCloseGetVal(s, e.p)
    case Remove(_) => DoRemove(s, e.p)
    case Unlock(_) => DoUnlock(s, e.p)
    case Op(_, amount) => DoOp(s, e.p, amount)
    case Exit(_) => DoExit(s, e.p)
  }

  // ------------------------------------------------------------- sums

  function Sum(xs: seq<int>): int {
    if xs == [] then 0 else Sum(xs[..|xs| - 1]) + xs[|xs| - 1]
  }

  lemma {:induction false} SumUpdate(xs: seq<int>, i: nat, v: int)
    requires i < |xs|
    ensures Sum(xs[i := v]) == Sum(xs) - xs[i] + v
  {
    var n := |xs| - 1;
    if i == n {
      assert xs[i := v][..n] == xs[..n];
    } else {
      SumUpdate(xs[..n], i, v);
      assert xs[i := v][..n] == xs[..n][i := v];
    }
  }

  lemma {:induction false} SumZero(xs: seq<int>)
    requires forall i :: 0 <= i < |xs| ==> xs[i] >= 0
    ensures Sum(xs) >= 0
    ensures Sum(xs) == 0 <==> forall i :: 0 <= i < |xs| ==> xs[i] == 0
  {
    if xs != [] {
      SumZero(xs[..|xs| - 1]);
      assert forall i :: 0 <= i < |xs| - 1 ==> xs[i] == xs[..|xs| - 1][i];
    }
  }

  /** Handles held on the current set, over all processes. */
  function Opens(s: Sys): seq<int> { seq(|s.procs|, q requires 0 <= q < |s.procs| => s.procs[q].opens) }

  function Total(s: Sys): int { Sum(Opens(s)) }

  function Undo0(s: Sys): seq<int>
  {
    seq(|s.procs|, q requires 0 <= q < |s.procs| => s.procs[q].adj.c0)
  }

  lemma Column(s: Sys, t: Sys, p: nat)
    requires p < |s.procs| == |t.procs|
    requires t.procs == s.procs[p := t.procs[p]]
    ensures Total(t) == Total(s) - s.procs[p].opens + t.procs[p].opens
    ensures Sum(Undo0(t)) == Sum(Undo0(s)) - s.procs[p].adj.c0 + t.procs[p].adj.c0
  {
    SumUpdate(Opens(s), p, t.procs[p].opens);
    SumUpdate(Undo0(s), p, t.procs[p].adj.c0);
    assert Opens(t) == Opens(s)[p := t.procs[p].opens];
    assert Undo0(t) == Undo0(s)[p := t.procs[p].adj.c0];
  }

  // ------------------------------------------------------------- what each sembuf array does

  lemma LockEffect(m: Members)
    ensures Semop(m, OP_LOCK) ==
            if m.val.c2 == 0 then Some(Members(m.val.(c2 := 1), m.adj.(c2 := m.adj.c2 - 1))) else None
  {
    assert OP_LOCK[1..] == [SemBuf(2, 1, true)];
  }

  lemma EndCreateEffect(m: Members)
    ensures Semop(m, OP_ENDCREATE) ==
            if m.val.c1 >= 1 && m.val.c2 >= 1 then
              Some(Members(Vec(m.val.c0, m.val.c1 - 1, m.val.c2 - 1), Vec(m.adj.c0, m.adj.c1 + 1, m.adj.c2 + 1)))
            else None
  {
    var m1 := Members(m.val.(c1 := m.val.c1 - 1), m.adj.(c1 := m.adj.c1 + 1));
    assert OP_ENDCREATE[1..] == OP_UNLOCK;
    assert Semop(m, OP_ENDCREATE) == if m.val.c1 < 1 then None else Semop(m1, OP_UNLOCK);
    UnlockEffect(m1);
  }

  lemma OpenEffect(m: Members)
    ensures Semop(m, OP_OPEN) ==
            if m.val.c1 >= 1 then Some(Members(m.val.(c1 := m.val.c1 - 1), m.adj.(c1 := m.adj.c1 + 1))) else None
  {}

  lemma CloseEffect(m: Members)
    requires m.val.c1 >= 0
    ensures Semop(m, OP_CLOSE) ==
            if m.val.c2 == 0 then
              Some(Members(Vec(m.val.c0, m.val.c1 + 1, 1), Vec(m.adj.c0, m.adj.c1 - 1, m.adj.c2 - 1)))
            else None
  {
    assert OP_CLOSE[1..] == [SemBuf(2, 1, true), SemBuf(1, 1, true)];
    assert OP_CLOSE[1..][1..] == [SemBuf(1, 1, true)];
    if m.val.c2 == 0 {
      var m1 := Members(m.val.(c2 := 1), m.adj.(c2 := m.adj.c2 - 1));
      assert Semop(m, OP_CLOSE) == Semop(m, OP_CLOSE[1..]) == Semop(m1, OP_CLOSE[1..][1..]);
    }
  }

  lemma UnlockEffect(m: Members)
    ensures Semop(m, OP_UNLOCK) ==
            if m.val.c2 >= 1 then Some(Members(m.val.(c2 := m.val.c2 - 1), m.adj.(c2 := m.adj.c2 + 1))) else None
  {}

  lemma OpEffect(m: Members, amount: int)
    requires amount != 0
    ensures Semop(m, OpOp(amount)) ==
            if m.val.c0 + amount >= 0 then Some(Members(m.val.(c0 := m.val.c0 + amount), m.adj.(c0 := m.adj.c0 - amount))) else None
  {
    var ops := OpOp(amount);
    var after := Members(m.val.(c0 := m.val.c0 + amount), m.adj.(c0 := m.adj.c0 - amount));
    assert ops[0] == SemBuf(0, amount, true) && ops[1..] == [];
    assert Semop(after, ops[1..]) == Some(after);
  }

  // ------------------------------------------------------------- the invariant

  /** Inside the section that [2] protects. */
  predicate Crit(pc: Pc) {
    pc.CreateLocked? || pc.CreateFresh? || pc.CreateSet? || pc.CreateReady? ||
    pc.CloseLocked? || pc.CloseLast? || pc.CloseMore? || pc.Dumped?
  }

  predicate InCrit(s: Sys, q: nat) { q < |s.procs| && Crit(s.procs[q].pc) }

  predicate ProcOk(s: Sys, x: Proc) {
    && x.adj.c1 == x.opens >= 0
    && x.adj.c2 == (if Crit(x.pc) then -1 else 0)
    && (Crit(x.pc) ==> !x.pc.Dumped? && Valid(s, x.pc.id))
    && (x.pc.CreateFresh? || x.pc.CreateSet? ==> !s.inited)
    && (x.pc.CreateReady? || x.pc.CloseLocked? || x.pc.CloseLast? || x.pc.CloseMore? ==> s.inited)
    && (!s.live || !s.inited ==> x.opens == 0 && x.adj.c0 == 0)
    && (x.pc.CreateSet? ==> s.val.c0 == s.init0 && s.lost == 0)
  }

  ghost predicate Inv(s: Sys) {
    && s.val.c0 >= 0 && s.val.c1 >= 0 && s.val.c2 >= 0
    && (forall q :: 0 <= q < |s.procs| ==> ProcOk(s, s.procs[q]))
    && (forall p, q :: InCrit(s, p) && InCrit(s, q) ==> p == q)
    && s.lost >= 0
    && (s.live ==>
          && s.val.c2 <= 1
          && (s.val.c2 == 1 <==> exists q :: InCrit(s, q))
          && (!s.inited ==> s.val.c1 == 0 && !s.everOpened)
          && (s.inited ==> s.val.c1 + Total(s) == BIGCOUNT)
          && (s.inited ==> s.val.c0 + Sum(Undo0(s)) == s.init0 + s.lost))
  }

  /** Callers use and close only what they opened. */
  predicate Careful(s: Sys, e: Event) {
    (e.Close? || e.Op?) && e.p < |s.procs| ==> s.procs[e.p].opens > 0
  }

  /** No creation reads the counter while BIGCOUNT handles are out. */
  predicate Roomy(s: Sys, e: Event) {
    e.GetVal? ==> !(s.live && s.inited && Total(s) == BIGCOUNT)
  }

  /** What the callers must respect. */
  predicate Permitted(s: Sys, e: Event) { Careful(s, e) && Roomy(s, e) }

  lemma StartInv(n: nat)
    ensures Inv(Start(n))
  {
  }

  lemma Quiet(s: Sys)
    requires forall q :: 0 <= q < |s.procs| ==> s.procs[q].opens == 0 && s.procs[q].adj.c0 == 0
    ensures Total(s) == 0 && Sum(Undo0(s)) == 0
  {
    SumZero(Opens(s));
    SumZero(Undo0(s));
  }

  /** A semop() of p that leaves everybody else alone. */
  lemma SemopInv(s: Sys, p: nat, t: Sys)
    requires Inv(s) && s.live && p < |s.procs| == |t.procs|
    requires t.procs == s.procs[p := t.procs[p]] && t.live && t.gen == s.gen && t.inited == s.inited
    requires t.init0 == s.init0 && t.lost == s.lost
    requires t.val.c0 >= 0 && t.val.c1 >= 0 && t.val.c2 >= 0
    requires ProcOk(t, t.procs[p])
    requires t.val.c1 + t.procs[p].opens == s.val.c1 + s.procs[p].opens
    requires t.val.c0 + t.procs[p].adj.c0 == s.val.c0 + s.procs[p].adj.c0
    requires t.val.c2 + t.procs[p].adj.c2 == s.val.c2 + s.procs[p].adj.c2
    requires Crit(t.procs[p].pc) && !Crit(s.procs[p].pc) ==> s.val.c2 == 0
    requires !s.inited ==> t.val.c1 == 0 && !t.everOpened
    requires (exists q :: 0 <= q < |s.procs| && q != p && s.procs[q].pc.CreateSet?) ==> t.val.c0 == s.val.c0
    ensures Inv(t)
  {
    Column(s, t, p);
    forall q | 0 <= q < |t.procs| ensures ProcOk(t, t.procs[q]) {
      if q != p { assert ProcOk(s, s.procs[q]); }
    }
    assert ProcOk(s, s.procs[p]);
    assert forall q :: q != p ==> InCrit(t, q) == InCrit(s, q);
    assert InCrit(t, p) == Crit(t.procs[p].pc) && InCrit(s, p) == Crit(s.procs[p].pc);
    if InCrit(t, p) && !InCrit(s, p) {
      assert forall q :: !InCrit(s, q);
    }
    if t.val.c2 == 1 {
      if !InCrit(t, p) {
        var q :| InCrit(s, q);
        assert InCrit(t, q);
      }
    }
  }

  /** A step of p that changes nothing but p's place, inside or outside the lock. */
  lemma GotoInv(s: Sys, p: nat, pc: Pc)
    requires Inv(s) && p < |s.procs|
    requires Crit(pc) == Crit(s.procs[p].pc)
    requires ProcOk(s, s.procs[p].(pc := pc))
    ensures Inv(Goto(s, p, pc))
  {
    var t := Goto(s, p, pc);
    if s.live { SemopOrGoto(s, p, t); } else {
      forall q | 0 <= q < |t.procs| ensures ProcOk(t, t.procs[q]) { assert ProcOk(s, s.procs[q]); }
      assert forall q :: InCrit(t, q) == InCrit(s, q);
    }
  }

  lemma SemopOrGoto(s: Sys, p: nat, t: Sys)
    requires Inv(s) && s.live && p < |s.procs| == |t.procs|
    requires t == Goto(s, p, t.procs[p].pc)
    requires Crit(t.procs[p].pc) == Crit(s.procs[p].pc)
    requires ProcOk(t, t.procs[p])
    ensures Inv(t)
  {
    assert ProcOk(s, s.procs[p]);
    SemopInv(s, p, t);
  }

  lemma FreshInv(s: Sys)
    requires Inv(s) && !s.live
    ensures Inv(FreshSet(s))
  {
    var t := FreshSet(s);
    forall q | 0 <= q < |t.procs| ensures ProcOk(t, t.procs[q]) && !InCrit(t, q) { assert ProcOk(s, s.procs[q]); }
    assert forall q :: !InCrit(t, q);
  }

  lemma ExitInv(s: Sys, p: nat)
    requires Inv(s) && p < |s.procs|
    ensures Inv(ExitOf(s, p))
  {
    var t := ExitOf(s, p);
    assert ProcOk(s, s.procs[p]);
    if s.live {
      if s.val.c2 == 0 { assert !InCrit(s, p); }
      Column(s, t, p);
      forall q | 0 <= q < |t.procs| ensures ProcOk(t, t.procs[q]) {
        if q != p {
          assert ProcOk(s, s.procs[q]);
          if s.procs[q].pc.CreateSet? { assert InCrit(s, q); }
        }
      }
      assert forall q :: q != p ==> InCrit(t, q) == InCrit(s, q);
      assert !InCrit(t, p);
      if InCrit(s, p) { assert forall q :: !InCrit(t, q); }
      else if s.val.c2 == 1 { var q :| InCrit(s, q); assert InCrit(t, q); }
    } else {
      forall q | 0 <= q < |t.procs| ensures ProcOk(t, t.procs[q]) {
        if q != p { assert ProcOk(s, s.procs[q]); }
      }
      assert forall q :: InCrit(t, q) ==> InCrit(s, q);
    }
  }

  /** Writing [0] or [1] of a set nobody has attached to; p holds the lock. */
  lemma SetVal0Inv(s: Sys, p: nat, initval: nat)
    requires Inv(s) && p < |s.procs| && s.procs[p].pc.CreateFresh?
    ensures Inv(Goto(SetVal(s, 0, initval).(init0 := initval, lost := 0), p, CreateSet(s.gen, initval)))
  {
    var t := Goto(SetVal(s, 0, initval).(init0 := initval, lost := 0), p, CreateSet(s.gen, initval));
    assert ProcOk(s, s.procs[p]) && InCrit(s, p);
    forall q | 0 <= q < |t.procs| ensures ProcOk(t, t.procs[q]) && (InCrit(t, q) == InCrit(s, q)) {
      assert ProcOk(s, s.procs[q]);
      if q != p { assert !InCrit(s, q); }
    }
    assert InCrit(t, p);
  }

  lemma SetVal1Inv(s: Sys, p: nat)
    requires Inv(s) && p < |s.procs| && s.procs[p].pc.CreateSet?
    ensures Inv(Goto(SetVal(s, 1, BIGCOUNT).(inited := true), p, CreateReady(s.gen)))
  {
    var t := Goto(SetVal(s, 1, BIGCOUNT).(inited := true), p, CreateReady(s.gen));
    assert ProcOk(s, s.procs[p]) && InCrit(s, p);
    forall q | 0 <= q < |t.procs| ensures ProcOk(t, t.procs[q]) && (InCrit(t, q) == InCrit(s, q)) && t.procs[q].opens == 0 && t.procs[q].adj.c0 == 0 {
      assert ProcOk(s, s.procs[q]);
      if q != p { assert !InCrit(s, q); }
    }
    assert InCrit(t, p);
    Quiet(t);
  }

  lemma RemoveInv(s: Sys, p: nat)
    requires Inv(s) && p < |s.procs| && s.procs[p].pc.CloseLast?
    ensures Inv(Goto(RemoveSet(s), p, Idle))
  {
    var t := Goto(RemoveSet(s), p, Idle);
    assert ProcOk(s, s.procs[p]) && InCrit(s, p);
    forall q | 0 <= q < |t.procs| ensures ProcOk(t, t.procs[q]) && !InCrit(t, q) {
      assert ProcOk(s, s.procs[q]);
      if q != p { assert !InCrit(s, q); }
    }
    assert forall q :: !InCrit(t, q);
  }

  /** The counter read as 0 under the lock: exactly when the set was never
      initialised, or BIGCOUNT handles are out. */
  lemma ReadsZeroIff(s: Sys, p: nat)
    requires Inv(s) && p < |s.procs| && s.procs[p].pc.CreateLocked?
    ensures s.val.c1 == 0 <==> !s.inited || Total(s) == BIGCOUNT
  {
    assert ProcOk(s, s.procs[p]);
  }

  lemma NobodyInCrit(s: Sys)
    requires Inv(s) && s.live && s.val.c2 == 0
    ensures forall q :: !InCrit(s, q)
  {
    forall q ensures !InCrit(s, q) {}
  }

  lemma BusyLock(s: Sys, p: nat)
    requires Inv(s) && p < |s.procs| && Crit(s.procs[p].pc)
    ensures s.live && s.val.c2 == 1 && s.procs[p].pc.id == s.gen && !s.procs[p].pc.Dumped?
  {
    assert ProcOk(s, s.procs[p]) && InCrit(s, p);
  }

  lemma NoCreateSet(s: Sys, p: nat)
    requires Inv(s) && p < |s.procs| && (s.procs[p].opens > 0 || s.inited)
    ensures forall q :: 0 <= q < |s.procs| ==> !s.procs[q].pc.CreateSet? && !s.procs[q].pc.CreateFresh?
    ensures s.procs[p].opens > 0 ==> s.live && s.inited
  {
    assert ProcOk(s, s.procs[p]);
    forall q | 0 <= q < |s.procs| ensures !s.procs[q].pc.CreateSet? && !s.procs[q].pc.CreateFresh? { assert ProcOk(s, s.procs[q]); }
  }

  lemma TotalNonneg(s: Sys)
    requires Inv(s)
    ensures Total(s) >= 0
    ensures Total(s) == 0 <==> forall q :: 0 <= q < |s.procs| ==> s.procs[q].opens == 0
  {
    forall i | 0 <= i < |Opens(s)| ensures Opens(s)[i] >= 0 { assert ProcOk(s, s.procs[i]); }
    SumZero(Opens(s));
    if Total(s) == 0 {
      forall q | 0 <= q < |s.procs| ensures s.procs[q].opens == 0 { assert Opens(s)[q] == 0; }
    }
  }

  lemma CreateStepInv(s: Sys, e: Event)
    requires Inv(s) && Permitted(s, e) && Do(s, e).Some?
    requires e.Create? || e.Lock? || e.GetVal?
    ensures Inv(Do(s, e).value)
  {
    var p, t := e.p, Do(s, e).value;
    var x := s.procs[p];
    var m := Members(s.val, x.adj);
    assert ProcOk(s, x);
    ExitInv(s, p);
    match e
    case Create(_, _) =>
      if !s.live { FreshInv(s); }
      GotoInv(if s.live then s else FreshSet(s), p, t.procs[p].pc);
    case Lock(_) =>
      if Valid(s, x.pc.id) {
        LockEffect(m);
        NobodyInCrit(s);
        SemopInv(s, p, t);
      } else {
        if !s.live { FreshInv(s); }
        GotoInv(if s.live then s else FreshSet(s), p, t.procs[p].pc);
      }
    case GetVal(_) =>
      BusyLock(s, p);
      ReadsZeroIff(s, p);
      GotoInv(s, p, t.procs[p].pc);
  }

  lemma InitStepInv(s: Sys, e: Event)
    requires Inv(s) && Permitted(s, e) && Do(s, e).Some?
    requires e.SetVal0? || e.SetVal1? || e.EndCreate?
    ensures Inv(Do(s, e).value)
  {
    var p, t := e.p, Do(s, e).value;
    var x := s.procs[p];
    var m := Members(s.val, x.adj);
    assert ProcOk(s, x);
    ExitInv(s, p);
    match e
    case SetVal0(_) =>
      BusyLock(s, p);
      if x.pc.initval >= 0 { SetVal0Inv(s, p, x.pc.initval); }
    case SetVal1(_) =>
      BusyLock(s, p);
      SetVal1Inv(s, p);
    case EndCreate(_) =>
      BusyLock(s, p);
      EndCreateEffect(m);
      NoCreateSet(s, p);
      SemopInv(s, p, t);
  }

  lemma UseStepInv(s: Sys, e: Event)
    requires Inv(s) && Permitted(s, e) && Do(s, e).Some?
    requires e.Open? || e.OpenCount? || e.Op? || e.Exit?
    ensures Inv(Do(s, e).value)
  {
    var p, t := e.p, Do(s, e).value;
    var x := s.procs[p];
    var m := Members(s.val, x.adj);
    assert ProcOk(s, x);
    ExitInv(s, p);
    match e
    case Open(_) => GotoInv(s, p, t.procs[p].pc);
    case OpenCount(_) =>
      if Valid(s, x.pc.id) {
        OpenEffect(m);
        NoCreateSet(s, p);
        SemopInv(s, p, t);
      }
    case Op(_, amount) =>
      NoCreateSet(s, p);
      if amount != 0 {
        OpEffect(m, amount);
        SemopInv(s, p, t);
      }
    case Exit(_) =>
  }

  lemma CloseStepInv(s: Sys, e: Event)
    requires Inv(s) && Permitted(s, e) && Do(s, e).Some?
    requires e.Close? || e.CloseGetVal? || e.Remove? || e.Unlock?
    ensures Inv(Do(s, e).value)
  {
    var p, t := e.p, Do(s, e).value;
    var x := s.procs[p];
    var m := Members(s.val, x.adj);
    assert ProcOk(s, x);
    ExitInv(s, p);
    match e
    case Close(_) =>
      NoCreateSet(s, p);
      CloseEffect(m);
      NobodyInCrit(s);
      SemopInv(s, p, t);
    case CloseGetVal(_) =>
      BusyLock(s, p);
      TotalNonneg(s);
      GotoInv(s, p, t.procs[p].pc);
    case Remove(_) =>
      BusyLock(s, p);
      RemoveInv(s, p);
    case Unlock(_) =>
      BusyLock(s, p);
      UnlockEffect(m);
      NoCreateSet(s, p);
      SemopInv(s, p, t);
  }

  /** Every permitted step of every process keeps the invariant. */
  lemma StepInv(s: Sys, e: Event)
    requires Inv(s) && Permitted(s, e) && Do(s, e).Some?
    ensures Inv(Do(s, e).value)
  {
    if e.Create? || e.Lock? || e.GetVal? { CreateStepInv(s, e); }
    else if e.SetVal0? || e.SetVal1? || e.EndCreate? { InitStepInv(s, e); }
    else if e.Open? || e.OpenCount? || e.Op? || e.Exit? { UseStepInv(s, e); }
    else { CloseStepInv(s, e); }
  }

  /** What a call outside the lock can wait for: the lock while somebody else is
      inside, a free handle, or the value itself. */
  lemma WaitsOnlyFor(s: Sys, e: Event)
    requires Inv(s) && e.p < |s.procs| && Do(s, e).None?
    ensures e.Lock? && s.procs[e.p].pc.CreateGot? ==> exists q :: q != e.p && InCrit(s, q)
    ensures e.OpenCount? && s.procs[e.p].pc.OpenGot? ==> s.live && (!s.inited || Total(s) == BIGCOUNT)
    ensures e.Close? && s.procs[e.p].pc.Idle? ==> exists q :: q != e.p && InCrit(s, q)
    ensures e.Op? && s.procs[e.p].pc.Idle? ==> s.live && s.val.c0 + e.amount < 0
  {
    var x := s.procs[e.p];
    var m := Members(s.val, x.adj);
    assert ProcOk(s, x);
    LockEffect(m); OpenEffect(m); CloseEffect(m);
    if e.Op? && e.amount != 0 { OpEffect(m, e.amount); }
    hide Semop, Total;
  }

  /** Inside the lock no call ever waits, except the end of a creation for a free
      handle. */
  lemma InsideNeverWaits(s: Sys, p: nat)
    requires Inv(s) && p < |s.procs|
    ensures match s.procs[p].pc
            case CreateLocked(_, _) => Do(s, GetVal(p)).Some?
            case CreateFresh(_, _) => Do(s, SetVal0(p)).Some?
            case CreateSet(_, _) => Do(s, SetVal1(p)).Some?
            case CreateReady(_) => Do(s, EndCreate(p)).Some? || Total(s) == BIGCOUNT
            case CloseLocked(_) => Do(s, CloseGetVal(p)).Some?
            case CloseLast(_) => Do(s, Remove(p)).Some?
            case CloseMore(_) => Do(s, Unlock(p)).Some?
            case _ => true
  {
    var m := Members(s.val, s.procs[p].adj);
    assert ProcOk(s, s.procs[p]);
    if Crit(s.procs[p].pc) { BusyLock(s, p); }
    EndCreateEffect(m); UnlockEffect(m);
    hide Semop, Total;
  }

  /** The fatal errors a permitted run can meet: a negative initial value, an open
      of a set removed since semget(), and an operation with amount 0. */
  lemma DiesIff(s: Sys, e: Event)
    requires Inv(s) && Permitted(s, e) && Do(s, e).Some? && !e.Exit?
    ensures var (t, pc) := (Do(s, e).value, s.procs[e.p].pc);
            && |t.procs| == |s.procs|
            && (t.procs[e.p].pc.Dead? <==> (e.SetVal0? && pc.initval < 0) || (e.OpenCount? && !Valid(s, pc.id)) || (e.Op? && e.amount == 0))
  {
    hide Semop;
    StepSameProcs(s, e);
    var x := s.procs[e.p];
    if Crit(x.pc) { BusyLock(s, e.p); }
    assert ProcOk(s, x);
  }

  /** Under the lock, the counter tells the last holder from the others. */
  lemma LastCloseIff(s: Sys, p: nat)
    requires Inv(s) && p < |s.procs| && s.procs[p].pc.CloseLocked?
    ensures Do(s, CloseGetVal(p)).Some?
    ensures var t := Do(s, CloseGetVal(p)).value;
            && t.live && t.val == s.val && |t.procs| == |s.procs|
            && (t.procs[p].pc == CloseLast(s.gen) <==> Total(s) == 0)
            && (t.procs[p].pc == CloseMore(s.gen) <==> Total(s) > 0)
  {
    BusyLock(s, p);
    assert ProcOk(s, s.procs[p]);
    TotalNonneg(s);
  }

  /** A whole sem_close() that nobody interrupts: the last holder removes the set,
      whatever undo values it has; any other leaves it, unlocked, with its own
      handle counted out and the value untouched. */
  lemma CloseWhole(s: Sys, p: nat) returns (t: Sys)
    requires Inv(s) && p < |s.procs| && s.procs[p].pc.Idle? && s.procs[p].opens > 0 && s.val.c2 == 0
    ensures Inv(t) && |t.procs| == |s.procs| && t.procs[p].pc.Idle?
    ensures Total(s) == 1 ==> Run(s, [Close(p), CloseGetVal(p), Remove(p)]) == Some(t) && !t.live
    ensures Total(s) > 1 ==> Run(s, [Close(p), CloseGetVal(p), Unlock(p)]) == Some(t) && t.live && t.gen == s.gen
                             && t.val == s.val.(c1 := s.val.c1 + 1) && t.procs[p].opens == s.procs[p].opens - 1
    ensures Total(s) >= 1
  {
    var a := CloseStarts(s, p);
    LastCloseIff(a, p);
    var b := Do(a, CloseGetVal(p)).value;
    StepInv(a, CloseGetVal(p));
    var e := if Total(a) == 0 then Remove(p) else Unlock(p);
    CloseEnds(b, p, e);
    t := Do(b, e).value;
    assert b.procs[p].opens == a.procs[p].opens && b.gen == a.gen;
    hide Do, Inv, Total;
    RunThree(s, Close(p), a, CloseGetVal(p), b, e, t);
  }

  lemma CloseStarts(s: Sys, p: nat) returns (a: Sys)
    requires Inv(s) && p < |s.procs| && s.procs[p].pc.Idle? && s.procs[p].opens > 0 && s.val.c2 == 0
    ensures Do(s, Close(p)) == Some(a) && Inv(a) && |a.procs| == |s.procs| && a.live && a.gen == s.gen
    ensures a.procs[p].pc == CloseLocked(s.gen) && a.procs[p].opens == s.procs[p].opens - 1
    ensures Total(a) == Total(s) - 1 >= 0 && a.val == Vec(s.val.c0, s.val.c1 + 1, 1)
  {
    NoCreateSet(s, p);
    CloseEffect(Members(s.val, s.procs[p].adj));
    a := Do(s, Close(p)).value;
    StepInv(s, Close(p));
    Column(s, a, p);
    TotalNonneg(a);
  }

  lemma CloseEnds(b: Sys, p: nat, e: Event)
    requires Inv(b) && p < |b.procs| && b.val.c2 == 1
    requires (b.procs[p].pc.CloseLast? && e == Remove(p)) || (b.procs[p].pc.CloseMore? && e == Unlock(p))
    ensures Do(b, e).Some?
    ensures var t := Do(b, e).value;
            && Inv(t) && |t.procs| == |b.procs| && t.procs[p].pc.Idle?
            && (e.Remove? ==> !t.live)
            && (e.Unlock? ==> t.live && t.gen == b.gen && t.val == b.val.(c2 := 0) && t.procs[p].opens == b.procs[p].opens)
  {
    BusyLock(b, p);
    UnlockEffect(Members(b.val, b.procs[p].adj));
    StepInv(b, e);
    hide Inv, Semop;
  }

  lemma RunThree(s: Sys, e: Event, a: Sys, f: Event, b: Sys, g: Event, t: Sys)
    requires Do(s, e) == Some(a) && Do(a, f) == Some(b) && Do(b, g) == Some(t)
    ensures Run(s, [e, f, g]) == Some(t)
  {
    hide Do;
    assert [e, f, g][1..] == [f, g] && [f, g][1..] == [g] && [g][1..] == [];
    assert Run(b, [g]) == Some(t) && Run(a, [f, g]) == Some(t);
  }

  // ------------------------------------------------------------- whole runs

  function Run(s: Sys, es: seq<Event>): Option<Sys>
    decreases |es|
  {
    if es == [] then Some(s)
    else match Do(s, es[0])
         case None => None
         case Some(t) => Run(t, es[1..])
  }

  ghost predicate AllPermitted(s: Sys, es: seq<Event>)
    decreases |es|
  {
    es != [] ==> Permitted(s, es[0]) && (Do(s, es[0]).Some? ==> AllPermitted(Do(s, es[0]).value, es[1..]))
  }

  lemma {:induction false} RunInv(s: Sys, es: seq<Event>)
    requires Inv(s) && AllPermitted(s, es) && Run(s, es).Some?
    ensures Inv(Run(s, es).value)
    decreases |es|
  {
    if es != [] {
      StepInv(s, es[0]);
      RunInv(Do(s, es[0]).value, es[1..]);
    }
  }

  /** In every interleaving, exits included: handles plus counter make BIGCOUNT. */
  lemma CounterConservation(n: nat, es: seq<Event>, t: Sys)
    requires AllPermitted(Start(n), es) && Run(Start(n), es) == Some(t)
    requires t.live && t.inited
    ensures t.val.c1 + Total(t) == BIGCOUNT
    ensures 0 <= Total(t) <= BIGCOUNT
    ensures t.val.c0 + Sum(Undo0(t)) == t.init0 + t.lost
  {
    StartInv(n);
    RunInv(Start(n), es);
    TotalNonneg(t);
  }

  /** "sem[1] > BIGCOUNT" is never reported. */
  lemma NeverDumped(n: nat, es: seq<Event>, t: Sys, p: nat)
    requires AllPermitted(Start(n), es) && Run(Start(n), es) == Some(t)
    requires p < n
    ensures |t.procs| == n && !t.procs[p].pc.Dumped?
  {
    StartInv(n);
    RunInv(Start(n), es);
    SameProcs(Start(n), es);
    assert ProcOk(t, t.procs[p]);
  }

  lemma StepSameProcs(s: Sys, e: Event)
    requires Do(s, e).Some?
    ensures |Do(s, e).value.procs| == |s.procs|
  {}

  lemma {:induction false} SameProcs(s: Sys, es: seq<Event>)
    requires Run(s, es).Some?
    ensures |Run(s, es).value.procs| == |s.procs|
    decreases |es|
  {
    hide Do;
    if es != [] {
      StepSameProcs(s, es[0]);
      SameProcs(Do(s, es[0]).value, es[1..]);
    }
  }

  /** [2] is a mutex: 0 or 1, and 1 exactly while one process is inside. */
  lemma LockIsMutex(n: nat, es: seq<Event>, t: Sys)
    requires AllPermitted(Start(n), es) && Run(Start(n), es) == Some(t)
    requires t.live
    ensures t.val.c2 == 0 || t.val.c2 == 1
    ensures t.val.c2 == 1 <==> exists p :: InCrit(t, p)
    ensures forall p, q :: InCrit(t, p) && InCrit(t, q) ==> p == q
  {
    StartInv(n);
    RunInv(Start(n), es);
  }

  /** The two SETVALs only ever happen in a set that nobody has opened yet. */
  lemma InitialisesOnlyUnopened(n: nat, es: seq<Event>, t: Sys, e: Event)
    requires AllPermitted(Start(n), es) && Run(Start(n), es) == Some(t)
    requires e.SetVal0? || e.SetVal1?
    requires Do(t, e).Some?
    ensures t.live && !t.everOpened && !t.inited && Total(t) == 0 && t.val.c1 == 0
  {
    StartInv(n);
    RunInv(Start(n), es);
    assert ProcOk(t, t.procs[e.p]) && InCrit(t, e.p);
    forall q | 0 <= q < |t.procs| ensures t.procs[q].opens == 0 { assert ProcOk(t, t.procs[q]); }
    TotalNonneg(t);
  }

  /** The step is no sem_op() and its process survives it. */
  predicate LeavesValue(s: Sys, e: Event) {
    !e.Op? && (Do(s, e).Some? && e.p < |Do(s, e).value.procs| ==> !Do(s, e).value.procs[e.p].pc.Dead?)
  }

  ghost predicate AllLeaveValue(s: Sys, es: seq<Event>)
    decreases |es|
  {
    es != [] && Do(s, es[0]).Some? ==> LeavesValue(s, es[0]) && AllLeaveValue(Do(s, es[0]).value, es[1..])
  }

  lemma StepKeepsValue(s: Sys, e: Event)
    requires Inv(s) && Permitted(s, e) && Do(s, e).Some?
    requires s.live && s.inited && LeavesValue(s, e)
    ensures var t := Do(s, e).value;
            t.gen == s.gen && t.live ==> t.inited && t.val.c0 == s.val.c0
    ensures Do(s, e).value.gen == s.gen
  {
    var p, x := e.p, s.procs[e.p];
    var m := Members(s.val, x.adj);
    assert ProcOk(s, x);
    if Crit(x.pc) { BusyLock(s, p); }
    LockEffect(m); EndCreateEffect(m); OpenEffect(m); CloseEffect(m); UnlockEffect(m);
  }

  lemma GenGrows(s: Sys, e: Event)
    requires Do(s, e).Some?
    ensures Do(s, e).value.gen >= s.gen
    ensures !s.live && Do(s, e).value.live ==> Do(s, e).value.gen > s.gen
  {
  }

  lemma {:induction false} DeadSetStaysDead(s: Sys, es: seq<Event>)
    requires Run(s, es).Some?
    ensures Run(s, es).value.gen >= s.gen
    ensures !s.live && Run(s, es).value.live ==> Run(s, es).value.gen > s.gen
    decreases |es|
  {
    if es != [] {
      GenGrows(s, es[0]);
      DeadSetStaysDead(Do(s, es[0]).value, es[1..]);
    }
  }

  /** However many creations, opens and closes follow, an initialised set keeps
      its semaphore value until it is removed. */
  lemma {:induction false} CreateNeverResets(s: Sys, es: seq<Event>, t: Sys)
    requires Inv(s) && AllPermitted(s, es) && Run(s, es) == Some(t)
    requires s.live && s.inited && AllLeaveValue(s, es)
    requires t.live && t.gen == s.gen
    ensures t.val.c0 == s.val.c0 && t.inited
    decreases |es|
  {
    if es != [] {
      var u := Do(s, es[0]).value;
      StepInv(s, es[0]);
      StepKeepsValue(s, es[0]);
      DeadSetStaysDead(u, es[1..]);
      CreateNeverResets(u, es[1..], t);
    }
  }

  // ------------------------------------------------------------- initial values

  /** The initial value a process carries through its sem_create(). */
  function Carried(pc: Pc): Option<int> {
    match pc
    case CreateGot(_, v) => Some(v)
    case CreateLocked(_, v) => Some(v)
    case CreateFresh(_, v) => Some(v)
    case CreateSet(_, v) => Some(v)
    case _ => None
  }

  /** The value of p's latest sem_create() of a run. */
  function LastInitval(es: seq<Event>, p: nat): int {
    if es == [] then 0
    else match es[|es| - 1]
         case Create(q, v) => if q == p then v else LastInitval(es[..|es| - 1], p)
         case _ => LastInitval(es[..|es| - 1], p)
  }

  /** The value of the sem_create() that last wrote [0] with SETVAL. */
  function LastWritten(es: seq<Event>): int {
    if es == [] then 0
    else match es[|es| - 1]
         case SetVal0(p) => LastInitval(es[..|es| - 1], p)
         case _ => LastWritten(es[..|es| - 1])
  }

  lemma {:induction false} RunSnoc(s: Sys, es: seq<Event>)
    requires es != [] && Run(s, es).Some?
    ensures Run(s, es[..|es| - 1]).Some? && Do(Run(s, es[..|es| - 1]).value, es[|es| - 1]) == Run(s, es)
    ensures AllPermitted(s, es) ==> AllPermitted(s, es[..|es| - 1])
    decreases |es|
  {
    hide Do, Permitted;
    if |es| == 1 {
      assert es[1..] == [] && es[..0] == [];
    } else {
      RunSnoc(Do(s, es[0]).value, es[1..]);
      assert es[1..][..|es| - 2] == es[..|es| - 1][1..];
    }
  }

  lemma CarriedStep(s: Sys, e: Event, q: nat)
    requires Do(s, e).Some? && q < |s.procs|
    ensures |Do(s, e).value.procs| == |s.procs|
    ensures var c := Carried(Do(s, e).value.procs[q].pc);
            c.Some? ==> c == if e.Create? && e.p == q then Some(e.initval) else Carried(s.procs[q].pc)
  {
    hide Semop;
    StepSameProcs(s, e);
    if q == e.p { CarriedOwn(s, e); } else { OthersKeepPc(s, e, q); }
  }

  lemma OthersKeepPc(s: Sys, e: Event, q: nat)
    requires Do(s, e).Some? && q < |s.procs| == |Do(s, e).value.procs| && q != e.p
    ensures Do(s, e).value.procs[q].pc == s.procs[q].pc
  {
    hide Semop;
  }

  lemma CarriedOwn(s: Sys, e: Event)
    requires Do(s, e).Some? && e.p < |s.procs| == |Do(s, e).value.procs|
    ensures var c := Carried(Do(s, e).value.procs[e.p].pc);
            c.Some? ==> c == if e.Create? then Some(e.initval) else Carried(s.procs[e.p].pc)
  {
    hide Semop;
  }

  /** Through every retry, sem_create carries its own initial value. */
  lemma {:induction false} CarriesInitval(n: nat, es: seq<Event>, t: Sys, p: nat)
    requires Run(Start(n), es) == Some(t) && p < |t.procs| && Carried(t.procs[p].pc).Some?
    ensures Carried(t.procs[p].pc) == Some(LastInitval(es, p))
    decreases |es|
  {
    if es != [] {
      RunSnoc(Start(n), es);
      var u := Run(Start(n), es[..|es| - 1]).value;
      StepSameProcs(u, es[|es| - 1]);
      CarriedStep(u, es[|es| - 1], p);
      hide Do;
      if Carried(u.procs[p].pc).Some? { CarriesInitval(n, es[..|es| - 1], u, p); }
    }
  }

  predicate Writing(s: Sys) { exists q :: 0 <= q < |s.procs| && s.procs[q].pc.CreateSet? }

  lemma WrittenStep(s: Sys, e: Event)
    requires Inv(s) && Permitted(s, e) && Do(s, e).Some?
    ensures var t := Do(s, e).value;
            t.live && (t.inited || Writing(t)) ==>
              if e.SetVal0? then Carried(s.procs[e.p].pc) == Some(t.init0) else s.live && (s.inited || Writing(s)) && t.init0 == s.init0
  {
    var t, p := Do(s, e).value, e.p;
    StepInv(s, e);
    assert ProcOk(s, s.procs[p]) && ProcOk(t, t.procs[p]);
    assert forall q :: 0 <= q < |t.procs| && q != p ==> t.procs[q].pc == s.procs[q].pc;
    if e.SetVal0? { NobodyElseWrites(s, p); }
    if Writing(t) {
      var q :| 0 <= q < |t.procs| && t.procs[q].pc.CreateSet?;
      assert ProcOk(t, t.procs[q]);
      if q != p { assert s.procs[q].pc.CreateSet? && ProcOk(s, s.procs[q]); }
    }
  }

  lemma NobodyElseWrites(s: Sys, p: nat)
    requires Inv(s) && p < |s.procs| && s.procs[p].pc.CreateFresh?
    ensures s.live && !s.inited && !Writing(s)
  {
    BusyLock(s, p);
    assert ProcOk(s, s.procs[p]) && InCrit(s, p);
    forall q | 0 <= q < |s.procs| ensures !s.procs[q].pc.CreateSet? {
      if s.procs[q].pc.CreateSet? { assert InCrit(s, q); }
    }
  }

  /** In every run, an initialised set started with the value of the sem_create that
      initialised it, whatever others asked for meanwhile. */
  lemma {:induction false} InitialValue(n: nat, es: seq<Event>, t: Sys)
    requires AllPermitted(Start(n), es) && Run(Start(n), es) == Some(t)
    requires t.live && (t.inited || Writing(t))
    ensures t.init0 == LastWritten(es)
    decreases |es|
  {
    if es != [] {
      var m := |es| - 1;
      RunSnoc(Start(n), es);
      var u := Run(Start(n), es[..m]).value;
      StartInv(n);
      RunInv(Start(n), es[..m]);
      PermittedLast(Start(n), es);
      WrittenStep(u, es[m]);
      hide Do, Inv, Permitted;
      if es[m].SetVal0? {
        CarriesInitval(n, es[..m], u, es[m].p);
      } else {
        InitialValue(n, es[..m], u);
      }
    }
  }

  lemma {:induction false} PermittedLast(s: Sys, es: seq<Event>)
    requires es != [] && Run(s, es).Some? && AllPermitted(s, es)
    ensures Run(s, es[..|es| - 1]).Some? && Permitted(Run(s, es[..|es| - 1]).value, es[|es| - 1])
    decreases |es|
  {
    hide Do, Permitted;
    if |es| == 1 {
      assert es[..0] == [];
    } else {
      PermittedLast(Do(s, es[0]).value, es[1..]);
      assert es[1..][..|es| - 2] == es[..|es| - 1][1..];
    }
  }

  /** "goto again": a creation whose set was removed gets the current set, or a new
      one, and asks for the same initial value; it never fails for that. */
  lemma CreateRetries(s: Sys, p: nat)
    requires p < |s.procs| && s.procs[p].pc.CreateGot? && !Valid(s, s.procs[p].pc.id)
    ensures Do(s, Lock(p)).Some?
    ensures var t := Do(s, Lock(p)).value;
            && t.live && |t.procs| == |s.procs| && t.procs[p].pc == CreateGot(t.gen, s.procs[p].pc.initval)
            && (s.live ==> t.val == s.val && t.gen == s.gen)
            && (!s.live ==> t.val == ZERO3 && t.gen == s.gen + 1 && !t.inited)
  {}

  // ------------------------------------------------------------- undo

  function Ops(p: nat, amounts: seq<int>): seq<Event> { seq(|amounts|, i requires 0 <= i < |amounts| => Op(p, amounts[i])) }

  lemma {:induction false} OpsKeepSum(s: Sys, p: nat, amounts: seq<int>, u: Sys)
    requires s.live && p < |s.procs| && s.procs[p].pc.Idle? && 0 !in amounts
    requires Run(s, Ops(p, amounts)) == Some(u)
    ensures |u.procs| == |s.procs| && u.live && u.procs[p].pc.Idle?
    ensures u.val.c0 + u.procs[p].adj.c0 == s.val.c0 + s.procs[p].adj.c0
    ensures u.val == s.val.(c0 := u.val.c0) && u.procs[p].adj == s.procs[p].adj.(c0 := u.procs[p].adj.c0)
    decreases |amounts|
  {
    if amounts != [] {
      OpEffect(Members(s.val, s.procs[p].adj), amounts[0]);
      assert Ops(p, amounts)[0] == Op(p, amounts[0]) && Ops(p, amounts)[1..] == Ops(p, amounts[1..]);
      assert 0 !in amounts[1..];
      OpsKeepSum(Do(s, Op(p, amounts[0])).value, p, amounts[1..], u);
    }
  }

  /** Whatever a process did to the value, its exit takes it all back, its handles
      and its lock included. */
  lemma ExitUndoesOps(s: Sys, p: nat, amounts: seq<int>, u: Sys)
    requires Inv(s) && s.live && p < |s.procs| && s.procs[p].pc.Idle? && 0 !in amounts
    requires s.procs[p].adj.c0 == 0 && Run(s, Ops(p, amounts)) == Some(u)
    ensures p < |u.procs| && Do(u, Exit(p)).Some?
    ensures var t := Do(u, Exit(p)).value;
            t.live && t.val == s.val.(c1 := s.val.c1 + s.procs[p].opens) && t.lost == u.lost
  {
    OpsKeepSum(s, p, amounts, u);
    assert ProcOk(s, s.procs[p]);
  }

  // ------------------------------------------------------------- a set in use taken for new

  /** An initialised set is about to be initialised again. */
  predicate Retaken(s: Sys) { s.live && s.inited && exists q :: 0 <= q < |s.procs| && s.procs[q].pc.CreateFresh? }

  lemma NotRetaken(s: Sys)
    requires Inv(s)
    ensures !Retaken(s)
  {
    forall q | 0 <= q < |s.procs| ensures s.procs[q].pc.CreateFresh? ==> !s.inited { assert ProcOk(s, s.procs[q]); }
  }

  /** One step does that exactly when it reads the counter with BIGCOUNT handles out. */
  lemma RetakenIff(s: Sys, e: Event)
    requires Inv(s) && Careful(s, e) && Do(s, e).Some?
    ensures Retaken(Do(s, e).value) <==> !Roomy(s, e)
  {
    if Roomy(s, e) {
      StepInv(s, e);
      NotRetaken(Do(s, e).value);
    } else {
      assert s.procs[e.p].pc.CreateLocked?;
      BusyLock(s, e.p);
      ReadsZeroIff(s, e.p);
      assert Do(s, e).value.procs[e.p].pc.CreateFresh?;
    }
  }

  ghost predicate AllCareful(s: Sys, es: seq<Event>)
    decreases |es|
  {
    es != [] && Do(s, es[0]).Some? ==> Careful(s, es[0]) && AllCareful(Do(s, es[0]).value, es[1..])
  }

  ghost predicate NeverRetaken(s: Sys, es: seq<Event>)
    decreases |es|
  {
    !Retaken(s) && (es != [] && Do(s, es[0]).Some? ==> NeverRetaken(Do(s, es[0]).value, es[1..]))
  }

  /** Over a whole run of careful callers: no set in use is ever taken for new
      exactly when no creation reads the counter with BIGCOUNT handles out. */
  lemma {:induction false} NeverRetakenIff(s: Sys, es: seq<Event>)
    requires Inv(s) && AllCareful(s, es) && Run(s, es).Some?
    ensures NeverRetaken(s, es) <==> AllPermitted(s, es)
    decreases |es|
  {
    NotRetaken(s);
    if es != [] {
      var t := Do(s, es[0]).value;
      RetakenIff(s, es[0]);
      if Roomy(s, es[0]) {
        StepInv(s, es[0]);
        NeverRetakenIff(t, es[1..]);
      }
    }
  }

  // ------------------------------------------------------------- removal

  predicate Closing(s: Sys) { exists q :: 0 <= q < |s.procs| && s.procs[q].pc.CloseLast? }

  /** Nobody holds the set that a process has decided to remove. */
  predicate NoDoomed(s: Sys) { Closing(s) ==> Total(s) == 0 }

  /** sem_open attaches only while no close has decided to remove the set. */
  predicate Guarded(s: Sys, e: Event) {
    e.OpenCount? && e.p < |s.procs| && s.procs[e.p].pc.OpenGot? && Valid(s, s.procs[e.p].pc.id) ==> !Closing(s)
  }

  /** The guard is exact, step by step. */
  lemma DoomedIff(s: Sys, e: Event)
    requires Inv(s) && NoDoomed(s) && Permitted(s, e) && Do(s, e).Some?
    ensures NoDoomed(Do(s, e).value) <==> Guarded(s, e)
  {
    if Closing(s) {
      var q :| 0 <= q < |s.procs| && s.procs[q].pc.CloseLast?;
      DoomedWhileClosing(s, e, q);
    } else {
      DoomedBecomesClosing(s, e);
    }
  }

  lemma DoomedWhileClosing(s: Sys, e: Event, q: nat)
    requires Inv(s) && Total(s) == 0 && Permitted(s, e) && Do(s, e).Some?
    requires q < |s.procs| && s.procs[q].pc.CloseLast?
    ensures NoDoomed(Do(s, e).value) <==> Guarded(s, e)
  {
    var t, p := Do(s, e).value, e.p;
    var x := s.procs[p];
    var m := Members(s.val, x.adj);
    StepInv(s, e);
    TotalNonneg(s);
    TotalNonneg(t);
    BusyLock(s, q);
    assert ProcOk(s, x);
    assert InCrit(s, q);
    assert Crit(x.pc) ==> InCrit(s, p) && p == q;
    LockEffect(m); OpenEffect(m); CloseEffect(m);
    if e.OpenCount? && Valid(s, x.pc.id) {
      Column(s, t, p);
      assert t.procs[q] == s.procs[q];
    }
  }

  lemma DoomedBecomesClosing(s: Sys, e: Event)
    requires Inv(s) && !Closing(s) && Permitted(s, e) && Do(s, e).Some?
    ensures NoDoomed(Do(s, e).value)
  {
    var t, p := Do(s, e).value, e.p;
    var x := s.procs[p];
    assert ProcOk(s, x);
    StepInv(s, e);
    if Closing(t) {
      var q :| 0 <= q < |t.procs| && t.procs[q].pc.CloseLast?;
      assert q == p && e.CloseGetVal?;
      BusyLock(s, p);
      Column(s, t, p);
    }
  }

  ghost predicate AllGuarded(s: Sys, es: seq<Event>)
    decreases |es|
  {
    es != [] && Do(s, es[0]).Some? ==> Guarded(s, es[0]) && AllGuarded(Do(s, es[0]).value, es[1..])
  }

  ghost predicate NeverDoomed(s: Sys, es: seq<Event>)
    decreases |es|
  {
    NoDoomed(s) && (es != [] && Do(s, es[0]).Some? ==> NeverDoomed(Do(s, es[0]).value, es[1..]))
  }

  /** Over a whole run: no set that somebody holds is ever about to be removed
      exactly when every sem_open attaches outside a final close. */
  lemma {:induction false} NeverDoomedIff(s: Sys, es: seq<Event>)
    requires Inv(s) && NoDoomed(s) && AllPermitted(s, es)
    ensures NeverDoomed(s, es) <==> AllGuarded(s, es)
    decreases |es|
  {
    if es != [] && Do(s, es[0]).Some? {
      var t := Do(s, es[0]).value;
      StepInv(s, es[0]);
      DoomedIff(s, es[0]);
      if NoDoomed(t) { NeverDoomedIff(t, es[1..]); }
    }
  }

  /** sem_close removes the set only when no process has it open. */
  lemma {:induction false} RemovesOnlyUnused(s: Sys, es: seq<Event>, t: Sys, p: nat)
    requires Inv(s) && NoDoomed(s) && AllPermitted(s, es) && AllGuarded(s, es) && Run(s, es) == Some(t)
    requires Do(t, Remove(p)).Some?
    ensures t.live && !Do(t, Remove(p)).value.live
    ensures forall q :: 0 <= q < |t.procs| ==> t.procs[q].opens == 0
    decreases |es|
  {
    if es == [] {
      BusyLock(s, p);
      assert Closing(s);
      TotalNonneg(s);
    } else {
      StepInv(s, es[0]);
      DoomedIff(s, es[0]);
      RemovesOnlyUnused(Do(s, es[0]).value, es[1..], t, p);
    }
  }

  /** A sem_open made while some process keeps the set open is always guarded. */
  lemma OpenWhileHeldIsGuarded(s: Sys, e: Event)
    requires Inv(s) && NoDoomed(s) && Total(s) > 0
    ensures Guarded(s, e)
  {
  }

  /** sem_open attaches only while some process keeps the set open. */
  ghost predicate AllHeld(s: Sys, es: seq<Event>)
    decreases |es|
  {
    es != [] && Do(s, es[0]).Some? ==> (es[0].OpenCount? ==> Total(s) > 0) && AllHeld(Do(s, es[0]).value, es[1..])
  }

  lemma {:induction false} HeldIsGuarded(s: Sys, es: seq<Event>)
    requires Inv(s) && NoDoomed(s) && AllPermitted(s, es) && AllHeld(s, es)
    ensures AllGuarded(s, es)
    decreases |es|
  {
    if es != [] && Do(s, es[0]).Some? {
      if es[0].OpenCount? { OpenWhileHeldIsGuarded(s, es[0]); }
      StepInv(s, es[0]);
      DoomedIff(s, es[0]);
      HeldIsGuarded(Do(s, es[0]).value, es[1..]);
    }
  }

  /** From the start, with processes that attach by sem_create, or by sem_open while
      the set is held: what is removed nobody has open. */
  lemma RemovalIsSafe(n: nat, es: seq<Event>, t: Sys, p: nat)
    requires AllPermitted(Start(n), es) && AllHeld(Start(n), es) && Run(Start(n), es) == Some(t)
    requires Do(t, Remove(p)).Some?
    ensures t.live && !Do(t, Remove(p)).value.live
    ensures forall q :: 0 <= q < |t.procs| ==> t.procs[q].opens == 0
  {
    StartInv(n);
    HeldIsGuarded(Start(n), es);
    RemovesOnlyUnused(Start(n), es, t, p);
  }

  // ------------------------------------------------------------- where it fails

  lemma RunCons(s: Sys, e: Event, t: Sys, es: seq<Event>)
    requires Do(s, e) == Some(t) && Permitted(s, e)
    ensures Run(s, [e] + es) == Run(t, es)
    ensures AllPermitted(s, [e] + es) <==> AllPermitted(t, es)
  {
    assert ([e] + es)[1..] == es;
  }

  lemma {:induction false} RunAppend(s: Sys, es: seq<Event>, fs: seq<Event>)
    requires Run(s, es).Some? && AllPermitted(s, es)
    ensures Run(s, es + fs) == Run(Run(s, es).value, fs)
    ensures AllPermitted(s, es + fs) <==> AllPermitted(Run(s, es).value, fs)
    decreases |es|
  {
    hide Do, Permitted;
    if es == [] {
      assert es + fs == fs;
    } else {
      assert (es + fs)[0] == es[0];
      RunAppend(Do(s, es[0]).value, es[1..], fs);
      assert (es + fs)[1..] == es[1..] + fs;
    }
  }

  /** Two processes: the given one and one that has done nothing so far. */
  function Two(a: Proc, b: Proc, initval: int, count: int, lock: int, inited: bool): Sys {
    Sys([a, b], 1, true, Vec(initval, count, lock), inited, inited, initval, 0)
  }

  const NEWCOMER := Proc(Idle, ZERO3, 0)

  /** Process 0 keeps the set open k times. */
  function Held(initval: int, k: nat): Sys {
    Two(Proc(Idle, Vec(0, k, 0), k), NEWCOMER, initval, BIGCOUNT - k, 0, true)
  }

  /** sem_create() by process 0, alone. */
  lemma CreateAlone(initval: nat) returns (es: seq<Event>)
    ensures Run(Start(2), es) == Some(Held(initval, 1)) && AllPermitted(Start(2), es)
  {
    var locked := Vec(0, 0, -1);
    var z := Sys([Proc(CreateGot(1, initval), ZERO3, 0), NEWCOMER], 1, true, ZERO3, false, false, 0, 0);
    var a := z.(procs := [Proc(CreateLocked(1, initval), locked, 0), NEWCOMER], val := Vec(0, 0, 1));
    var b := a.(procs := [Proc(CreateFresh(1, initval), locked, 0), NEWCOMER]);
    var c := a.(procs := [Proc(CreateSet(1, initval), locked, 0), NEWCOMER], val := Vec(initval, 0, 1), init0 := initval);
    var d := c.(procs := [Proc(CreateReady(1), locked, 0), NEWCOMER], val := Vec(initval, BIGCOUNT, 1), inited := true);
    var m := Members(a.val, locked);
    LockEffect(Members(ZERO3, ZERO3));
    EndCreateEffect(Members(d.val, locked));
    assert Do(Start(2), Create(0, initval)).value.procs == z.procs;
    assert Do(Start(2), Create(0, initval)) == Some(z);
    assert Do(z, Lock(0)).value.procs == a.procs;
    assert Do(z, Lock(0)) == Some(a);
    assert Do(a, GetVal(0)).value.procs == b.procs;
    assert Do(a, GetVal(0)) == Some(b);
    assert Do(b, SetVal0(0)).value.procs == c.procs;
    assert Do(b, SetVal0(0)) == Some(c);
    assert Do(c, SetVal1(0)).value.procs == d.procs;
    assert Do(c, SetVal1(0)) == Some(d);
    assert Do(d, EndCreate(0)).value.procs == Held(initval, 1).procs;
    assert Do(d, EndCreate(0)) == Some(Held(initval, 1));
    RunCons(d, EndCreate(0), Held(initval, 1), []);
    RunCons(c, SetVal1(0), d, [EndCreate(0)]);
    RunCons(b, SetVal0(0), c, [SetVal1(0)] + [EndCreate(0)]);
    RunCons(a, GetVal(0), b, [SetVal0(0)] + ([SetVal1(0)] + [EndCreate(0)]));
    RunCons(z, Lock(0), a, [GetVal(0)] + ([SetVal0(0)] + ([SetVal1(0)] + [EndCreate(0)])));
    es := [Create(0, initval)] + ([Lock(0)] + ([GetVal(0)] + ([SetVal0(0)] + ([SetVal1(0)] + [EndCreate(0)]))));
    RunCons(Start(2), Create(0, initval), z, es[1..]);
  }

  lemma RaceSteps(initval: nat) returns (a: Sys, b: Sys, c: Sys, t: Sys)
    ensures var h := Held(initval, 1);
            && Do(h, Open(1)) == Some(a) && Do(a, Close(0)) == Some(b)
            && Do(b, CloseGetVal(0)) == Some(c) && Do(c, OpenCount(1)) == Some(t)
            && Permitted(h, Open(1)) && Permitted(a, Close(0)) && Permitted(b, CloseGetVal(0)) && Permitted(c, OpenCount(1))
    ensures |t.procs| == 2 && t.procs[1].opens == 1
    ensures t.live && Do(t, Remove(0)).Some? && !Do(t, Remove(0)).value.live
  {
    var h := Held(initval, 1);
    var got := Proc(OpenGot(1), ZERO3, 0);
    a := h.(procs := [h.procs[0], got]);
    b := Two(Proc(CloseLocked(1), Vec(0, 0, -1), 0), got, initval, BIGCOUNT, 1, true);
    c := b.(procs := [Proc(CloseLast(1), Vec(0, 0, -1), 0), got]);
    t := Two(c.procs[0], Proc(Idle, Vec(0, 1, 0), 1), initval, BIGCOUNT - 1, 1, true);
    CloseEffect(Members(a.val, a.procs[0].adj));
    OpenEffect(Members(c.val, ZERO3));
    assert Do(h, Open(1)).value.procs == a.procs;
    assert Do(a, Close(0)).value.procs == b.procs;
    assert Do(b, CloseGetVal(0)).value.procs == c.procs;
    assert Do(c, OpenCount(1)).value.procs == t.procs;
  }

  /** sem_open racing with the last close: process 0 is about to remove the set
      that process 1 has just opened.  Only the guard is missing. */
  lemma OpenRace(initval: nat) returns (es: seq<Event>, t: Sys)
    ensures Run(Start(2), es) == Some(t) && AllPermitted(Start(2), es)
    ensures |t.procs| == 2 && t.procs[1].opens == 1
    ensures t.live && Do(t, Remove(0)).Some? && !Do(t, Remove(0)).value.live
  {
    hide Do, Permitted;
    es := CreateAlone(initval);
    var h := Held(initval, 1);
    var a, b, c;
    a, b, c, t := RaceSteps(initval);
    RunCons(c, OpenCount(1), t, []);
    RunCons(b, CloseGetVal(0), c, [OpenCount(1)]);
    RunCons(a, Close(0), b, [CloseGetVal(0)] + [OpenCount(1)]);
    RunCons(h, Open(1), a, [Close(0)] + ([CloseGetVal(0)] + [OpenCount(1)]));
    var fs := [Open(1)] + ([Close(0)] + ([CloseGetVal(0)] + [OpenCount(1)]));
    RunAppend(Start(2), es, fs);
    es := es + fs;
  }

  lemma OpenAgain(initval: nat, k: nat) returns (a: Sys)
    requires 1 < k <= BIGCOUNT
    ensures var h := Held(initval, k - 1);
            && Do(h, Open(0)) == Some(a) && Do(a, OpenCount(0)) == Some(Held(initval, k))
            && Permitted(h, Open(0)) && Permitted(a, OpenCount(0))
  {
    var h := Held(initval, k - 1);
    a := h.(procs := [h.procs[0].(pc := OpenGot(1)), NEWCOMER]);
    OpenEffect(Members(a.val, a.procs[0].adj));
    assert Do(h, Open(0)).value.procs == a.procs;
    assert Do(a, OpenCount(0)).value.procs == Held(initval, k).procs;
  }

  /** Any number of handles up to BIGCOUNT can be out. */
  lemma {:induction false} HandlesOut(initval: nat, k: nat) returns (es: seq<Event>)
    requires 1 <= k <= BIGCOUNT
    ensures Run(Start(2), es) == Some(Held(initval, k)) && AllPermitted(Start(2), es)
  {
    hide Do, Permitted;
    if k == 1 {
      es := CreateAlone(initval);
    } else {
      es := HandlesOut(initval, k - 1);
      var h := Held(initval, k - 1);
      var a := OpenAgain(initval, k);
      RunCons(a, OpenCount(0), Held(initval, k), []);
      RunCons(h, Open(0), a, [OpenCount(0)]);
      RunAppend(Start(2), es, [Open(0)] + [OpenCount(0)]);
      es := es + ([Open(0)] + [OpenCount(0)]);
    }
  }

  lemma RunStep(s: Sys, e: Event, t: Sys, es: seq<Event>)
    requires Do(s, e) == Some(t)
    ensures Run(s, [e] + es) == Run(t, es)
  {
    assert ([e] + es)[1..] == es;
  }

  /** sem_create() by process 1, up to and including the initialisation. */
  function Recreate(initval: int): seq<Event> {
    [Create(1, initval)] + ([Lock(1)] + ([GetVal(1)] + ([SetVal0(1)] + [SetVal1(1)])))
  }

  function Reset(other: int): Sys {
    Two(Proc(Idle, ZERO3, BIGCOUNT), Proc(CreateReady(1), Vec(0, 0, -1), 0), other, BIGCOUNT, 1, true)
  }

  lemma RecreateSteps(initval: nat, other: nat) returns (a: Sys, b: Sys, c: Sys, d: Sys)
    ensures && Do(Held(initval, BIGCOUNT), Create(1, other)) == Some(a) && Do(a, Lock(1)) == Some(b)
            && Do(b, GetVal(1)) == Some(c) && Do(c, SetVal0(1)) == Some(d) && Do(d, SetVal1(1)) == Some(Reset(other))
  {
    var h, t := Held(initval, BIGCOUNT), Reset(other);
    var locked := Vec(0, 0, -1);
    a := h.(procs := [h.procs[0], Proc(CreateGot(1, other), ZERO3, 0)]);
    b := a.(procs := [h.procs[0], Proc(CreateLocked(1, other), locked, 0)], val := Vec(initval, 0, 1));
    c := b.(procs := [h.procs[0], Proc(CreateFresh(1, other), locked, 0)]);
    d := c.(procs := [h.procs[0], Proc(CreateSet(1, other), locked, 0)], val := Vec(other, 0, 1), init0 := other);
    LockEffect(Members(a.val, ZERO3));
    assert Do(h, Create(1, other)).value.procs == a.procs;
    assert Do(a, Lock(1)).value.procs == b.procs;
    assert Do(b, GetVal(1)).value.procs == c.procs;
    assert Do(c, SetVal0(1)).value.procs == d.procs;
    assert Do(d, SetVal1(1)).value.procs == t.procs;
  }

  lemma RecreateExhausted(initval: nat, other: nat)
    ensures Run(Held(initval, BIGCOUNT), Recreate(other)) == Some(Reset(other))
  {
    hide Do;
    var h, t := Held(initval, BIGCOUNT), Reset(other);
    var a, b, c, d := RecreateSteps(initval, other);
    RunStep(d, SetVal1(1), t, []);
    RunStep(c, SetVal0(1), d, [SetVal1(1)]);
    RunStep(b, GetVal(1), c, [SetVal0(1)] + [SetVal1(1)]);
    RunStep(a, Lock(1), b, [GetVal(1)] + ([SetVal0(1)] + [SetVal1(1)]));
    RunStep(h, Create(1, other), a, [Lock(1)] + ([GetVal(1)] + ([SetVal0(1)] + [SetVal1(1)])));
  }

  /** With BIGCOUNT handles out, the next sem_create initialises the set again:
      the value in use is overwritten and the books no longer balance. */
  lemma CounterExhausted(initval: nat, other: nat) returns (es: seq<Event>)
    ensures Run(Start(2), es + Recreate(other)) == Some(Reset(other))
    ensures Reset(other).everOpened && Reset(other).val.c0 == other
    ensures Reset(other).val.c1 + Total(Reset(other)) == 2 * BIGCOUNT
  {
    es := HandlesOut(initval, BIGCOUNT);
    RecreateExhausted(initval, other);
    RunAppend(Start(2), es, Recreate(other));
    var opens := [BIGCOUNT, 0];
    assert Opens(Reset(other)) == opens;
    assert opens[..1] == [BIGCOUNT] && [BIGCOUNT][..0] == [];
    assert Sum([BIGCOUNT]) == BIGCOUNT;
  }

  /** What any step leaves of the invariant, and what a refused one says. */
  lemma StepKeeps(s: Sys, e: Event)
    requires e.p < |s.procs|
    ensures Inv(s) && Permitted(s, e) && Do(s, e).Some? ==> Inv(Do(s, e).value) && !Do(s, e).value.procs[e.p].pc.Dumped?
    ensures Inv(s) && Do(s, e).None? ==>
              && (e.Lock? && s.procs[e.p].pc.CreateGot? ==> exists q :: q != e.p && InCrit(s, q))
              && (e.OpenCount? && s.procs[e.p].pc.OpenGot? ==> s.live && (!s.inited || Total(s) == BIGCOUNT))
              && (e.Close? && s.procs[e.p].pc.Idle? ==> exists q :: q != e.p && InCrit(s, q))
              && (e.Op? && s.procs[e.p].pc.Idle? ==> s.live && s.val.c0 + e.amount < 0)
  {
    hide Do;
    if Inv(s) && Do(s, e).None? { WaitsOnlyFor(s, e); }
    if Inv(s) && Permitted(s, e) && Do(s, e).Some? {
      StepInv(s, e);
      StepSameProcs(s, e);
      assert ProcOk(Do(s, e).value, Do(s, e).value.procs[e.p]);
    }
  }

  lemma CloseFacts(s: Sys, p: nat)
    requires Inv(s) && p < |s.procs|
    ensures match s.procs[p].pc
            case CloseLocked(_) =>
              var r := Do(s, CloseGetVal(p));
              r.Some? && |r.value.procs| == |s.procs|
              && (r.value.procs[p].pc.CloseLast? <==> Total(s) == 0) && (r.value.procs[p].pc.CloseMore? <==> Total(s) > 0)
            case CloseLast(_) =>
              var r := Do(s, Remove(p));
              r.Some? && |r.value.procs| == |s.procs| && !r.value.live && r.value.procs[p].pc.Idle?
            case CloseMore(_) =>
              var r := Do(s, Unlock(p));
              r.Some? && |r.value.procs| == |s.procs| && r.value.live && r.value.val == s.val.(c2 := 0) && r.value.procs[p].pc.Idle?
            case _ => true
  {
    if s.procs[p].pc.CloseLocked? { LastCloseIff(s, p); }
    if Crit(s.procs[p].pc) { BusyLock(s, p); }
    UnlockEffect(Members(s.val, s.procs[p].adj));
    hide Semop, Total;
  }

  // ------------------------------------------------------------- in place

  /** The shared set and its processes as the system calls update them.  Each
      method is the next system call of process p inside the named function. */
  class SharedSet {
    var procs: seq<Proc>
    var gen: nat
    var live: bool
    var val: Vec
    ghost var inited: bool
    ghost var everOpened: bool
    ghost var init0: int
    ghost var lost: int

    ghost function State(): Sys
      reads this
    {
      Sys(procs, gen, live, val, inited, everOpened, init0, lost)
    }

    constructor (n: nat)
      ensures State() == Start(n)
    {
      procs := seq(n, _ => Proc(Idle, ZERO3, 0));
      gen, live, val := 0, false, ZERO3;
      inited, everOpened, init0, lost := false, false, 0, 0;
    }

    /** The kernel works through the array and commits only if nothing blocks. */
    method CallSemop(p: nat, ops: seq<SemBuf>, pc: Pc, delta: int) returns (ok: bool)
      requires p < |procs| && forall o <- ops :: o.num < 3
      modifies this
      ensures ok == SemopStep(old(State()), p, ops, pc, delta).Some?
      ensures State() == if ok then SemopStep(old(State()), p, ops, pc, delta).value else old(State())
      ensures ok ==> |procs| == |old(procs)| && procs[p].pc == pc && procs[p].opens == old(procs[p].opens) + delta
    {
      var v, a := val, procs[p].adj;
      var i := 0;
      while i < |ops|
        invariant 0 <= i <= |ops|
        invariant Semop(Members(val, procs[p].adj), ops) == Semop(Members(v, a), ops[i..])
      {
        var o := ops[i];
        assert ops[i..][0] == o && ops[i..][1..] == ops[i + 1..];
        if o.op == 0 {
          if v.At(o.num) != 0 { return false; }
        } else {
          if v.At(o.num) + o.op < 0 { return false; }
          v := v.With(o.num, v.At(o.num) + o.op);
          if o.undo { a := a.With(o.num, a.At(o.num) - o.op); }
        }
        i := i + 1;
      }
      assert ops[i..] == [];
      val := v;
      procs := procs[p := Proc(pc, a, procs[p].opens + delta)];
      everOpened := everOpened || delta > 0;
      ok := true;
    }

    method Move(p: nat, pc: Pc)
      requires p < |procs|
      modifies this`procs
      ensures State() == Goto(old(State()), p, pc)
    {
      procs := procs[p := procs[p].(pc := pc)];
    }

    method SemgetCreate(p: nat, initval: int)
      requires p < |procs|
      modifies this
      ensures State() == Goto(if old(live) then old(State()) else FreshSet(old(State())), p,
                              CreateGot(if old(live) then old(gen) else old(gen) + 1, initval))
    {
      if !live {
        gen, live, val := gen + 1, true, ZERO3;
        inited, everOpened, init0, lost := false, false, 0, 0;
      }
      Move(p, CreateGot(gen, initval));
    }

    /** exit(), or a fatal err_sys(): the kernel applies the undo values. */
    method ExitProcess(p: nat)
      requires p < |procs|
      modifies this
      ensures State() == ExitOf(old(State()), p)
    {
      var a := procs[p].adj;
      procs := procs[p := Proc(Dead, ZERO3, 0)];
      if live {
        lost := lost + Max0(val.c0 + a.c0) - (val.c0 + a.c0);
        val := Vec(Max0(val.c0 + a.c0), Max0(val.c1 + a.c1), Max0(val.c2 + a.c2));
      }
    }

    method SetMember(k: nat, v: int)
      requires k < 3
      modifies this`val, this`procs
      ensures State() == SetVal(old(State()), k, v)
    {
      val := val.With(k, v);
      procs := seq(|procs|, q requires 0 <= q < |procs| reads this => procs[q].(adj := procs[q].adj.With(k, 0)));
    }

    /** semctl(IPC_RMID) */
    method SemRm()
      modifies this`live, this`procs
      ensures State() == RemoveSet(old(State()))
    {
      live := false;
      procs := seq(|procs|, q requires 0 <= q < |procs| reads this => procs[q].(adj := ZERO3, opens := 0));
    }

    /** From s, event e happened, or it has to wait and nothing changed. */
    ghost predicate Did(s: Sys, e: Event, ok: bool)
      reads this
    {
      && ok == Do(s, e).Some? && State() == (if ok then Do(s, e).value else s)
      && (Inv(s) && Permitted(s, e) ==> Inv(State()))
    }

    /** The next call of a sem_create() that process p is in, or its first. */
    ghost function CreateCall(s: Sys, p: nat, initval: int): Event
      requires p < |s.procs|
    {
      match s.procs[p].pc
      case CreateGot(_, _) => Lock(p)
      case CreateLocked(_, _) => GetVal(p)
      case CreateFresh(_, _) => SetVal0(p)
      case CreateSet(_, _) => SetVal1(p)
      case CreateReady(_) => EndCreate(p)
      case _ => Create(p, initval)
    }

    ghost function CloseCall(s: Sys, p: nat): Event
      requires p < |s.procs|
    {
      match s.procs[p].pc
      case CloseLocked(_) => CloseGetVal(p)
      case CloseLast(_) => Remove(p)
      case CloseMore(_) => Unlock(p)
      case _ => Close(p)
    }

    /** Keeps the invariant; a finished creation is one handle more; it waits only
        for another process inside the lock, or for a free handle at its end. */
    method SemCreate(p: nat, initval: int) returns (ok: bool)
      requires p < |procs|
      modifies this
      ensures Did(old(State()), CreateCall(old(State()), p, initval), ok)
      ensures ok && procs[p].pc.Idle? ==> procs[p].opens == old(procs[p].opens) + 1
      ensures old(Inv(State())) && !ok && old(procs[p].pc).CreateGot? ==> exists q :: q != p && InCrit(State(), q)
      ensures old(Inv(State())) && !ok && old(procs[p].pc).CreateReady? ==> Total(State()) == BIGCOUNT
      ensures old(Inv(State())) && old(procs[p].pc.CreateLocked? || procs[p].pc.CreateFresh? || procs[p].pc.CreateSet?) ==> ok
    {
      ghost var s := State();
      ghost var e := CreateCall(s, p, initval);
      StepKeeps(s, e);
      if Inv(s) { InsideNeverWaits(s, p); }
      hide Inv, Permitted, Total, InCrit, SemopStep, SetVal, RemoveSet, FreshSet;
      ok := true;
      match procs[p].pc
      case Idle => SemgetCreate(p, initval);
      case CreateGot(id, iv) =>
        if !live || id != gen { SemgetCreate(p, iv); }  // goto again
        else { ok := CallSemop(p, OP_LOCK, CreateLocked(id, iv), 0); }
      case CreateLocked(id, iv) =>
        if !live || id != gen { ExitProcess(p); }
        else if val.c1 == 0 { Move(p, CreateFresh(id, iv)); }
        else { Move(p, CreateReady(id)); }
      case CreateFresh(id, iv) =>
        if !live || id != gen || iv < 0 { ExitProcess(p); }
        else {
          SetMember(0, iv);
          init0, lost := iv, 0;
          Move(p, CreateSet(id, iv));
        }
      case CreateSet(id, iv) =>
        if !live || id != gen { ExitProcess(p); }
        else {
          SetMember(1, BIGCOUNT);
          inited := true;
          Move(p, CreateReady(id));
        }
      case CreateReady(id) =>
        if !live || id != gen { ExitProcess(p); }
        else { ok := CallSemop(p, OP_ENDCREATE, Idle, 1); }
      case _ => ok := false;
    }

    /** Keeps the invariant; a finished open is one handle more; it waits only for a
        free handle or for the set to be initialised. */
    method SemOpen(p: nat) returns (ok: bool)
      requires p < |procs|
      modifies this
      ensures Did(old(State()), if old(procs[p].pc).OpenGot? then OpenCount(p) else Open(p), ok)
      ensures ok && procs[p].pc.Idle? ==> procs[p].opens == old(procs[p].opens) + 1
      ensures old(Inv(State())) && !ok && old(procs[p].pc).OpenGot? ==> live && (!inited || Total(State()) == BIGCOUNT)
    {
      ghost var s := State();
      StepKeeps(s, if procs[p].pc.OpenGot? then OpenCount(p) else Open(p));
      hide Inv, Permitted, Total, InCrit, SemopStep, SetVal, RemoveSet, FreshSet;
      ok := true;
      match procs[p].pc
      case Idle =>
        if live { Move(p, OpenGot(gen)); } else { ok := false; }
      case OpenGot(id) =>
        if !live || id != gen { ExitProcess(p); }
        else { ok := CallSemop(p, OP_OPEN, Idle, 1); }
      case _ => ok := false;
    }

    /** Keeps the invariant; the first call gives the handle up; only that call ever
        waits, for another process inside the lock; a caller that has the set open
        never sees the counter too large. */
    method SemClose(p: nat) returns (ok: bool)
      requires p < |procs|
      modifies this
      ensures Did(old(State()), CloseCall(old(State()), p), ok)
      ensures ok && procs[p].pc.CloseLocked? ==> procs[p].opens == old(procs[p].opens) - 1
      ensures old(Inv(State())) && !ok && old(procs[p].pc).Idle? ==> exists q :: q != p && InCrit(State(), q)
      ensures old(Inv(State())) && Permitted(old(State()), old(CloseCall(State(), p))) && ok ==> !procs[p].pc.Dumped?
      ensures old(Inv(State())) && old(procs[p].pc.CloseLocked? || procs[p].pc.CloseLast? || procs[p].pc.CloseMore?) ==> ok
      ensures old(Inv(State()) && procs[p].pc.CloseLocked?) ==>
                && (procs[p].pc.CloseLast? <==> old(Total(State())) == 0)
                && (procs[p].pc.CloseMore? <==> old(Total(State())) > 0)
      ensures old(Inv(State()) && procs[p].pc.CloseLast?) ==> !live && procs[p].pc.Idle?
      ensures old(Inv(State()) && procs[p].pc.CloseMore?) ==> live && val == old(val).(c2 := 0) && procs[p].pc.Idle?
    {
      ghost var s := State();
      StepKeeps(s, CloseCall(s, p));
      if Inv(s) {
        InsideNeverWaits(s, p);
        CloseFacts(s, p);
      }
      hide Inv, Permitted, Total, InCrit, SemopStep, SetVal, RemoveSet, FreshSet;
      ok := true;
      match procs[p].pc
      case Idle =>
        if !live { ExitProcess(p); } else { ok := CallSemop(p, OP_CLOSE, CloseLocked(gen), -1); }
      case CloseLocked(id) =>
        if !live || id != gen { ExitProcess(p); }
        else if val.c1 > BIGCOUNT { Move(p, Dumped); }
        else if val.c1 == BIGCOUNT { Move(p, CloseLast(id)); }
        else { Move(p, CloseMore(id)); }
      case CloseLast(id) =>
        if !live || id != gen { ExitProcess(p); }
        else {
          SemRm();
          Move(p, Idle);
        }
      case CloseMore(id) =>
        if !live || id != gen { ExitProcess(p); }
        else { ok := CallSemop(p, OP_UNLOCK, Idle, 0); }
      case _ => ok := false;
    }

    /** Keeps the invariant; adds the amount to the value, or waits while that would
        be negative. */
    method SemOp(p: nat, amount: int) returns (ok: bool)
      requires p < |procs|
      modifies this
      ensures Did(old(State()), Op(p, amount), ok)
      ensures ok && !procs[p].pc.Dead? ==> val.c0 == old(val.c0) + amount >= 0
      ensures old(Inv(State())) && !ok && old(procs[p].pc).Idle? ==> val.c0 + amount < 0
    {
      ghost var s := State();
      StepKeeps(s, Op(p, amount));
      if amount != 0 { OpEffect(Members(val, procs[p].adj), amount); }
      hide Inv, Permitted, Total, InCrit, Semop;
      ok := true;
      if !procs[p].pc.Idle? { ok := false; }
      else if amount == 0 || !live { ExitProcess(p); }
      else { ok := CallSemop(p, OpOp(amount), Idle, 0); }
    }

    /** One event, through the call that makes it. */
    method Next(e: Event) returns (ok: bool)
      modifies this
      ensures ok == Do(old(State()), e).Some? && State() == if ok then Do(old(State()), e).value else old(State())
    {
      hide Inv, Permitted, Total, InCrit, Semop;
      ok := false;
      if e.p >= |procs| { return; }
      var pc := procs[e.p].pc;
      match e
      case Create(p, initval) => if pc.Idle? { ok := SemCreate(p, initval); }
      case Lock(p) => if pc.CreateGot? { ok := SemCreate(p, 0); }
      case GetVal(p) => if pc.CreateLocked? { ok := SemCreate(p, 0); }
      case SetVal0(p) => if pc.CreateFresh? { ok := SemCreate(p, 0); }
      case SetVal1(p) => if pc.CreateSet? { ok := SemCreate(p, 0); }
      case EndCreate(p) => if pc.CreateReady? { ok := SemCreate(p, 0); }
      case Open(p) => if pc.Idle? { ok := SemOpen(p); }
      case OpenCount(p) => if pc.OpenGot? { ok := SemOpen(p); }
      case Close(p) => if pc.Idle? { ok := SemClose(p); }
      case CloseGetVal(p) => if pc.CloseLocked? { ok := SemClose(p); }
      case Remove(p) => if pc.CloseLast? { ok := SemClose(p); }
      case Unlock(p) => if pc.CloseMore? { ok := SemClose(p); }
      case Op(p, amount) => if pc.Idle? { ok := SemOp(p, amount); }
      case Exit(p) => if !pc.Dead? { ExitProcess(p); ok := true; }
    }

    /** Any interleaving of the calls, in place, is the run of the protocol; from the
        start, with permitted calls, the books balance at its end. */
    method Play(es: seq<Event>) returns (done: bool)
      modifies this
      ensures done <==> Run(old(State()), es).Some?
      ensures done ==> Run(old(State()), es) == Some(State())
      ensures done && old(Inv(State())) && AllPermitted(old(State()), es) ==>
                Inv(State()) && (live && inited ==> val.c1 + Total(State()) == BIGCOUNT)
    {
      hide Do, Permitted, Total, InCrit;
      ghost var s := State();
      var i := 0;
      assert es[0..] == es;
      while i < |es|
        invariant 0 <= i <= |es| && Run(State(), es[i..]) == Run(s, es)
      {
        assert es[i..][0] == es[i] && es[i..][1..] == es[i + 1..];
        var ok := Next(es[i]);
        if !ok { return false; }
        i := i + 1;
      }
      assert es[i..] == [];
      if Inv(s) && AllPermitted(s, es) { RunInv(s, es); }
      done := true;
    }
  }
}
