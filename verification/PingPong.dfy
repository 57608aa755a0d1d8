/** Two processes taking turns on one shared counter (unix_source/advio/devzero.c),
each told by the other over a pipe (unix_source/ipc/tellwait.c). */
module PingPong {
  import opened Common

  /** A process between two statements.  The increment is a read and a write, so
      that two of them could overlap. */
  datatype Pc =
    | Test                   // the for condition
    | Load                   // update(): read the counter
    | Store(read: int)       // update(): write it back plus one
    | Check(read: int)       // counter != i ?
    | Tell
    | Wait
    | Quit                   // err_quit: wrong counter or wrong byte
    | Finished

  /** pfd1 carries bytes to the child, pfd2 to the parent. */
  datatype Sys = Sys(limit: int, counter: int, pfd1: seq<char>, pfd2: seq<char>,
                     parent: Pc, i: int, child: Pc, j: int)

  function Init(limit: int): Sys { Sys(limit, 0, [], [], Test, 0, Test, 1) }

  /** The parent: update, TELL_CHILD, WAIT_CHILD. */
  function DoParent(s: Sys): Option<Sys> {
    match s.parent
    case Test => Some(s.(parent := if s.i < s.limit then Load else Finished))
    case Load => Some(s.(parent := Store(s.counter)))
    case Store(n) => Some(s.(counter := n + 1, parent := Check(n)))
    case Check(n) => Some(s.(parent := if n != s.i then Quit else Tell))
    case Tell => Some(s.(pfd1 := s.pfd1 + ['p'], parent := Wait))
    case Wait =>
      if s.pfd2 == [] then None
      else if s.pfd2[0] != 'c' then Some(s.(parent := Quit))
      else Some(s.(pfd2 := s.pfd2[1..], parent := Test, i := s.i + 2))
    case Quit => None
    case Finished => None
  }

  /** The child: WAIT_PARENT, update, TELL_PARENT. */
  function DoChild(s: Sys): Option<Sys> {
    match s.child
    case Test => Some(s.(child := if s.j < s.limit + 1 then Wait else Finished))
    case Wait =>
      if s.pfd1 == [] then None
      else if s.pfd1[0] != 'p' then Some(s.(child := Quit))
      else Some(s.(pfd1 := s.pfd1[1..], child := Load))
    case Load => Some(s.(child := Store(s.counter)))
    case Store(n) => Some(s.(counter := n + 1, child := Check(n)))
    case Check(n) => Some(s.(child := if n != s.j then Quit else Tell))
    case Tell => Some(s.(pfd2 := s.pfd2 + ['c'], child := Test, j := s.j + 2))
    case Quit => None
    case Finished => None
  }

  function Do(s: Sys, byParent: bool): Option<Sys> { if byParent then DoParent(s) else DoChild(s) }

  // ---------------------------------------------------------------- the invariant

  predicate Updating(pc: Pc) { pc.Load? || pc.Store? || pc.Check? || pc.Tell? }

  /** Whose turn it is, and how far that turn has got. */
  predicate ParentTurn(s: Sys) {
    && s.j == s.i + 1 && s.pfd1 == [] && s.pfd2 == []
    && (s.child.Test? || s.child.Wait? || s.child.Finished?)
    && match s.parent
       case Test => s.counter == s.i
       case Load => s.counter == s.i && s.i < s.limit
       case Store(n) => s.counter == n == s.i && s.i < s.limit
       case Check(n) => s.counter == s.i + 1 && n == s.i && s.i < s.limit
       case Tell => s.counter == s.i + 1 && s.i < s.limit
       case Finished => s.counter == s.i && s.i >= s.limit
       case _ => false
  }

  predicate ChildTurn(s: Sys) {
    && s.j == s.i + 1 && s.parent.Wait? && s.pfd2 == [] && s.i < s.limit
    && match s.child
       case Test => s.pfd1 == ['p'] && s.counter == s.j
       case Wait => s.pfd1 == ['p'] && s.counter == s.j
       case Load => s.pfd1 == [] && s.counter == s.j
       case Store(n) => s.pfd1 == [] && s.counter == n == s.j
       case Check(n) => s.pfd1 == [] && s.counter == s.j + 1 && n == s.j
       case Tell => s.pfd1 == [] && s.counter == s.j + 1
       case _ => false
  }

  /** The child has answered; the parent has not read the answer. */
  predicate Answered(s: Sys) {
    && s.j == s.i + 3 && s.parent.Wait? && s.pfd1 == [] && s.pfd2 == ['c'] && s.counter == s.i + 2 && s.i < s.limit
    && (s.child.Test? || s.child.Wait? || s.child.Finished?)
  }

  predicate Inv(s: Sys) {
    && s.i >= 0 && s.i % 2 == 0
    && (ParentTurn(s) || ChildTurn(s) || Answered(s))
    && (s.child.Wait? ==> s.j <= s.limit)
    && (s.child.Finished? ==> s.j > s.limit)
    && (s.i == 0 || s.i - 2 < s.limit)
  }

  lemma StepInv(s: Sys, byParent: bool)
    requires Inv(s) && Do(s, byParent).Some?
    ensures Inv(Do(s, byParent).value) && Do(s, byParent).value.limit == s.limit
  {
  }

  /** Neither process is ever stuck before both have finished. */
  lemma Progress(s: Sys)
    requires Inv(s) && !(s.parent.Finished? && s.child.Finished?)
    ensures DoParent(s).Some? || DoChild(s).Some?
  {
  }

  // ---------------------------------------------------------------- every run

  function Run(s: Sys, schedule: seq<bool>): Option<Sys>
    decreases |schedule|
  {
    if schedule == [] then Some(s)
    else match Do(s, schedule[0])
         case None => None
         case Some(t) => Run(t, schedule[1..])
  }

  lemma {:induction false} RunInv(s: Sys, schedule: seq<bool>)
    requires Inv(s) && Run(s, schedule).Some?
    ensures Inv(Run(s, schedule).value) && Run(s, schedule).value.limit == s.limit
    decreases |schedule|
  {
    if schedule != [] {
      StepInv(s, schedule[0]);
      RunInv(Do(s, schedule[0]).value, schedule[1..]);
    }
  }

  /** In every interleaving: each process reads the counter it expects, the updates
      never overlap, and no wrong byte arrives. */
  lemma StrictAlternation(limit: int, schedule: seq<bool>, s: Sys)
    requires Run(Init(limit), schedule) == Some(s)
    ensures s.parent.Check? ==> s.parent.read == s.i
    ensures s.child.Check? ==> s.child.read == s.j
    ensures !s.parent.Quit? && !s.child.Quit?
    ensures !(Updating(s.parent) && Updating(s.child))
    ensures |s.pfd1| + |s.pfd2| <= 1
  {
    RunInv(Init(limit), schedule);
  }

  /** Statements left: each step of either process takes one away. */
  function Left(s: Sys): int {
    Turns(s.limit, s.i) * 6 + ParentRank(s.parent) + Turns(s.limit + 1, s.j) * 6 + ChildRank(s.child)
  }

  function Turns(limit: int, i: int): nat { if i < limit then (limit - i + 1) / 2 else 0 }

  function ParentRank(pc: Pc): int {
    match pc
    case Test => 1 case Load => 0 case Store(_) => -1 case Check(_) => -2 case Tell => -3 case Wait => -4 case _ => 0
  }

  function ChildRank(pc: Pc): int {
    match pc
    case Test => 1 case Wait => 0 case Load => -1 case Store(_) => -2 case Check(_) => -3 case Tell => -4 case _ => 0
  }

  lemma StepCounts(s: Sys, byParent: bool)
    requires Inv(s) && Do(s, byParent).Some?
    ensures Left(Do(s, byParent).value) == Left(s) - 1
  {
  }

  lemma LeftNonneg(s: Sys)
    requires Inv(s)
    ensures Left(s) >= 0
    ensures Left(s) == 0 <==> s.parent.Finished? && s.child.Finished?
  {
  }

  /** Every schedule that goes on as long as it can has the same length and ends
      with both loops finished and the counter at twice the number of turns. */
  lemma {:induction false} BothFinish(s: Sys, schedule: seq<bool>, t: Sys)
    requires Inv(s) && Run(s, schedule) == Some(t)
    ensures |schedule| <= Left(s)
    ensures DoParent(t).None? && DoChild(t).None? <==> |schedule| == Left(s)
    ensures |schedule| == Left(s) ==> t.parent.Finished? && t.child.Finished? && t.counter == t.i && t.i >= s.limit
    decreases |schedule|
  {
    if schedule == [] {
      LeftNonneg(s);
      if Left(s) > 0 { Progress(s); }
    } else {
      StepInv(s, schedule[0]);
      StepCounts(s, schedule[0]);
      BothFinish(Do(s, schedule[0]).value, schedule[1..], t);
    }
  }

  /** The whole program: both processes end after the same number of statements in
      every schedule, with the counter rounded up to an even number. */
  lemma EndsRoundedUp(limit: int, schedule: seq<bool>, t: Sys)
    requires Run(Init(limit), schedule) == Some(t) && DoParent(t).None? && DoChild(t).None?
    ensures t.parent.Finished? && t.child.Finished?
    ensures t.counter == if limit <= 0 then 0 else if limit % 2 == 0 then limit else limit + 1
    ensures |schedule| == 2 * (6 * ((if limit <= 0 then 0 else limit + 1) / 2) + 1)
  {
    BothFinish(Init(limit), schedule, t);
    RunInv(Init(limit), schedule);
  }

  lemma InitInv(limit: int)
    ensures Inv(Init(limit))
  {}

  lemma StepInvAndCount(s: Sys, byParent: bool)
    requires Inv(s)
    ensures Do(s, byParent).Some? ==> Inv(Do(s, byParent).value) && Left(Do(s, byParent).value) < Left(s)
  {
    if Do(s, byParent).Some? {
      StepInv(s, byParent);
      StepCounts(s, byParent);
    }
  }

  function Bound(s: Sys): nat { if Left(s) >= 0 then Left(s) else 0 }

  lemma LeftBound(s: Sys)
    requires Inv(s)
    ensures Bound(s) == Left(s)
  {
    LeftNonneg(s);
  }

  lemma FinalCounter(s: Sys)
    requires Inv(s) && s.parent.Finished? && s.child.Finished?
    ensures s.counter == if s.limit <= 0 then 0 else if s.limit % 2 == 0 then s.limit else s.limit + 1
  {}

  // ---------------------------------------------------------------- in place

  /** The mapped counter and the two pipes as the processes update them; each
      method is the next statement of one process. */
  class Shared {
    const limit: int
    var counter: int
    var pfd1: seq<char>
    var pfd2: seq<char>
    var parent: Pc
    var i: int
    var child: Pc
    var j: int

    function State(): Sys
      reads this
    {
      Sys(limit, counter, pfd1, pfd2, parent, i, child, j)
    }

    constructor (limit: int)
      ensures State() == Init(limit)
    {
      this.limit := limit;
      counter, pfd1, pfd2 := 0, [], [];
      parent, i, child, j := Test, 0, Test, 1;
    }

    /** Refused only while it waits for the child or has finished; the value it
        reads is the one it expects, and no wrong byte arrives. */
    method ParentStep() returns (ok: bool)
      requires Inv(State())
      modifies this
      ensures Inv(State()) && (ok ==> Left(State()) < old(Left(State())))
      ensures ok == DoParent(old(State())).Some?
      ensures State() == if ok then DoParent(old(State())).value else old(State())
      ensures !ok ==> parent.Finished? || (parent.Wait? && pfd2 == [])
      ensures !parent.Quit? && (parent.Check? ==> parent.read == i && counter == i + 1)
    {
      StepInvAndCount(State(), true);
      ok := true;
      match parent
      case Test => parent := if i < limit then Load else Finished;
      case Load => parent := Store(counter);
      case Store(n) => counter, parent := n + 1, Check(n);
      case Check(n) => parent := if n != i then Quit else Tell;
      case Tell => pfd1, parent := pfd1 + ['p'], Wait;
      case Wait =>
        if pfd2 == [] { ok := false; }
        else if pfd2[0] != 'c' { assert false; }  // incorrect data
        else { pfd2, parent, i := pfd2[1..], Test, i + 2; }
      case _ => ok := false;
    }

    method ChildStep() returns (ok: bool)
      requires Inv(State())
      modifies this
      ensures Inv(State()) && (ok ==> Left(State()) < old(Left(State())))
      ensures ok == DoChild(old(State())).Some?
      ensures State() == if ok then DoChild(old(State())).value else old(State())
      ensures !ok ==> child.Finished? || (child.Wait? && pfd1 == [])
      ensures !child.Quit? && (child.Check? ==> child.read == j && counter == j + 1)
    {
      StepInvAndCount(State(), false);
      ok := true;
      match child
      case Test => child := if j < limit + 1 then Wait else Finished;
      case Wait =>
        if pfd1 == [] { ok := false; }
        else if pfd1[0] != 'p' { assert false; }  // incorrect data
        else { pfd1, child := pfd1[1..], Load; }
      case Load => child := Store(counter);
      case Store(n) => counter, child := n + 1, Check(n);
      case Check(n) => child := if n != j then Quit else Tell;
      case Tell => pfd2, child, j := pfd2 + ['c'], Test, j + 2;
      case _ => ok := false;
    }

    /** The two processes under any scheduler: they never stop before both have
        finished, and they do finish, with the counter rounded up. */
    method RunBoth()
      requires State() == Init(limit)
      modifies this
      ensures parent.Finished? && child.Finished?
      ensures counter == if limit <= 0 then 0 else if limit % 2 == 0 then limit else limit + 1
    {
      hide Inv, DoParent, DoChild, Left;
      assert Inv(Init(limit)) by { InitInv(limit); }
      while !(parent.Finished? && child.Finished?)
        invariant Inv(State())
        decreases Bound(State())
      {
        Progress(State());
        LeftBound(State());
        var first: bool := *;
        var ok;
        if first { ok := ParentStep(); } else { ok := ChildStep(); }
        if !ok {
          if first { ok := ChildStep(); } else { ok := ParentStep(); }
        }
        LeftBound(State());
      }
      FinalCounter(State());
    }
  }
}
