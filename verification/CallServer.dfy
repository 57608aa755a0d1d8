/** The call server (unix_source/calld): one event loop, a table of clients, a
table of locked devices, and a signal handler that records the exits of the
children that dial. */
module CallServer {
  import opened Common
  import opened CallTables

  // ---------------------------------------------------------------- what holds between the tables

  predicate Owner(t: seq<Client>, i: nat, pid: int) { i < |t| && t[i].fd >= 0 && t[i].pid == pid }

  /** A dialling child's client waits for it, and a recorded exit belongs to a
      connected client whose device is still locked. */
  predicate SlotOk(x: Client, l: seq<LockEntry>, running: set<int>, lastPid: int) {
    && x.fd >= -1 && 0 <= x.pid <= lastPid && x.childdone >= 0
    && (x.pid in running ==> x.childdone == 0)
    && (x.pid in running || x.childdone != 0 ==> x.sysftell > 0)
    && (x.childdone != 0 ==> x.fd >= 0 && x.pid != 0 && Holds(l, x.pid))
  }

  ghost predicate Cross(t: seq<Client>, l: seq<LockEntry>, running: set<int>, lastPid: int) {
    && lastPid >= 0 && LocksOk(l)
    && (forall i :: 0 <= i < |t| ==> SlotOk(t[i], l, running, lastPid))
    && (forall i, j :: 0 <= i < j < |t| && t[i].pid != 0 ==> t[i].pid != t[j].pid)
    && (forall k :: 0 <= k < |l| && l[k].pid != 0 ==> exists i :: Owner(t, i, l[k].pid))
    && (forall r <- running :: r != 0 && Holds(l, r))
  }

  predicate HasFd(t: seq<Client>, f: int) { exists i :: 0 <= i < |t| && t[i].fd == f }

  /** select()'s descriptor set and its bounds. */
  ghost predicate Books(t: seq<Client>, listenfd: int, allset: set<int>, maxfd: int, maxi: int) {
    && 0 <= listenfd <= maxfd && -1 <= maxi < |t|
    && (forall i, j :: 0 <= i < j < |t| && t[i].fd >= 0 ==> t[i].fd != t[j].fd)
    && (forall i :: 0 <= i < |t| && t[i].fd >= 0 ==> i <= maxi && t[i].fd <= maxfd && t[i].fd != listenfd)
    && (forall i :: 0 <= i < |t| && t[i].fd >= 0 ==> t[i].fd in allset)
    && (forall f <- allset :: f == listenfd || (f >= 0 && HasFd(t, f)))
    && listenfd in allset
  }

  ghost predicate Histories(lines: seq<Line>, t: seq<Client>, h: seq<seq<nat>>) {
    |h| == |t| && forall i :: 0 <= i < |t| ==> HistoryOk(lines, t[i], h[i])
  }

  /** The client's process holds no device. */
  predicate Unlocked(x: Client, l: seq<LockEntry>) { x.pid == 0 || !Holds(l, x.pid) }

  /** At most one connected client holds a line, and a client at most one line. */
  lemma DeviceExclusive(t: seq<Client>, l: seq<LockEntry>, running: set<int>, lastPid: int, line: string)
    requires Cross(t, l, running, lastPid) && Holder(l, line) != 0
    ensures exists i :: Owner(t, i, Holder(l, line))
    ensures forall i, j :: Owner(t, i, Holder(l, line)) && Owner(t, j, Holder(l, line)) ==> i == j
    ensures forall line' :: Holder(l, line') == Holder(l, line) ==> line' == line
  {
    assert l[LineIndex(l, line)].pid == Holder(l, line);
    forall line' | Holder(l, line') == Holder(l, line) ensures line' == line {
      assert l[LineIndex(l, line')].pid == l[LineIndex(l, line)].pid;
    }
  }

  // ---------------------------------------------------------------- single changes

  /** Only fields other than fd and pid of one slot change. */
  lemma UpdateSlot(t: seq<Client>, l: seq<LockEntry>, running: set<int>, lastPid: int, i: nat, x: Client)
    requires Cross(t, l, running, lastPid) && i < |t| && x.fd == t[i].fd && x.pid == t[i].pid
    requires SlotOk(x, l, running, lastPid)
    ensures Cross(t[i := x], l, running, lastPid)
  {
    var u := t[i := x];
    forall k | 0 <= k < |l| && l[k].pid != 0 ensures exists j :: Owner(u, j, l[k].pid) {
      var j :| Owner(t, j, l[k].pid);
      assert Owner(u, j, l[k].pid);
    }
  }

  /** A child is gone. */
  lemma ReapCross(t: seq<Client>, l: seq<LockEntry>, running: set<int>, lastPid: int, pid: int)
    requires Cross(t, l, running, lastPid)
    ensures Cross(t, l, running - {pid}, lastPid)
  {
  }

  /** The client that waits for a child. */
  lemma ChildOwner(t: seq<Client>, l: seq<LockEntry>, running: set<int>, lastPid: int, pid: int)
    requires Cross(t, l, running, lastPid) && pid in running
    ensures ChildIndex(t, pid) < |t| && Owner(t, ChildIndex(t, pid), pid) && Holds(l, pid) && pid != 0
  {
    var k :| 0 <= k < |l| && l[k].pid == pid;
    var i :| Owner(t, i, pid);
  }

  lemma HoldsReleased(l: seq<LockEntry>, pid: int, q: int)
    requires LocksOk(l) && pid != 0 && q != pid && q != 0 && Holds(l, q)
    ensures Holds(Released(l, pid), q)
  {
    var k :| 0 <= k < |l| && l[k].pid == q;
    assert Released(l, pid)[k].pid == q;
  }

  /** lock_rel for a client whose child is gone and whose exit was dealt with. */
  lemma ReleaseCross(t: seq<Client>, l: seq<LockEntry>, running: set<int>, lastPid: int, i: nat)
    requires Cross(t, l, running, lastPid) && i < |t| && t[i].pid !in running && t[i].childdone == 0
    ensures Cross(t, Released(l, t[i].pid), running, lastPid) && Unlocked(t[i], Released(l, t[i].pid))
  {
    var pid := t[i].pid;
    var m := Released(l, pid);
    if pid == 0 {
      assert m == l;
    } else {
      ReleasedHolder(l, pid);
      forall j | 0 <= j < |t| ensures SlotOk(t[j], m, running, lastPid) {
        if t[j].childdone != 0 { HoldsReleased(l, pid, t[j].pid); }
      }
      forall r <- running ensures Holds(m, r) { HoldsReleased(l, pid, r); }
      assert forall k :: 0 <= k < |m| && m[k].pid != 0 ==> m[k].pid == l[k].pid;
    }
  }

  /** Looking up a line. */
  lemma WithLineCross(t: seq<Client>, l: seq<LockEntry>, running: set<int>, lastPid: int, line: string)
    requires Cross(t, l, running, lastPid)
    ensures Cross(t, WithLine(l, line), running, lastPid)
    ensures forall x: Client :: Unlocked(x, l) ==> Unlocked(x, WithLine(l, line))
    ensures forall l' :: Holder(WithLine(l, line), l') == Holder(l, l')
  {
    WithLineHolder(l, line);
    var m := WithLine(l, line);
    forall j | 0 <= j < |t| ensures SlotOk(t[j], m, running, lastPid) { assert SlotOk(t[j], l, running, lastPid); }
  }

  lemma HoldsLocked(l: seq<LockEntry>, line: string, pid: int, q: int)
    requires LocksOk(l) && Holder(l, line) == 0 && pid > 0 && !Holds(l, pid) && q != 0
    ensures Holds(Locked(l, line, pid), q) <==> q == pid || Holds(l, q)
  {
    var m, u := Locked(l, line, pid), WithLine(l, line);
    var n := LineIndex(u, line);
    assert m[n].pid == pid;
    if Holds(l, q) {
      var k :| 0 <= k < |l| && l[k].pid == q;
      LineIndexUnique(l, k);
      assert m[k].pid == q;
    }
    if Holds(m, q) && q != pid {
      var k :| 0 <= k < |m| && m[k].pid == q;
      assert l[k].pid == q;
    }
  }

  lemma FreshPid(t: seq<Client>, l: seq<LockEntry>, running: set<int>, lastPid: int)
    requires Cross(t, l, running, lastPid)
    ensures LocksOk(l) && lastPid >= 0 && !Holds(l, lastPid + 1)
  {
    forall k | 0 <= k < |l| ensures l[k].pid != lastPid + 1 {
      if l[k].pid != 0 {
        var j: nat :| Owner(t, j, l[k].pid);
        assert SlotOk(t[j], l, running, lastPid);
      }
    }
  }

  /** A client whose process holds no device has no child running. */
  lemma IdleSlot(t: seq<Client>, l: seq<LockEntry>, running: set<int>, lastPid: int, i: nat)
    requires Cross(t, l, running, lastPid) && i < |t| && Unlocked(t[i], l)
    ensures t[i].pid !in running && t[i].childdone == 0
  {
    assert SlotOk(t[i], l, running, lastPid);
  }

  /** fork() for client i, which holds no device: a fresh pid, which waits. */
  lemma ForkCross(t: seq<Client>, l: seq<LockEntry>, running: set<int>, lastPid: int, i: nat, x: Client)
    requires Cross(t, l, running, lastPid) && i < |t| && Unlocked(t[i], l)
    requires x == t[i].(pid := lastPid + 1)
    ensures Cross(t[i := x], l, running, lastPid + 1) && Unlocked(x, l) && x.pid != 0 && x.pid !in running
  {
    var u := t[i := x];
    FreshPid(t, l, running, lastPid);
    assert SlotOk(t[i], l, running, lastPid);
    assert forall j :: 0 <= j < |t| ==> SlotOk(t[j], l, running, lastPid);
    forall j | 0 <= j < |u| ensures SlotOk(u[j], l, running, lastPid + 1) {}
    forall k | 0 <= k < |l| && l[k].pid != 0 ensures exists j :: Owner(u, j, l[k].pid) {
      var j :| Owner(t, j, l[k].pid);
      assert Holds(l, l[k].pid) && j != i;
      assert Owner(u, j, l[k].pid);
    }
  }

  /** lock_set for the waiting child of client i: a free line gets its one holder. */
  lemma DialCross(t: seq<Client>, l: seq<LockEntry>, running: set<int>, lastPid: int, i: nat, line: string)
    requires Cross(t, l, running, lastPid) && i < |t| && Unlocked(t[i], l) && Holder(l, line) == 0
    requires t[i].fd >= 0 && t[i].pid != 0
    ensures var m := Locked(l, line, t[i].pid);
            && Cross(t, m, running, lastPid) && Holds(m, t[i].pid)
            && forall l' :: Holder(m, l') == if l' == line then t[i].pid else Holder(l, l')
  {
    var pid := t[i].pid;
    var m := Locked(l, line, pid);
    assert SlotOk(t[i], l, running, lastPid);
    LockedHolder(l, line, pid);
    DialOwners(t, l, running, lastPid, i, line);
    HoldsLocked(l, line, pid, pid);
    hide Locked, LocksOk;
    forall j | 0 <= j < |t| ensures SlotOk(t[j], m, running, lastPid) {
      assert SlotOk(t[j], l, running, lastPid);
      if t[j].childdone != 0 { HoldsLocked(l, line, pid, t[j].pid); }
    }
    forall r <- running ensures r != 0 && Holds(m, r) { HoldsLocked(l, line, pid, r); }
  }

  lemma DialOwners(t: seq<Client>, l: seq<LockEntry>, running: set<int>, lastPid: int, i: nat, line: string)
    requires Cross(t, l, running, lastPid) && i < |t| && t[i].fd >= 0
    ensures var m := Locked(l, line, t[i].pid);
            forall k :: 0 <= k < |m| && m[k].pid != 0 ==> exists j :: Owner(t, j, m[k].pid)
  {
    var m := Locked(l, line, t[i].pid);
    forall k | 0 <= k < |m| && m[k].pid != 0 ensures exists j :: Owner(t, j, m[k].pid) {
      if m[k].pid == t[i].pid {
        assert Owner(t, i, t[i].pid);
      } else {
        assert l[k].pid == m[k].pid;
      }
    }
  }

  /** The child of client i may go on: its device is locked. */
  lemma TellCross(t: seq<Client>, l: seq<LockEntry>, running: set<int>, lastPid: int, i: nat)
    requires Cross(t, l, running, lastPid) && i < |t| && Holds(l, t[i].pid) && t[i].pid !in running
    requires t[i].pid != 0 && t[i].childdone == 0 && t[i].sysftell > 0
    ensures Cross(t, l, running + {t[i].pid}, lastPid) && |running + {t[i].pid}| == |running| + 1
  {
  }

  /** Giving up a slot whose process holds nothing. */
  lemma DropCross(t: seq<Client>, l: seq<LockEntry>, running: set<int>, lastPid: int, i: nat)
    requires Cross(t, l, running, lastPid) && i < |t| && Unlocked(t[i], l) && t[i].childdone == 0
    ensures Cross(t[i := t[i].(fd := -1)], l, running, lastPid)
  {
    var u := t[i := t[i].(fd := -1)];
    forall k | 0 <= k < |l| && l[k].pid != 0 ensures exists j :: Owner(u, j, l[k].pid) {
      var j :| Owner(t, j, l[k].pid);
      assert Owner(u, j, l[k].pid);
    }
  }

  /** A new connection in a free slot, the table having grown if it was full. */
  lemma AddCross(t: seq<Client>, l: seq<LockEntry>, running: set<int>, lastPid: int, nalloc: nat, i: nat, fd: nat, uid: int)
    requires Cross(t, l, running, lastPid) && i == FdIndex(t, -1) < |Grown(t, nalloc)|
    ensures Cross(Grown(t, nalloc)[i := Grown(t, nalloc)[i].(fd := fd, uid := uid)], l, running, lastPid)
  {
    var g := Grown(t, nalloc);
    var u := g[i := g[i].(fd := fd, uid := uid)];
    assert forall j :: |t| <= j < |g| ==> g[j] == FREE;
    forall j | 0 <= j < |u| ensures SlotOk(u[j], l, running, lastPid) {
      if j < |t| { assert SlotOk(t[j], l, running, lastPid); }
    }
    forall k | 0 <= k < |l| && l[k].pid != 0 ensures exists j :: Owner(u, j, l[k].pid) {
      var j :| Owner(t, j, l[k].pid);
      assert Owner(u, j, l[k].pid);
    }
  }

  // ---------------------------------------------------------------- the amount of work left

  /** Twice the lines that a client's search has not read yet. */
  function LinesLeft(x: Client, n: nat): nat {
    if x.fd >= 0 && 0 <= x.sysftell <= n then 2 * (n - x.sysftell) else 0
  }

  function Budget(t: seq<Client>, n: nat): nat {
    if t == [] then 0 else Budget(t[..|t| - 1], n) + LinesLeft(t[|t| - 1], n)
  }

  lemma {:induction false} BudgetUpdate(t: seq<Client>, n: nat, i: nat, x: Client)
    requires i < |t|
    ensures Budget(t[i := x], n) == Budget(t, n) - LinesLeft(t[i], n) + LinesLeft(x, n)
  {
    var m := |t| - 1;
    if i == m {
      assert t[i := x][..m] == t[..m];
    } else {
      BudgetUpdate(t[..m], n, i, x);
      assert t[i := x][..m] == t[..m][i := x];
    }
  }

  // ---------------------------------------------------------------- frames

  lemma BooksFrame(t: seq<Client>, u: seq<Client>, listenfd: int, allset: set<int>, maxfd: int, maxi: int)
    requires Books(t, listenfd, allset, maxfd, maxi) && |t| == |u|
    requires forall i :: 0 <= i < |t| ==> t[i].fd == u[i].fd
    ensures Books(u, listenfd, allset, maxfd, maxi)
  {
    forall f <- allset | f != listenfd ensures f >= 0 && HasFd(u, f) {
      var i :| 0 <= i < |t| && t[i].fd == f;
      assert u[i].fd == f;
    }
  }

  /** What signals may do to the other slots while slot i is worked on: an exit may
      be recorded, and then the flag is set. */
  predicate Kept(t: seq<Client>, f: bool, u: seq<Client>, f': bool, i: int) {
    |u| == |t| && (f ==> f')
    && forall j :: 0 <= j < |t| && j != i ==> u[j] == t[j].(childdone := u[j].childdone) && (!f' ==> u[j] == t[j])
  }

  predicate Alike(t: seq<Client>, u: seq<Client>) {
    |u| == |t| && forall j :: 0 <= j < |t| ==> u[j] == t[j].(childdone := u[j].childdone)
  }

  /** Work left before and after: a new signal has used some up. */
  predicate Paid(m: int, f: bool, m': int, f': bool) { m' <= m && (f' && !f ==> m' < m) }

  lemma HistoriesLen(lines: seq<Line>, t: seq<Client>, h: seq<seq<nat>>)
    requires Histories(lines, t, h)
    ensures |h| == |t|
  {
  }

  /** Slot i recorded the exit, or nothing changed. */
  function Marked(t: seq<Client>, pid: int, exited: bool, stat: int): seq<Client> {
    var i := ChildIndex(t, pid);
    if exited && i < |t| then t[i := t[i].(childdone := stat)] else t
  }

  lemma MarkedOk(t: seq<Client>, h: seq<seq<nat>>, lines: seq<Line>, l: seq<LockEntry>, running: set<int>, lastPid: int,
                 pid: int, exited: bool, stat: int)
    requires Cross(t, l, running, lastPid) && Histories(lines, t, h) && pid in running && stat >= 1
    ensures var u := Marked(t, pid, exited, stat);
            && Cross(u, l, running - {pid}, lastPid) && Histories(lines, u, h)
            && ChildIndex(t, pid) < |t| == |u| && Budget(u, |lines|) == Budget(t, |lines|)
            && (forall i :: 0 <= i < |u| ==> u[i] == if exited && t[i].pid == pid then t[i].(childdone := stat) else t[i])
    ensures |running| == |running - {pid}| + 1
  {
    ChildOwner(t, l, running, lastPid, pid);
    ReapCross(t, l, running, lastPid, pid);
    assert running == running - {pid} + {pid};
    MarkedSlots(t, l, running, lastPid, pid, exited, stat);
    if exited {
      var i := ChildIndex(t, pid);
      var x := t[i].(childdone := stat);
      assert SlotOk(t[i], l, running, lastPid);
      assert SlotOk(x, l, running - {pid}, lastPid);
      hide Cross, Holds, SlotOk, ChildIndex;
      UpdateSlot(t, l, running - {pid}, lastPid, i, x);
      BudgetUpdate(t, |lines|, i, x);
      assert HistoryOk(lines, t[i], h[i]);
    }
  }

  /** The exit is recorded in the slot of that child and nowhere else. */
  lemma MarkedSlots(t: seq<Client>, l: seq<LockEntry>, running: set<int>, lastPid: int, pid: int, exited: bool, stat: int)
    requires Cross(t, l, running, lastPid) && pid != 0 && ChildIndex(t, pid) < |t|
    ensures var u := Marked(t, pid, exited, stat);
            |u| == |t| && forall i :: 0 <= i < |u| ==> u[i] == if exited && t[i].pid == pid then t[i].(childdone := stat) else t[i]
  {
  }

  /** The search cursor of a client without a child moves on. */
  lemma CursorOk(t: seq<Client>, h: seq<seq<nat>>, lines: seq<Line>, l: seq<LockEntry>, running: set<int>, lastPid: int, i: nat, x: Client)
    requires Cross(t, l, running, lastPid) && Histories(lines, t, h) && i < |t| && Unlocked(t[i], l) && t[i].childdone == 0
    requires x == t[i].(sysftell := x.sysftell, foundone := x.foundone)
    requires t[i].sysftell >= 0 && (x.sysftell == -1 || t[i].sysftell <= x.sysftell <= |lines|)
    ensures Cross(t[i := x], l, running, lastPid) && Histories(lines, t[i := x], h)
    ensures Budget(t[i := x], |lines|) <= Budget(t, |lines|)
    ensures t[i].fd >= 0 && x.sysftell > t[i].sysftell ==> Budget(t[i := x], |lines|) + 2 <= Budget(t, |lines|)
  {
    assert SlotOk(t[i], l, running, lastPid);
    assert t[i].pid !in running;
    UpdateSlot(t, l, running, lastPid, i, x);
    BudgetUpdate(t, |lines|, i, x);
    assert HistoryOk(lines, t[i], h[i]);
  }

  /** A new child for the entry at line k, which no search has reached before. */
  lemma ForkedOk(t: seq<Client>, h: seq<seq<nat>>, lines: seq<Line>, i: nat, pid: int, k: nat)
    requires Histories(lines, t, h) && i < |t| && t[i].sysftell == k + 1
    requires MatchAt(lines, k, t[i].sysname, t[i].speed) && forall a <- h[i] :: a < k
    ensures var u := t[i := t[i].(pid := pid)];
            Histories(lines, u, h[i := h[i] + [k]]) && Budget(u, |lines|) == Budget(t, |lines|)
  {
    var x := t[i].(pid := pid);
    BudgetUpdate(t, |lines|, i, x);
    assert HistoryOk(lines, t[i], h[i]);
    forall a | 0 <= a < |h[i]| ensures h[i][a] < k { assert h[i][a] in h[i]; }
    assert HistoryOk(lines, x, h[i] + [k]);
  }

  lemma HistoryBelow(lines: seq<Line>, t: seq<Client>, h: seq<seq<nat>>, i: nat)
    requires Histories(lines, t, h) && i < |t| && t[i].sysftell >= 0
    ensures |h| == |t| && forall a <- h[i] :: a < t[i].sysftell
  {
    assert HistoryOk(lines, t[i], h[i]);
  }

  /** A slot is given up and its descriptor leaves the set. */
  lemma DropBooks(t: seq<Client>, listenfd: int, allset: set<int>, maxfd: int, maxi: int, i: nat)
    requires Books(t, listenfd, allset, maxfd, maxi) && i < |t| && t[i].fd >= 0
    ensures Books(t[i := t[i].(fd := -1)], listenfd, allset - {t[i].fd}, maxfd, maxi)
  {
    var u := t[i := t[i].(fd := -1)];
    forall f <- allset - {t[i].fd} | f != listenfd ensures f >= 0 && HasFd(u, f) {
      var j :| 0 <= j < |t| && t[j].fd == f;
      assert u[j].fd == f;
    }
  }

  lemma DropHistories(t: seq<Client>, h: seq<seq<nat>>, lines: seq<Line>, i: nat)
    requires Histories(lines, t, h) && i < |t|
    ensures var u := t[i := t[i].(fd := -1)];
            Histories(lines, u, h) && Budget(u, |lines|) <= Budget(t, |lines|)
  {
    BudgetUpdate(t, |lines|, i, t[i].(fd := -1));
    assert HistoryOk(lines, t[i], h[i]);
  }

  lemma SlotFacts(t: seq<Client>, h: seq<seq<nat>>, lines: seq<Line>, l: seq<LockEntry>, running: set<int>, lastPid: int, i: nat)
    requires Cross(t, l, running, lastPid) && Histories(lines, t, h) && i < |t|
    ensures SlotOk(t[i], l, running, lastPid) && -1 <= t[i].sysftell <= |lines|
  {
    assert HistoryOk(lines, t[i], h[i]);
  }

  lemma ClearOk(t: seq<Client>, h: seq<seq<nat>>, lines: seq<Line>, l: seq<LockEntry>, running: set<int>, lastPid: int, i: nat)
    requires Cross(t, l, running, lastPid) && Histories(lines, t, h) && i < |t|
    ensures var u := t[i := t[i].(childdone := 0)];
            Cross(u, l, running, lastPid) && Histories(lines, u, h) && Budget(u, |lines|) == Budget(t, |lines|)
  {
    SlotFacts(t, h, lines, l, running, lastPid, i);
    BudgetUpdate(t, |lines|, i, t[i].(childdone := 0));
    assert HistoryOk(lines, t[i], h[i]);
    UpdateSlot(t, l, running, lastPid, i, t[i].(childdone := 0));
  }

  lemma BooksFd(t: seq<Client>, listenfd: int, allset: set<int>, maxfd: int, maxi: int, i: nat)
    requires Books(t, listenfd, allset, maxfd, maxi) && i < |t| && t[i].fd >= 0
    ensures FdIndex(t, t[i].fd) == i
  {
  }

  /** Slots beyond maxi are free, and free slots have no exit recorded. */
  lemma MaxiFacts(t: seq<Client>, h: seq<seq<nat>>, lines: seq<Line>, l: seq<LockEntry>, running: set<int>, lastPid: int,
                  listenfd: int, allset: set<int>, maxfd: int, maxi: int)
    requires Cross(t, l, running, lastPid) && Books(t, listenfd, allset, maxfd, maxi)
    ensures -1 <= maxi < |t|
    ensures forall i :: maxi < i < |t| ==> t[i].fd < 0 && t[i].childdone == 0
  {
    forall i | maxi < i < |t| ensures t[i].fd < 0 && t[i].childdone == 0 { assert SlotOk(t[i], l, running, lastPid); }
  }

  lemma AddHistories(t: seq<Client>, h: seq<seq<nat>>, lines: seq<Line>, nalloc: nat, i: nat, fd: int, uid: int)
    requires Histories(lines, t, h) && i == FdIndex(t, -1) < |Grown(t, nalloc)|
    ensures Histories(lines, Grown(t, nalloc)[i := Grown(t, nalloc)[i].(fd := fd, uid := uid)],
                      if i < |t| then h else h + seq(nalloc, _ => []))
  {
    var g, k := Grown(t, nalloc), if i < |t| then h else h + seq(nalloc, _ => []);
    assert HistoryOk(lines, FREE, []);
    forall j | 0 <= j < |g| ensures HistoryOk(lines, g[j], k[j]) {
      if j < |t| { assert HistoryOk(lines, t[j], h[j]); }
    }
  }

  lemma AddBooks(t: seq<Client>, u: seq<Client>, listenfd: int, allset: set<int>, maxfd: int, maxi: int, i: nat, fd: nat)
    requires Books(t, listenfd, allset, maxfd, maxi) && fd !in allset && i < |u| && |t| <= |u| && u[i].fd == fd
    requires i < |t| ==> t[i].fd == -1
    requires forall j :: 0 <= j < |u| && j != i ==> u[j].fd == if j < |t| then t[j].fd else -1
    ensures Books(u, listenfd, allset + {fd}, if fd > maxfd then fd else maxfd, if i > maxi then i else maxi)
  {
    forall f <- allset + {fd} | f != listenfd ensures f >= 0 && HasFd(u, f) {
      if f == fd {
        assert u[i].fd == f;
      } else {
        var j :| 0 <= j < |t| && t[j].fd == f;
        assert u[j].fd == f;
      }
    }
  }

  lemma AcceptOk(t: seq<Client>, h: seq<seq<nat>>, lines: seq<Line>, l: seq<LockEntry>, running: set<int>, lastPid: int,
                 listenfd: int, allset: set<int>, maxfd: int, maxi: int, nalloc: nat, fd: nat, uid: int)
    requires Cross(t, l, running, lastPid) && Books(t, listenfd, allset, maxfd, maxi) && Histories(lines, t, h)
    requires nalloc > 0 && fd !in allset
    ensures var i, g := FdIndex(t, -1), Grown(t, nalloc);
            && |t| <= |g| && i < |g|
            && (var u := g[i := g[i].(fd := fd, uid := uid)];
                && Cross(u, l, running, lastPid) && Histories(lines, u, if i < |t| then h else h + seq(nalloc, _ => []))
                && Books(u, listenfd, allset + {fd}, if fd > maxfd then fd else maxfd, if i > maxi then i else maxi)
                && forall j :: 0 <= j < |t| && t[j].fd >= 0 ==> u[j] == t[j])
  {
    var i, g := FdIndex(t, -1), Grown(t, nalloc);
    var u := g[i := g[i].(fd := fd, uid := uid)];
    AddCross(t, l, running, lastPid, nalloc, i, fd, uid);
    AddHistories(t, h, lines, nalloc, i, fd, uid);
    AddBooks(t, u, listenfd, allset, maxfd, maxi, i, fd);
  }

  lemma SaveOk(t: seq<Client>, h: seq<seq<nat>>, lines: seq<Line>, l: seq<LockEntry>, running: set<int>, lastPid: int, i: nat, x: Client)
    requires Cross(t, l, running, lastPid) && Histories(lines, t, h) && i < |t| && Unlocked(t[i], l)
    requires x.fd == t[i].fd && x.pid == t[i].pid && x.childdone == 0 && x.sysftell == 0
    ensures Cross(t[i := x], l, running, lastPid) && Histories(lines, t[i := x], h[i := []])
  {
    assert SlotOk(t[i], l, running, lastPid) && t[i].pid !in running;
    UpdateSlot(t, l, running, lastPid, i, x);
  }

  /** The server as the signal handler sees it: `left` is the work left, `failed` the
      children that exited unsuccessfully, `dealt` those that were dealt with. */
  datatype Moment = Moment(client: seq<Client>, flag: bool, left: int, running: set<int>, lastPid: int, failed: set<int>, dealt: set<int>)

  /** From a to b only slot i was worked on, and signals arrived. */
  ghost predicate Signals(a: Moment, b: Moment, i: int) {
    && Kept(a.client, a.flag, b.client, b.flag, i)
    && a.lastPid <= b.lastPid && a.failed <= b.failed && a.dealt == b.dealt
    && (forall q <- b.running :: q in a.running || q > a.lastPid)
    && (b.lastPid == a.lastPid ==> b.running <= a.running)
    && (forall q <- b.failed :: q in a.failed || q in a.running || q > a.lastPid)
  }

  ghost predicate Since(a: Moment, b: Moment, i: int) { Signals(a, b, i) && Paid(a.left, a.flag, b.left, b.flag) }

  lemma SinceTrans(a: Moment, b: Moment, c: Moment, i: int)
    requires Since(a, b, i) && (Since(b, c, i) || Since(b, c, -1))
    ensures Since(a, c, i) && |c.client| == |a.client|
  {
    forall q <- c.failed ensures q in a.failed || q in a.running || q > a.lastPid {
      if q in b.failed {} else { assert q in b.running || q > b.lastPid; }
    }
  }

  lemma SinceKept(a: Moment, b: Moment, i: int)
    requires Since(a, b, i)
    ensures Kept(a.client, a.flag, b.client, b.flag, i) && a.failed <= b.failed && a.lastPid <= b.lastPid
    ensures b.lastPid == a.lastPid ==> b.running <= a.running
  {}

  lemma SinceLeft(a: Moment, b: Moment, i: int)
    requires Since(a, b, i)
    ensures b.left <= a.left && |b.client| == |a.client|
  {}

  lemma SinceSignal(a: Moment, b: Moment, pid: int, now: bool)
    requires |b.client| == |a.client| && b.flag && b.left < a.left && b.running == a.running - {pid} && b.lastPid == a.lastPid
    requires b.failed == With(a.failed, pid, now) && b.dealt == a.dealt && pid in a.running
    requires forall j :: 0 <= j < |a.client| ==> b.client[j] == a.client[j].(childdone := b.client[j].childdone)
    ensures Since(a, b, -1)
  {}

  /** The child with the new pid may go on. */
  lemma SinceForked(a: Moment, b: Moment, i: int, pid: int)
    requires Since(a, b, i) && pid > a.lastPid && b.lastPid > a.lastPid
    ensures Signals(a, b.(running := b.running + {pid}, left := b.left + 1), i) && b.left <= a.left
  {}

  lemma SinceDialled(a: Moment, b: Moment, c: Moment, i: int)
    requires Since(a, b, i) && b.left + 2 <= a.left && Signals(b, c, i) && c.left <= b.left + 1
    ensures Since(a, c, i) && |c.client| == |a.client|
  {
    forall q <- c.failed ensures q in a.failed || q in a.running || q > a.lastPid {
      if q !in b.failed { assert q in b.running || q > b.lastPid; }
    }
  }

  lemma SinceRefl(a: Moment, i: int)
    ensures Since(a, a, i)
  {}

  /** Slot i is changed, with no more work left than before. */
  lemma SinceSlot(a: Moment, i: nat, x: Client, left: int)
    requires i < |a.client| && left <= a.left
    ensures Since(a, a.(client := a.client[i := x], left := left), i)
  {}

  // ---------------------------------------------------------------- failures that are not dealt with yet

  predicate Owes(t: seq<Client>, p: int) { exists i :: 0 <= i < |t| && t[i].pid == p && t[i].childdone > 1 }

  /** A failure that nobody has dealt with is recorded in the slot of its child, and
      nothing else is recorded as a failure. */
  ghost predicate Debts(t: seq<Client>, owed: set<int>, failed: set<int>, running: set<int>, lastPid: int) {
    && owed <= failed
    && (forall i :: 0 <= i < |t| && t[i].childdone > 1 ==> t[i].pid in owed)
    && (forall i :: 0 <= i < |t| && t[i].childdone == 1 ==> t[i].pid !in failed)
    && (forall p <- owed :: Owes(t, p))
    && (forall p <- failed :: 0 < p <= lastPid && p !in running)
  }

  lemma DebtsFrame(t: seq<Client>, u: seq<Client>, owed: set<int>, failed: set<int>, running: set<int>, lastPid: int, running': set<int>, lastPid': int)
    requires Debts(t, owed, failed, running, lastPid) && |t| <= |u| && lastPid <= lastPid'
    requires forall i :: 0 <= i < |t| ==> (u[i].childdone == t[i].childdone && (t[i].childdone != 0 ==> u[i].pid == t[i].pid))
                                          || (u[i].childdone == 0 && t[i].childdone <= 1)
    requires forall i :: |t| <= i < |u| ==> u[i].childdone == 0
    requires forall q <- running' :: q in running || q !in failed
    ensures Debts(u, owed, failed, running', lastPid')
  {
    forall p <- owed ensures Owes(u, p) {
      var i :| 0 <= i < |t| && t[i].pid == p && t[i].childdone > 1;
      assert u[i].pid == p;
    }
  }

  function With(s: set<int>, p: int, also: bool): set<int> { if also then s + {p} else s }

  lemma WithOnly(s: set<int>, p: int, also: bool)
    ensures forall q <- With(s, p, also) :: q in s || q == p
  {}

  lemma LessSame(s: set<int>, p: int)
    requires p !in s
    ensures Less(s, p) == s
  {}

  function Less(s: set<int>, p: int): set<int> { s - {p} }

  function DealtOf(failed: set<int>, owed: set<int>): set<int> { failed - owed }

  /** The exit of a child that was running. */
  lemma DebtsMarked(t: seq<Client>, l: seq<LockEntry>, owed: set<int>, failed: set<int>, running: set<int>, lastPid: int,
                    pid: int, exited: bool, stat: int)
    requires Cross(t, l, running, lastPid) && Debts(t, owed, failed, running, lastPid) && pid in running && stat >= 1
    ensures var now := exited && stat > 1;
            && Debts(Marked(t, pid, exited, stat), With(owed, pid, now), With(failed, pid, now), running - {pid}, lastPid) && pid !in failed
            && DealtOf(With(failed, pid, now), With(owed, pid, now)) == DealtOf(failed, owed)
  {
    ChildOwner(t, l, running, lastPid, pid);
    MarkedSlots(t, l, running, lastPid, pid, exited, stat);
    var u, k := Marked(t, pid, exited, stat), ChildIndex(t, pid);
    var now := if exited && stat > 1 then {pid} else {};
    assert With(owed, pid, exited && stat > 1) == owed + now && With(failed, pid, exited && stat > 1) == failed + now;
    assert t[k].childdone == 0 by { assert SlotOk(t[k], l, running, lastPid); }
    assert forall j :: 0 <= j < |t| && j != k ==> t[j].pid != pid;
    assert 0 < pid <= lastPid by { assert SlotOk(t[k], l, running, lastPid); }
    hide Cross, Marked, ChildIndex, Holds;
    assert forall j :: 0 <= j < |t| && j != k ==> u[j] == t[j];
    assert forall p <- failed + now :: 0 < p <= lastPid && p !in running - {pid};
    forall p <- owed + now ensures Owes(u, p) {
      if p == pid {
        assert u[k].pid == p && u[k].childdone > 1;
      } else {
        var i :| 0 <= i < |t| && t[i].pid == p && t[i].childdone > 1;
        assert u[i].pid == p && u[i].childdone > 1;
      }
    }
  }

  /** A failure is taken up. */
  lemma DebtsTaken(t: seq<Client>, l: seq<LockEntry>, owed: set<int>, failed: set<int>, running: set<int>, lastPid: int, i: nat)
    requires Cross(t, l, running, lastPid) && Debts(t, owed, failed, running, lastPid) && i < |t| && t[i].childdone > 1
    ensures t[i].pid in owed && Debts(t[i := t[i].(childdone := 0)], Less(owed, t[i].pid), failed, running, lastPid)
  {
    var u := t[i := t[i].(childdone := 0)];
    assert SlotOk(t[i], l, running, lastPid);
    forall p <- owed - {t[i].pid} ensures Owes(u, p) {
      var j :| 0 <= j < |t| && t[j].pid == p && t[j].childdone > 1;
      assert u[j].pid == p;
    }
    forall j | 0 <= j < |u| && u[j].childdone > 1 ensures u[j].pid in owed - {t[i].pid} { assert SlotOk(t[j], l, running, lastPid); }
  }

  lemma DebtsSlot(t: seq<Client>, l: seq<LockEntry>, owed: set<int>, failed: set<int>, running: set<int>, lastPid: int, i: nat)
    requires Cross(t, l, running, lastPid) && Debts(t, owed, failed, running, lastPid) && i < |t|
    ensures t[i].childdone > 1 <==> t[i].pid in owed
    ensures t[i].childdone == 1 || t[i].pid in running ==> t[i].pid !in failed
    ensures lastPid + 1 !in failed && owed <= failed
  {
    if t[i].pid in owed {
      var j :| 0 <= j < |t| && t[j].pid == t[i].pid && t[j].childdone > 1;
      assert SlotOk(t[j], l, running, lastPid);
    }
  }

  lemma NoneOwed(t: seq<Client>, owed: set<int>, failed: set<int>, running: set<int>, lastPid: int)
    requires Debts(t, owed, failed, running, lastPid) && forall i :: 0 <= i < |t| ==> t[i].childdone <= 1
    ensures owed == {}
  {
    assert forall p :: p in owed ==> Owes(t, p);
    assert forall p :: !Owes(t, p);
    assert forall p :: p !in owed;
  }

  // ---------------------------------------------------------------- the server

  /** What read() on a client's descriptor gave. */
  datatype Input = Closed | Bad | Request(sysname: string, speed: string)

  /** What was done about a client: a failed child retried, a hang-up, a request. */
  datatype Kind = Again | Hangup | Ask(sysname: string, speed: string)

  /** Client i from x to y, with the lock table from l to m. */
  datatype Act = Act(i: nat, kind: Kind, x: Client, l: seq<LockEntry>, y: Client, m: seq<LockEntry>)

  /** The client table after a series of acts, but for exits recorded meanwhile. */
  function After(t: seq<Client>, log: seq<Act>): (u: seq<Client>)
    ensures |u| == |t|
  {
    if log == [] then t
    else
      var u, a := After(t, log[..|log| - 1]), log[|log| - 1];
      if a.i < |u| then u[a.i := a.y] else u
  }

  function LockAfter(l: seq<LockEntry>, log: seq<Act>): seq<LockEntry> {
    if log == [] then l else log[|log| - 1].m
  }

  lemma {:induction false} AfterAlike(t: seq<Client>, u: seq<Client>, log: seq<Act>)
    requires Alike(t, u)
    ensures Alike(After(t, log), After(u, log))
  {
    if log != [] { AfterAlike(t, u, log[..|log| - 1]); }
  }

  function Pids(log: seq<Act>): set<int> { set a <- log :: a.x.pid }

  /** What the clients sent that a series of acts answers. */
  function Inputs(log: seq<Act>): seq<(nat, Input)> {
    seq(|log|, k requires 0 <= k < |log| => (log[k].i, InputOf(log[k].kind)))
  }

  function InputOf(k: Kind): Input {
    match k
    case Ask(sysname, speed) => Request(sysname, speed)
    case _ => Closed
  }

  /** The state that child_done() works on. */
  datatype Snap = Snap(client: seq<Client>, history: seq<seq<nat>>, lock: seq<LockEntry>, running: set<int>, lastPid: int,
                       failed: set<int>, owed: set<int>, replies: seq<(int, Msg)>)

  predicate Onward(a: Snap, b: Snap) {
    && |a.client| == |b.client| && |a.history| == |b.history| == |a.client| && a.lastPid <= b.lastPid && a.failed <= b.failed
    && (forall q <- b.running :: q in a.running || q > a.lastPid)
    && (forall q <- b.failed :: q in a.failed || q in a.running || q > a.lastPid)
  }

  predicate Tidy(a: Snap) {
    && |a.history| == |a.client| && a.owed <= a.failed
    && (forall p <- a.failed :: 0 < p <= a.lastPid && p !in a.running)
    && (forall i :: 0 <= i < |a.client| ==> 0 <= a.client[i].pid <= a.lastPid)
    && (forall i :: 0 <= i < |a.client| && a.client[i].childdone != 0 ==> a.client[i].pid != 0 && a.client[i].pid !in a.running && a.client[i].fd >= 0)
    && (forall i :: 0 <= i < |a.client| && a.client[i].childdone == 1 ==> a.client[i].pid !in a.failed)
    && (forall i :: 0 <= i < |a.client| ==> (a.client[i].childdone > 1 <==> a.client[i].pid in a.owed))
    && (forall i, j :: 0 <= i < j < |a.client| && a.client[i].pid != 0 ==> a.client[i].pid != a.client[j].pid)
  }

  /** The lines of pid are still its lines. */
  ghost predicate HoldsOn(l: seq<LockEntry>, m: seq<LockEntry>, pid: int) {
    forall line :: Holder(l, line) == pid ==> Holder(m, line) == pid
  }

  ghost predicate Holdless(l: seq<LockEntry>, pid: int) { forall line :: Holder(l, line) != pid }

  predicate Pending(a: Snap, b: Snap, i: nat)
    requires i < |a.client| == |b.client| == |a.history| == |b.history|
  {
    a.client[i].pid in b.owed && b.client[i] == a.client[i].(childdone := b.client[i].childdone) && b.history[i] == a.history[i]
  }

  /** Given up, or dialled for again by a new child. */
  predicate DealtWith(a: Snap, b: Snap, i: nat)
    requires i < |a.client| == |b.client| == |a.history| == |b.history|
  {
    b.client[i].fd == -1 || (b.client[i].pid > a.lastPid && |b.history[i]| > |a.history[i]|)
  }

  /** What has become of client i. */
  ghost predicate Fate(a: Snap, b: Snap, i: nat)
    requires i < |a.client| == |b.client| == |a.history| == |b.history|
  {
    var (x, y) := (a.client[i], b.client[i]);
    && (y.fd == x.fd || y.fd == -1)
    && (x.childdone > 1 ==> Pending(a, b, i) || DealtWith(a, b, i))
    && (x.childdone == 1 ==> y == x.(childdone := y.childdone) && x.pid !in b.failed && x.pid !in b.running && HoldsOn(a.lock, b.lock, x.pid))
  }

  class Server {
    const nalloc: nat
    const lines: seq<Line>    // the Systems file
    const devs: seq<Device>   // the Devices file
    const listenfd: int
    // the event loop
    var allset: set<int>
    var maxfd: int
    var maxi: int
    // the client table and, per slot, the entries dialled for its request
    var client: seq<Client>
    ghost var history: seq<seq<nat>>
    // the lock table: its used entries, and how many are allocated
    var lock: seq<LockEntry>
    var lockSize: nat
    // the Systems file cursor
    var posn: nat
    var errmsg: Msg
    // shared with the signal handler, and the dialling children
    var chldFlag: bool
    var running: set<int>
    var lastPid: int
    // children whose exit was recorded as a failure, and those not dealt with yet
    ghost var failed: set<int>
    ghost var owed: set<int>
    // what clients sent, slot by slot, and what send_err() told them
    ghost var received: seq<(nat, Input)>
    var replies: seq<(int, Msg)>

    ghost predicate Tables()
      reads this`client, this`lock, this`running, this`lastPid
    {
      Cross(client, lock, running, lastPid)
    }

    ghost predicate Watched()
      reads this`client, this`allset, this`maxfd, this`maxi
    {
      Books(client, listenfd, allset, maxfd, maxi)
    }

    ghost predicate Dialled()
      reads this`client, this`history
    {
      Histories(lines, client, history)
    }

    ghost predicate Recorded()
      reads this`client, this`owed, this`failed, this`running, this`lastPid
    {
      Debts(client, owed, failed, running, lastPid)
    }

    /** What holds even between two statements of the event loop. */
    ghost predicate Steady()
      reads this
    {
      nalloc > 0 && |lock| <= lockSize && posn <= |lines| && Tables() && Dialled() && Recorded()
    }

    ghost predicate Valid()
      reads this
    {
      Steady() && Watched()
    }

    ghost function Measure(): nat
      reads this`client, this`running
    {
      Budget(client, |lines|) + |running|
    }

    constructor (nalloc: nat, lines: seq<Line>, devs: seq<Device>, listenfd: nat)
      requires nalloc > 0
      ensures Valid() && client == [] && lock == [] && running == {} && allset == {listenfd} && !chldFlag
    {
      this.nalloc, this.lines, this.devs, this.listenfd := nalloc, lines, devs, listenfd;
      allset, maxfd, maxi := {listenfd}, listenfd, -1;
      client, history, lock, lockSize := [], [], [], 0;
      posn, errmsg, chldFlag, running, lastPid := 0, Empty, false, {}, 0;
      failed, owed, received, replies := {}, {}, [], [];
    }

    // -------------------------------------------------------------- lock.c

    method FindLine(line: string) returns (k: nat)
      requires nalloc > 0 && |lock| <= lockSize
      modifies this`lock, this`lockSize
      ensures lock == WithLine(old(lock), line) && |lock| <= lockSize
      ensures k == LineIndex(lock, line) && k < |lock|
    {
      k := 0;
      while k < |lock|
        invariant k <= |lock| && forall j :: 0 <= j < k ==> lock[j].line != line
      {
        if lock[k].line == line { return; }
        k := k + 1;
      }
      if |lock| >= lockSize { lockSize := lockSize + nalloc; }
      lock := lock + [LockEntry(line, 0)];
    }

    method LockSet(line: string, pid: int)
      requires nalloc > 0 && |lock| <= lockSize
      modifies this`lock, this`lockSize
      ensures lock == Locked(old(lock), line, pid) && |lock| <= lockSize
    {
      var k := FindLine(line);
      lock := lock[k := lock[k].(pid := pid)];
    }

    method LockRel(pid: int)
      modifies this`lock
      ensures lock == Released(old(lock), pid) && |lock| == |old(lock)|
    {
      var k := 0;
      while k < |lock|
        invariant k <= |lock| && forall j :: 0 <= j < k ==> lock[j].pid != pid
        invariant lock == old(lock)
      {
        if lock[k].pid == pid {
          lock := lock[k := lock[k].(pid := 0)];
          return;
        }
        k := k + 1;
      }
    }

    method IsLocked(line: string) returns (pid: int)
      requires nalloc > 0 && |lock| <= lockSize
      modifies this`lock, this`lockSize
      ensures lock == WithLine(old(lock), line) && |lock| <= lockSize
      ensures pid == Holder(lock, line)
    {
      var k := FindLine(line);
      pid := lock[k].pid;
    }

    // -------------------------------------------------------------- client.c

    method ClientAlloc()
      modifies this`client, this`history
      ensures client == old(client) + seq(nalloc, _ => FREE) && history == old(history) + seq(nalloc, _ => [])
    {
      client := client + seq(nalloc, _ => FREE);
      history := history + seq(nalloc, _ => []);
    }

    /** Takes the first free entry; grows a full table, once, and keeps its entries. */
    method ClientAdd(fd: int, uid: int) returns (i: nat)
      requires nalloc > 0 && |history| == |client|
      modifies this`client, this`history
      ensures i == FdIndex(old(client), -1) < |Grown(old(client), nalloc)|
      ensures client == Grown(old(client), nalloc)[i := Grown(old(client), nalloc)[i].(fd := fd, uid := uid)]
      ensures |history| == |client|
      ensures history == if FdIndex(old(client), -1) < |old(client)| then old(history) else old(history) + seq(nalloc, _ => [])
    {
      ghost var t, n := client, FdIndex(client, -1);
      i := 0;
      while true
        invariant i <= n && i <= |client| == |history|
        invariant (client == t && history == old(history)) || (n == |t| && client == Grown(t, nalloc) && history == old(history) + seq(nalloc, _ => []))
        decreases if n < |client| then 0 else 1, |client| - i
      {
        if i < |client| {
          if client[i].fd == -1 {
            client := client[i := client[i].(fd := fd, uid := uid)];
            return;
          }
          i := i + 1;
        } else {
          ClientAlloc();
          i := 0;
        }
      }
    }

    method ClientDel(fd: int) returns (ok: bool)
      modifies this`client
      ensures ok <==> FdIndex(old(client), fd) < |old(client)|
      ensures client == if ok then old(client)[FdIndex(old(client), fd) := old(client)[FdIndex(old(client), fd)].(fd := -1)] else old(client)
    {
      var i := 0;
      while i < |client|
        invariant i <= |client| && client == old(client) && forall j :: 0 <= j < i ==> client[j].fd != fd
      {
        if client[i].fd == fd {
          client := client[i := client[i].(fd := -1)];
          return true;
        }
        i := i + 1;
      }
      ok := false;
    }

    method ClientSigchld(pid: int, stat: int) returns (ok: bool)
      modifies this`client
      ensures ok <==> ChildIndex(old(client), pid) < |old(client)|
      ensures client == if ok then old(client)[ChildIndex(old(client), pid) := old(client)[ChildIndex(old(client), pid)].(childdone := stat)] else old(client)
    {
      var i := 0;
      while i < |client|
        invariant i <= |client| && client == old(client) && forall j :: 0 <= j < i ==> client[j].pid != pid
      {
        if client[i].pid == pid {
          client := client[i := client[i].(childdone := stat)];
          return true;
        }
        i := i + 1;
      }
      ok := false;
    }

    // -------------------------------------------------------------- sigchld.c

    lemma SlotValid(i: nat)
      requires Valid() && i < |client|
      ensures SlotOk(client[i], lock, running, lastPid) && -1 <= client[i].sysftell <= |lines| && |history| == |client|
    {
      SlotFacts(client, history, lines, lock, running, lastPid, i);
      HistoriesLen(lines, client, history);
    }

    lemma IdleValid(i: nat)
      requires Valid() && i < |client| && Unlocked(client[i], lock)
      ensures client[i].pid !in running && client[i].childdone == 0
    {
      IdleSlot(client, lock, running, lastPid, i);
    }

    lemma FdValid(i: nat)
      requires Valid() && i < |client| && client[i].fd >= 0
      ensures FdIndex(client, client[i].fd) == i
    {
      BooksFd(client, listenfd, allset, maxfd, maxi, i);
    }

    lemma MaxiValid()
      requires Valid()
      ensures -1 <= maxi < |client|
      ensures forall i :: maxi < i < |client| ==> client[i].fd < 0 && client[i].childdone == 0
    {
      MaxiFacts(client, history, lines, lock, running, lastPid, listenfd, allset, maxfd, maxi);
    }

    ghost function Now(): Moment
      reads this
    {
      Moment(client, chldFlag, Measure(), running, lastPid, failed, DealtOf(failed, owed))
    }

    /** The handler: a child has terminated, by exit(stat - 1) or abnormally. */
    method SigChld(pid: int, exited: bool, stat: int)
      requires Steady() && pid in running && stat >= 1
      modifies this`chldFlag, this`failed, this`owed, this`running, this`client
      ensures Steady() && (old(Watched()) ==> Watched()) && chldFlag && running == old(running) - {pid}
      ensures |client| == |old(client)|
      ensures forall i :: 0 <= i < |client| ==>
                client[i] == if exited && old(client)[i].pid == pid then old(client)[i].(childdone := stat) else old(client)[i]
      ensures Measure() < old(Measure())
      ensures failed == With(old(failed), pid, exited && stat > 1) && owed == With(old(owed), pid, exited && stat > 1)
      ensures Since(old(Now()), Now(), -1) && Alike(old(client), client) && forall q <- failed :: q in old(failed) || q == pid
    {
      hide Cross, Histories, Budget, Books, Debts, Since, With, DealtOf;
      ghost var a, t := Now(), client;
      ghost var now := exited && stat > 1;
      ghost var u := Marked(t, pid, exited, stat);
      MarkedOk(t, history, lines, lock, running, lastPid, pid, exited, stat);
      DebtsMarked(t, lock, owed, failed, running, lastPid, pid, exited, stat);
      if Watched() { BooksFrame(t, u, listenfd, allset, maxfd, maxi); }
      hide Marked;
      RecordExit(pid, exited, stat);
      WithOnly(failed, pid, now);
      running, failed, owed := running - {pid}, With(failed, pid, now), With(owed, pid, now);
      SinceSignal(a, Now(), pid, now);
    }

    /** The handler's two writes. */
    method RecordExit(pid: int, exited: bool, stat: int)
      modifies this`chldFlag, this`client
      ensures chldFlag && client == Marked(old(client), pid, exited, stat)
    {
      chldFlag := true;
      if exited {
        var ok := ClientSigchld(pid, stat);
      }
    }

    /** Any number of signals between two steps of the main program, which since a
        has worked on slot i only. */
    method Interrupt(ghost a: Moment, ghost i: int)
      requires Steady() && Since(a, Now(), i)
      modifies this`chldFlag, this`failed, this`owed, this`running, this`client
      ensures Steady() && (old(Watched()) ==> Watched()) && running <= old(running)
      ensures Since(a, Now(), i) && Alike(old(client), client) && |client| == |a.client|
      ensures Since(old(Now()), Now(), -1) && (old(chldFlag) ==> chldFlag)
      ensures !chldFlag ==> client == old(client) && running == old(running)
      ensures forall j :: 0 <= j < |client| && old(client)[j].pid !in old(running) ==> client[j] == old(client)[j]
      ensures forall q <- failed :: q in old(failed) || q in old(running)
    {
      hide With, Less, DealtOf, Cross, Books, Histories, Budget, Debts, Since;
      ghost var b := Now();
      SinceRefl(b, -1);
      var signals: nat := *;
      while signals > 0
        invariant Steady() && (old(Watched()) ==> Watched()) && running <= old(running)
        invariant Since(b, Now(), -1) && Alike(old(client), client)
        invariant !chldFlag ==> client == old(client) && running == old(running)
        invariant forall j :: 0 <= j < |client| && old(client)[j].pid !in old(running) ==> client[j] == old(client)[j]
        invariant forall q <- failed :: q in old(failed) || q in old(running)
        decreases signals
      {
        var pid: int, exited: bool, status: nat := *, *, *;
        if pid in running {
          ghost var c := Now();
          SigChld(pid, exited, status + 1);
          SinceTrans(b, c, Now(), -1);
        }
        signals := signals - 1;
      }
      SinceTrans(a, b, Now(), i);
      SinceKept(b, Now(), -1);
    }

    // -------------------------------------------------------------- sysfile.c, devfile.c

    method SysNext() returns (r: NextLine)
      requires posn <= |lines|
      modifies this`posn
      ensures r == NextFrom(lines, old(posn)) && posn <= |lines|
      ensures r.Found? ==> posn == r.ftell
    {
      while posn < |lines|
        invariant posn <= |lines| && NextFrom(lines, posn) == NextFrom(lines, old(posn))
      {
        var line := lines[posn];
        posn := posn + 1;
        match line {
          case Malformed => return Fatal;
          case Entry(e) => return Found(e, posn);
          case _ =>
        }
      }
      r := Eof;
    }

    method DevFind(typ: string, class_: string) returns (d: Option<string>)
      ensures d == FindDev(devs, typ, class_)
      ensures d.None? <==> forall j :: 0 <= j < |devs| ==> !Serves(devs[j], typ, class_)
      ensures d.Some? ==> exists j :: 0 <= j < |devs| && Serves(devs[j], typ, class_) && d.value == devs[j].line
                                      && forall h :: 0 <= h < j ==> !Serves(devs[h], typ, class_)
    {
      FindDevFirst(devs, typ, class_);
      var k := 0;
      while k < |devs|
        invariant k <= |devs| && FindDev(devs[k..], typ, class_) == FindDev(devs, typ, class_)
      {
        if devs[k].typ == typ && devs[k].class_ == class_ { return Some(devs[k].line); }
        k := k + 1;
      }
      d := None;
    }

    // -------------------------------------------------------------- request.c

    /** The search that a request of slot i makes now. */
    function Outcome(i: nat): Search
      reads this`client, this`lock
      requires i < |client| && 0 <= client[i].sysftell <= |lines|
    {
      var x := client[i];
      SearchFrom(lines, devs, lock, x.sysname, x.speed, x.sysftell, x.foundone, Empty)
    }

    lemma SameRefl(l: seq<LockEntry>)
      ensures SameHolders(l, l)
    {}

    lemma SameTrans(l: seq<LockEntry>, m: seq<LockEntry>, n: seq<LockEntry>)
      requires SameHolders(l, m) && SameHolders(m, n)
      ensures SameHolders(l, n)
    {}

    ghost predicate SameHolders(l: seq<LockEntry>, m: seq<LockEntry>) { forall line :: Holder(l, line) == Holder(m, line) }

    /** The search of client i moves on: `cliptr->sysftell` or `foundone` is set. */
    method SetCursor(i: nat, ftell: int, found: int)
      requires Valid() && i < |client| && Unlocked(client[i], lock) && client[i].childdone == 0 && client[i].sysftell >= 0
      requires ftell == -1 || client[i].sysftell <= ftell <= |lines|
      modifies this`client
      ensures Valid() && client == old(client)[i := old(client)[i].(sysftell := ftell, foundone := found)]
      ensures Now() == old(Now()).(client := client, left := Measure()) && Since(old(Now()), Now(), i)
      ensures old(client)[i].fd >= 0 && ftell > old(client)[i].sysftell ==> Measure() + 2 <= old(Measure())
    {
      hide With, Less, DealtOf, Cross, Books, Histories, Budget, Holds, Debts, Since;
      ghost var a, t, x := Now(), client, client[i].(sysftell := ftell, foundone := found);
      DebtsFrame(t, t[i := x], owed, failed, running, lastPid, running, lastPid);
      CursorOk(t, history, lines, lock, running, lastPid, i, x);
      SinceSlot(a, i, x, Budget(t[i := x], |lines|) + |running|);
      BooksFrame(t, t[i := x], listenfd, allset, maxfd, maxi);
      client := client[i := client[i].(sysftell := ftell, foundone := found)];
      assert client == t[i := x];
    }

    /** fork(), then lock_set while the child waits, then TELL_CHILD; only then can
        the child exit. */
    method Fork(i: nat, line: string, ghost k: nat)
      requires Valid() && i < |client| == |history| && client[i].fd >= 0 && client[i].sysftell == k + 1
      requires Unlocked(client[i], lock) && Holder(lock, line) == 0
      requires MatchAt(lines, k, client[i].sysname, client[i].speed) && forall a <- history[i] :: a < k
      modifies this`client, this`history, this`lock, this`lockSize, this`running, this`lastPid, this`chldFlag, this`failed, this`owed
      ensures Valid() && Now().left <= old(Now()).left + 1 && Signals(old(Now()), Now(), i)
      ensures lastPid == old(lastPid) + 1 != 0 && lastPid in running && running <= old(running) + {lastPid}
      ensures i < |client| && client[i] == old(client)[i].(pid := lastPid)
      ensures history == old(history)[i := old(history)[i] + [k]]
      ensures forall l :: Holder(lock, l) == if l == line then lastPid else Holder(old(lock), l)
    {
      hide With, Less, DealtOf, Cross, Books, Histories, Budget, Holder, Locked, Holds, Since, Signals, Debts, Unlocked;
      ghost var a := Now();
      IdleSlot(client, lock, running, lastPid, i);
      SinceRefl(a, i);
      Interrupt(a, i);
      Forked(a, i, k);
      Interrupt(a, i);
      DialCross(client, lock, running, lastPid, i, line);
      LockSet(line, client[i].pid);
      Interrupt(a, i);
      TellCross(client, lock, running, lastPid, i);
      DebtsFrame(client, client, owed, failed, running, lastPid, running + {client[i].pid}, lastPid);
      SinceForked(a, Now(), i, client[i].pid);
      running := running + {client[i].pid};
    }

    /** fork() in the parent: a pid that was never used. */
    method Forked(ghost a: Moment, i: nat, ghost k: nat)
      requires Valid() && i < |client| == |history| && Unlocked(client[i], lock) && client[i].sysftell == k + 1
      requires MatchAt(lines, k, client[i].sysname, client[i].speed) && forall b <- history[i] :: b < k
      requires Since(a, Now(), i) && a.lastPid == lastPid
      modifies this`client, this`history, this`lastPid
      ensures Valid() && Since(a, Now(), i) && lastPid == old(lastPid) + 1 > 0
      ensures client == old(client)[i := old(client)[i].(pid := lastPid)] && history == old(history)[i := old(history)[i] + [k]]
      ensures Unlocked(client[i], lock) && lastPid !in running && lastPid !in failed
    {
      hide With, Less, DealtOf, Cross, Books, Histories, Budget, Holds, Debts;
      IdleSlot(client, lock, running, lastPid, i);
      ghost var t, pid := client, lastPid + 1;
      ghost var u := t[i := t[i].(pid := pid)];
      ForkCross(t, lock, running, lastPid, i, u[i]);
      FreshPid(t, lock, running, lastPid);
      ForkedOk(t, history, lines, i, pid, k);
      BooksFrame(t, u, listenfd, allset, maxfd, maxi);
      DebtsSlot(t, lock, owed, failed, running, lastPid, i);
      DebtsFrame(t, u, owed, failed, running, lastPid, running, pid);
      lastPid := lastPid + 1;
      client := client[i := client[i].(pid := lastPid)];
      history := history[i := history[i] + [k]];
      assert client == u;
    }

    /** `cliptr->sysftell = sys_next(&systems)` */
    method NextEntry(i: nat) returns (next: NextLine)
      requires Valid() && i < |client| && client[i].fd >= 0 && Unlocked(client[i], lock) && client[i].sysftell == posn
      modifies this`client, this`posn, this`chldFlag, this`failed, this`owed, this`running
      ensures Valid() && next == NextFrom(lines, old(posn))
      ensures Since(old(Now()), Now(), i) && |client| == |old(client)|
      ensures Unlocked(client[i], lock)
      ensures next.Fatal? ==> client[i] == old(client)[i]
      ensures next.Eof? ==> client[i] == old(client)[i].(sysftell := -1)
      ensures next.Found? ==> client[i] == old(client)[i].(sysftell := next.ftell) && posn == next.ftell && Now().left + 2 <= old(Now()).left
      ensures next.Found? ==> old(posn) < next.ftell <= |lines| && lines[next.ftell - 1] == Entry(next.e)
    {
      hide With, Less, DealtOf, Cross, Books, Histories, Budget, Holder, Holds, Since, Debts;
      ghost var a, p := Now(), posn;
      IdleSlot(client, lock, running, lastPid, i);
      SinceRefl(a, i);
      Interrupt(a, i);
      next := SysNext();
      assert next == NextFrom(lines, p);
      Interrupt(a, i);
      ghost var b := Now();
      SinceLeft(a, b, i);
      if next.Eof? {
        SetCursor(i, -1, client[i].foundone);
        SinceTrans(a, b, Now(), i);
      } else if next.Found? {
        SetCursor(i, next.ftell, client[i].foundone);
        SinceTrans(a, b, Now(), i);
      }
    }

    /** A matching entry is counted, and its device is looked up in the file and
        then in the lock table. */
    method LookUp(i: nat, e: SysEntry) returns (d: Option<string>, pid: int)
      requires Valid() && i < |client| && Unlocked(client[i], lock) && 0 <= client[i].sysftell <= |lines|
      modifies this`client, this`lock, this`lockSize, this`chldFlag, this`failed, this`owed, this`running
      ensures Valid()
      ensures Since(old(Now()), Now(), i) && |client| == |old(client)|
      ensures client[i] == old(client)[i].(foundone := old(client)[i].foundone + 1)
      ensures Unlocked(client[i], lock) && SameHolders(lock, old(lock))
      ensures d == FindDev(devs, e.typ, e.class_) && (d.Some? ==> pid == Holder(lock, d.value))
    {
      hide With, Less, DealtOf, Cross, Books, Histories, Budget, Holder, WithLine, FindDev, Holds, Since, Debts;
      ghost var a := Now();
      IdleSlot(client, lock, running, lastPid, i);
      SinceRefl(a, i);
      Interrupt(a, i);
      ghost var b := Now();
      SetCursor(i, client[i].sysftell, client[i].foundone + 1);
      SinceTrans(a, b, Now(), i);
      d := DevFind(e.typ, e.class_);
      pid := 0;
      Interrupt(a, i);
      if d.Some? {
        WithLineCross(client, lock, running, lastPid, d.value);
        pid := IsLocked(d.value);
        Interrupt(a, i);
      }
    }

    /** The search of client x from position p with the given count and message. */
    function SearchAt(l: seq<LockEntry>, x: Client, p: nat, msg: Msg): Search
      requires p <= |lines|
    {
      SearchFrom(lines, devs, l, x.sysname, x.speed, p, x.foundone, msg)
    }

    /** The entry just read, if it matches: the search ends, or goes on after it. */
    method TryEntry(i: nat, e: SysEntry) returns (r: Option<Search>)
      requires Valid() && i < |client| && Unlocked(client[i], lock)
      requires client[i].sysftell == posn > 0 && lines[posn - 1] == Entry(e)
      modifies this`client, this`lock, this`lockSize, this`errmsg, this`chldFlag, this`failed, this`owed, this`running
      ensures Valid() && Unlocked(client[i], lock) && SameHolders(lock, old(lock))
      ensures Since(old(Now()), Now(), i) && |client| == |old(client)|
      ensures r.None? ==>
                && client[i] == old(client)[i].(foundone := client[i].foundone)
                && SearchAt(old(lock), old(client)[i], posn - 1, old(errmsg)) == SearchAt(old(lock), client[i], posn, errmsg)
      ensures r.Some? ==> r.value == SearchAt(old(lock), old(client)[i], posn - 1, old(errmsg)) && Ended(i, old(client)[i], r.value)
      ensures r.Some? && r.value.Dial? ==> r.value.at == posn - 1
    {
      hide With, DealtOf, Tables, Watched, Dialled, Recorded, Holder, SearchFrom, FindDev, Unlocked, Since;
      ghost var l, x := lock, client[i];
      SearchEntry(lines, devs, l, x.sysname, x.speed, posn, e, x.foundone, errmsg);
      SinceRefl(Now(), i);
      SameRefl(l);
      r := None;
      if client[i].sysname == e.name && (client[i].speed == "" || client[i].speed == e.class_) {
        var d, pid := LookUp(i, e);
        if d.None? {
          errmsg := NoDevice(e.typ, e.class_);
          r := Some(GiveUp(client[i].sysftell, client[i].foundone, errmsg));
        } else if pid != 0 {
          errmsg := AlreadyLocked(d.value, pid);
        } else {
          r := Some(Dial(posn - 1, d.value, client[i].foundone, errmsg));
        }
      }
    }

    /** One turn of request()'s loop over the Systems file. */
    method SearchTurn(i: nat) returns (r: Option<Search>)
      requires Valid() && i < |client| && client[i].fd >= 0
      requires Unlocked(client[i], lock) && client[i].sysftell == posn
      modifies this`client, this`lock, this`lockSize, this`posn, this`errmsg, this`chldFlag, this`failed, this`owed, this`running
      ensures Valid() && Unlocked(client[i], lock) && SameHolders(lock, old(lock))
      ensures Since(old(Now()), Now(), i) && |client| == |old(client)|
      ensures r.None? ==>
                && client[i] == old(client)[i].(sysftell := posn, foundone := client[i].foundone) && posn > old(posn)
                && SearchAt(old(lock), old(client)[i], old(posn), old(errmsg)) == SearchAt(old(lock), client[i], posn, errmsg)
      ensures r.Some? ==> r.value == SearchAt(old(lock), old(client)[i], old(posn), old(errmsg)) && Ended(i, old(client)[i], r.value)
      ensures r.Some? && r.value.Dial? ==> Now().left + 2 <= old(Now()).left && old(posn) <= r.value.at
    {
      hide With, DealtOf, Tables, Watched, Dialled, Recorded, Holder, SearchFrom, NextFrom, Unlocked, Since, Measure;
      ghost var a, l, x := Now(), lock, client[i];
      SearchSkips(lines, devs, l, x.sysname, x.speed, posn, x.foundone, errmsg);
      SameRefl(l);
      var next := NextEntry(i);
      ghost var b := Now();
      if next.Fatal? {
        r := Some(Quit);
      } else if next.Eof? {
        r := Some(GiveUp(-1, client[i].foundone, errmsg));
      } else {
        r := TryEntry(i, next.e);
        SinceTrans(a, b, Now(), i);
        SinceLeft(b, Now(), i);
      }
    }

    /** What a finished search of slot i, which was x, has left there. */
    ghost predicate Ended(i: nat, x: Client, r: Search)
      reads this`client, this`lock, this`errmsg
    {
      i < |client| && (!r.Quit? ==>
        && client[i] == x.(sysftell := if r.Dial? then r.at + 1 else r.ftell, foundone := r.found)
        && errmsg == r.msg
        && (r.Dial? ==> MatchAt(lines, r.at, x.sysname, x.speed) && Holder(lock, r.line) == 0))
    }

    /** request()'s loop over the Systems file, up to the entry it will dial or the
        place where it gives up; signals come between any two statements. */
    method SearchLoop(i: nat) returns (r: Search)
      requires Valid() && i < |client| && client[i].fd >= 0
      requires Unlocked(client[i], lock) && 0 <= client[i].sysftell <= |lines|
      modifies this`client, this`lock, this`lockSize, this`posn, this`errmsg, this`chldFlag, this`failed, this`owed, this`running
      ensures Valid() && r == old(Outcome(i)) && Unlocked(client[i], lock) && SameHolders(lock, old(lock))
      ensures Since(old(Now()), Now(), i) && |client| == |old(client)|
      ensures Ended(i, old(client)[i], r)
      ensures r.Dial? ==> old(client)[i].sysftell <= r.at && Now().left + 2 <= old(Now()).left
    {
      ghost var a, l, x, whole := Now(), lock, client[i], Outcome(i);
      assert SearchAt(l, x, x.sysftell, Empty) == whole;
      hide With, DealtOf, Tables, Watched, Dialled, Recorded, Holder, SearchAt, Outcome, Unlocked, SameHolders, Since, Measure, Ended;
      errmsg := Empty;
      posn := client[i].sysftell;
      SinceRefl(a, i);
      SameRefl(l);
      while true
        invariant Valid() && i < |client| == |a.client| && x.sysftell <= posn
        invariant client[i] == x.(sysftell := posn, foundone := client[i].foundone)
        invariant Since(a, Now(), i) && Unlocked(client[i], lock) && SameHolders(lock, l)
        invariant SearchAt(l, client[i], posn, errmsg) == whole
        decreases |lines| - posn
      {
        ghost var b, lk, p, y, msg := Now(), lock, posn, client[i], errmsg;
        var end := SearchTurn(i);
        SinceTrans(a, b, Now(), i);
        SinceLeft(a, b, i);
        SameTrans(lock, lk, l);
        SearchSame(lk, l, y, p, msg);
        if end.Some? {
          EndedLater(i, x, y, end.value);
          return end.value;
        }
        SearchSame(lk, l, client[i], posn, errmsg);
      }
    }

    lemma EndedLater(i: nat, x: Client, y: Client, r: Search)
      requires y == x.(sysftell := y.sysftell, foundone := y.foundone) && Ended(i, y, r)
      ensures Ended(i, x, r)
    {}

    lemma SearchSame(l: seq<LockEntry>, m: seq<LockEntry>, x: Client, p: nat, msg: Msg)
      requires p <= |lines| && SameHolders(l, m)
      ensures SearchAt(l, x, p, msg) == SearchAt(m, x, p, msg)
    {
      SearchFrame(lines, devs, l, m, x.sysname, x.speed, p, x.foundone, msg);
    }

    /** What the client is told when its request fails. */
    function Reason(sysname: string, found: int, msg: Msg): Msg {
      if found == 0 then NotFound(sysname) else if msg == Empty then Unable(sysname) else msg
    }

    /** Dials the next usable entry, or gives up; rc as the C function returns it. */
    method RequestStep(i: nat) returns (rc: int, quit: bool)
      requires Valid() && i < |client| && client[i].fd >= 0
      requires Unlocked(client[i], lock) && 0 <= client[i].sysftell <= |lines|
      modifies this`client, this`history, this`lock, this`lockSize, this`posn, this`errmsg, this`running, this`lastPid, this`chldFlag, this`failed, this`owed
      ensures Valid() && (quit <==> old(Outcome(i)).Quit?)
      ensures Since(old(Now()), Now(), i) && |client| == |old(client)|
      ensures !quit ==> rc == if old(Outcome(i)).Dial? then 0 else -1
      ensures !quit && rc == 0 ==>
                var (x, r) := (old(client)[i], old(Outcome(i)));
                && lastPid == old(lastPid) + 1 != 0 && lastPid in running && running <= old(running) + {lastPid}
                && client[i] == x.(pid := lastPid, sysftell := r.at + 1, foundone := r.found)
                && history == old(history)[i := old(history)[i] + [r.at]]
                && (forall line :: Holder(lock, line) == if line == r.line then lastPid else Holder(old(lock), line))
      ensures !quit && rc == -1 ==>
                var (x, r) := (old(client)[i], old(Outcome(i)));
                && client[i] == x.(sysftell := r.ftell, foundone := r.found)
                && running <= old(running) && lastPid == old(lastPid) && history == old(history)
                && SameHolders(lock, old(lock)) && Unlocked(client[i], lock) && errmsg == Reason(x.sysname, r.found, r.msg)
    {
      hide With, Less, DealtOf, Cross, Books, Histories, Budget, Holder, SearchFrom, Holds, Since, Debts;
      ghost var a := Now();
      HistoriesLen(lines, client, history);
      HistoryBelow(lines, client, history, i);
      var r := SearchLoop(i);
      quit := r.Quit?;
      if quit { return -1, true; }
      SinceKept(a, Now(), i);
      if r.Dial? {
        ghost var b := Now();
        Fork(i, r.line, r.at);
        SinceDialled(a, b, Now(), i);
        rc := 0;
      } else {
        IdleSlot(client, lock, running, lastPid, i);
        if client[i].foundone == 0 {
          errmsg := NotFound(client[i].sysname);
        } else if errmsg == Empty {
          errmsg := Unable(client[i].sysname);
        }
        Interrupt(a, i);
        SinceKept(a, Now(), i);
        rc := -1;
      }
    }

    // -------------------------------------------------------------- loop.c

    method CliDone(fd: int) returns (quit: bool)
      requires Valid() && fd >= 0 && FdIndex(client, fd) < |client|
      requires Unlocked(client[FdIndex(client, fd)], lock)
      modifies this`client, this`allset, this`chldFlag, this`failed, this`owed, this`running
      ensures !quit && Valid() && allset == old(allset) - {fd} && running <= old(running) && |client| == |old(client)|
      ensures var i := FdIndex(old(client), fd);
              Since(old(Now()), Now(), i) && client[i] == old(client)[i].(fd := -1)
    {
      hide With, Less, DealtOf, Cross, Books, Histories, Budget, Holds, FdIndex, Debts, Since;
      ghost var a, t, i := Now(), client, FdIndex(client, fd);
      ghost var u := t[i := t[i].(fd := -1)];
      IdleSlot(t, lock, running, lastPid, i);
      DropCross(t, lock, running, lastPid, i);
      DropBooks(t, listenfd, allset, maxfd, maxi, i);
      DropHistories(t, history, lines, i);
      DebtsFrame(t, u, owed, failed, running, lastPid, running, lastPid);
      SinceSlot(a, i, u[i], Budget(u, |lines|) + |running|);
      var ok := ClientDel(fd);
      assert client == u;
      quit := !ok;
      Interrupt(a, i);
      BooksFrame(u, client, listenfd, allset - {fd}, maxfd, maxi);
      allset := allset - {fd};
      Interrupt(a, i);
    }

    /** `cliptr->childdone = 0`; a failure is taken up. */
    method ClearDone(i: nat)
      requires Valid() && i < |client|
      modifies this`client, this`owed
      ensures Valid() && client == old(client)[i := old(client)[i].(childdone := 0)] && Measure() == old(Measure())
      ensures owed == Less(old(owed), old(client)[i].pid) && (old(client)[i].childdone > 1 <==> old(client)[i].pid in old(owed))
    {
      hide With, Less, DealtOf, Cross, Books, Histories, Budget, Debts;
      ghost var t, x := client, client[i].(childdone := 0);
      ClearOk(t, history, lines, lock, running, lastPid, i);
      BooksFrame(t, t[i := x], listenfd, allset, maxfd, maxi);
      DebtsSlot(t, lock, owed, failed, running, lastPid, i);
      if t[i].childdone > 1 {
        DebtsTaken(t, lock, owed, failed, running, lastPid, i);
      } else {
        LessSame(owed, t[i].pid);
        DebtsFrame(t, t[i := x], owed, failed, running, lastPid, running, lastPid);
      }
      owed := Less(owed, client[i].pid);
      client := client[i := client[i].(childdone := 0)];
      assert client == t[i := x];
    }

    /** lock_rel for the client of slot i, whose child is gone. */
    method Unlock(i: nat)
      requires Valid() && i < |client| && client[i].pid !in running && client[i].childdone == 0
      modifies this`lock
      ensures Valid() && lock == Released(old(lock), client[i].pid) && Unlocked(client[i], lock)
    {
      hide Books, Histories, Budget;
      ReleaseCross(client, lock, running, lastPid, i);
      LockRel(client[i].pid);
    }

    /** The search made for a client whose child failed: its device is released first. */
    function Retry(x: Client, l: seq<LockEntry>): Search {
      if 0 <= x.sysftell <= |lines|
      then SearchFrom(lines, devs, Released(l, x.pid), x.sysname, x.speed, x.sysftell, x.foundone, Empty)
      else Quit
    }

    /** The client is dialled for again, or it is given up; a new child may have
        exited already. */
    ghost predicate RetriedTo(x: Client, y: Client, l: seq<LockEntry>, m: seq<LockEntry>) {
      match Retry(x, l)
      case Quit => false
      case Dial(at, line, found, _) =>
        && y == x.(pid := y.pid, sysftell := at + 1, foundone := found, childdone := y.childdone) && y.pid != x.pid
        && forall l' :: Holder(m, l') == if l' == line then y.pid else Holder(Released(l, x.pid), l')
      case GiveUp(ftell, found, _) =>
        y == x.(fd := -1, childdone := 0, sysftell := ftell, foundone := found) && SameHolders(m, Released(l, x.pid))
    }

    ghost predicate Retried(x: Client, y: Client, l: seq<LockEntry>, m: seq<LockEntry>, all: set<int>, all': set<int>, pid: int) {
      && RetriedTo(x, y, l, m)
      && match Retry(x, l)
         case Dial(_, _, _, _) => y.pid == pid && all' == all
         case _ => all' == all - {x.fd}
    }

    /** The act is what the program does in such a case. */
    ghost predicate ActOk(a: Act) {
      match a.kind
      case Again => a.x.childdone > 1 && RetriedTo(a.x, a.y, a.l, a.m)
      case Hangup => a.y == a.x.(fd := -1, childdone := 0) && SameHolders(a.m, Released(a.l, a.x.pid))
      case Ask(sysname, speed) => RequestedTo(a.x, sysname, speed, a.y, a.l, a.m)
    }

    /** The message to the client, if the act gives it up. */
    function ReplyOf(a: Act): seq<(int, Msg)> {
      match a.kind
      case Hangup => []
      case Again => ReplyTo(a.x.fd, a.x.sysname, Retry(a.x, a.l))
      case Ask(sysname, speed) => ReplyTo(a.x.fd, sysname, SearchFrom(lines, devs, a.l, sysname, speed, 0, 0, Empty))
    }

    function ReplyTo(fd: int, sysname: string, r: Search): seq<(int, Msg)> {
      if r.GiveUp? then [(fd, Reason(sysname, r.found, r.msg))] else []
    }

    function Replies(log: seq<Act>): seq<(int, Msg)> {
      if log == [] then [] else Replies(log[..|log| - 1]) + ReplyOf(log[|log| - 1])
    }

    /** Each act starts from where the ones before it have led. */
    ghost predicate Linked(t: seq<Client>, l: seq<LockEntry>, log: seq<Act>) {
      forall k :: 0 <= k < |log| ==> StartsAt(log[k], After(t, log[..k]), LockAfter(l, log[..k])) && ActOk(log[k])
    }

    ghost predicate StartsAt(a: Act, u: seq<Client>, m: seq<LockEntry>) {
      a.i < |u| && a.x == u[a.i].(childdone := a.x.childdone) && SameHolders(m, a.l)
    }

    /** The acts, and recorded exits, lead from (t, l) to (u, m). */
    ghost predicate Chained(t: seq<Client>, l: seq<LockEntry>, log: seq<Act>, u: seq<Client>, m: seq<LockEntry>) {
      Linked(t, l, log) && Alike(After(t, log), u) && SameHolders(LockAfter(l, log), m)
    }

    lemma ChainRefl(t: seq<Client>, l: seq<LockEntry>)
      ensures Chained(t, l, [], t, l)
    {}

    lemma ChainQuiet(t: seq<Client>, l: seq<LockEntry>, log: seq<Act>, u: seq<Client>, m: seq<LockEntry>, v: seq<Client>, n: seq<LockEntry>)
      requires Chained(t, l, log, u, m) && Alike(u, v) && SameHolders(m, n)
      ensures Chained(t, l, log, v, n)
    {}

    lemma ChainAct(t: seq<Client>, l: seq<LockEntry>, log: seq<Act>, u: seq<Client>, m: seq<LockEntry>, a: Act, v: seq<Client>)
      requires Chained(t, l, log, u, m) && StartsAt(a, u, m) && ActOk(a)
      requires |v| == |u| && v[a.i] == a.y && forall j :: 0 <= j < |u| && j != a.i ==> v[j] == u[j].(childdone := v[j].childdone)
      ensures Chained(t, l, log + [a], v, a.m)
    {
      hide ActOk;
      var more := log + [a];
      assert more[..|log|] == log;
      forall k | 0 <= k < |more| ensures StartsAt(more[k], After(t, more[..k]), LockAfter(l, more[..k])) && ActOk(more[k]) {
        if k < |log| { assert more[..k] == log[..k]; }
      }
    }

    /** The start may be moved back over recorded exits. */
    lemma ChainFrom(t: seq<Client>, l: seq<LockEntry>, t': seq<Client>, l': seq<LockEntry>, log: seq<Act>, u: seq<Client>, m: seq<LockEntry>)
      requires Alike(t, t') && SameHolders(l, l') && Chained(t', l', log, u, m)
      ensures Chained(t, l, log, u, m)
    {
      hide ActOk;
      forall k | 0 <= k < |log| ensures StartsAt(log[k], After(t, log[..k]), LockAfter(l, log[..k])) && ActOk(log[k]) {
        AfterAlike(t, t', log[..k]);
        assert StartsAt(log[k], After(t', log[..k]), LockAfter(l', log[..k]));
      }
      AfterAlike(t, t', log);
    }

    /** The child of slot i failed: clear the flag, release the device, try again. */
    method TryAgain(i: nat) returns (quit: bool)
      requires Valid() && i < |client| && client[i].childdone > 1
      modifies this
      ensures -1 <= old(client)[i].sysftell <= |lines| && (quit <==> Retry(old(client)[i], old(lock)).Quit?)
      ensures !quit ==> Valid() && maxi == old(maxi)
      ensures !quit ==> Retried(old(client)[i], client[i], old(lock), lock, old(allset), allset, lastPid)
      ensures !quit ==> lastPid == old(lastPid) + if Retry(old(client)[i], old(lock)).Dial? then 1 else 0
      ensures Since(Settled(old(Now()), old(client)[i].pid), Now(), i) && |client| == |old(client)|
      ensures old(client)[i].pid in old(owed) && old(client)[i].pid in failed && lastPid >= old(lastPid) && (old(chldFlag) ==> chldFlag)
      ensures !quit && !chldFlag ==> client[i].childdone == 0
      ensures received == old(received)
      ensures !quit ==> replies == old(replies) + ReplyTo(old(client)[i].fd, old(client)[i].sysname, Retry(old(client)[i], old(lock)))
      ensures !quit ==> history == Extended(old(history), i, Retry(old(client)[i], old(lock)))
    {
      hide Tables, Watched, Dialled, Recorded, Measure, Since, With, DealtOf, Holds, Released, FdIndex, SearchFrom, Holder;
      ghost var a := Settled(Now(), client[i].pid);
      SlotValid(i);
      TakeUp(i);
      quit := RequestOrGiveUp(i, a);
      SinceKept(a, Now(), i);
    }

    /** `childdone = 0` and lock_rel for a failure. */
    method TakeUp(i: nat)
      requires Valid() && i < |client| && client[i].childdone > 1
      modifies this`client, this`lock, this`chldFlag, this`failed, this`owed, this`running
      ensures Valid() && client[i] == old(client)[i].(childdone := 0) && lock == Released(old(lock), client[i].pid) && Unlocked(client[i], lock)
      ensures Since(Settled(old(Now()), client[i].pid), Now(), i) && |client| == |old(client)|
      ensures client[i].pid in old(owed) && client[i].pid in old(failed)
    {
      hide With, Less, DealtOf, Cross, Books, Histories, Budget, Holds, Released, Debts, Since;
      ghost var a := Settled(Now(), client[i].pid);
      SlotFacts(client, history, lines, lock, running, lastPid, i);
      DebtsSlot(client, lock, owed, failed, running, lastPid, i);
      SinceSlot(a, i, client[i].(childdone := 0), Measure());
      TakenUp(failed, owed, client[i].pid);
      ClearDone(i);
      Interrupt(a, i);
      Unlock(i);
      Interrupt(a, i);
    }

    /** `if (request(cliptr) < 0)`: the client is told why and given up. */
    method RequestOrGiveUp(i: nat, ghost a: Moment) returns (quit: bool)
      requires Valid() && i < |client| && client[i].fd >= 0
      requires Unlocked(client[i], lock) && 0 <= client[i].sysftell <= |lines| && Since(a, Now(), i)
      modifies this
      ensures quit <==> old(Outcome(i)).Quit?
      ensures Since(a, Now(), i) && |client| == |old(client)| == |a.client| && received == old(received)
      ensures !quit ==> Valid() && maxi == old(maxi)
      ensures !quit && old(Outcome(i)).Dial? ==>
                var (x, r) := (old(client)[i], old(Outcome(i)));
                && lastPid == old(lastPid) + 1 != 0 && allset == old(allset) && replies == old(replies)
                && client[i] == x.(pid := lastPid, sysftell := r.at + 1, foundone := r.found, childdone := client[i].childdone)
                && (!chldFlag ==> client[i].childdone == 0)
                && i < |old(history)| && history == old(history)[i := old(history)[i] + [r.at]]
                && (forall line :: Holder(lock, line) == if line == r.line then lastPid else Holder(old(lock), line))
      ensures !quit && old(Outcome(i)).GiveUp? ==>
                var (x, r) := (old(client)[i], old(Outcome(i)));
                && lastPid == old(lastPid) && allset == old(allset) - {x.fd} && history == old(history)
                && replies == old(replies) + [(x.fd, Reason(x.sysname, r.found, r.msg))]
                && client[i] == x.(fd := -1, sysftell := r.ftell, foundone := r.found) && client[i].childdone == 0
                && SameHolders(lock, old(lock))
    {
      hide Tables, Watched, Dialled, Recorded, Measure, Since, With, DealtOf, Holds, FdIndex, Holder, Outcome;
      IdleValid(i);
      SlotValid(i);
      ghost var b := Now();
      var rc;
      rc, quit := RequestStep(i);
      SinceTrans(a, b, Now(), i);
      if quit { return; }
      if rc == 0 {
        Interrupt(a, i);
      } else {
        GiveClientUp(i, a);
      }
    }

    /** send_err and cli_done. */
    method GiveClientUp(i: nat, ghost a: Moment)
      requires Valid() && i < |client| && client[i].fd >= 0 && Unlocked(client[i], lock) && Since(a, Now(), i)
      modifies this`client, this`replies, this`allset, this`chldFlag, this`failed, this`owed, this`running
      ensures Valid() && Since(a, Now(), i) && |client| == |old(client)| == |a.client|
      ensures client[i] == old(client)[i].(fd := -1) && client[i].childdone == 0 && allset == old(allset) - {old(client)[i].fd}
      ensures replies == old(replies) + [(old(client)[i].fd, errmsg)]
    {
      hide Tables, Watched, Dialled, Recorded, Measure, Since, With, DealtOf, Holds, FdIndex;
      IdleValid(i);
      Interrupt(a, i);
      replies := replies + [(client[i].fd, errmsg)];
      FdValid(i);
      ghost var b := Now();
      var quit := CliDone(client[i].fd);
      SinceTrans(a, b, Now(), i);
    }

    ghost function Settled(a: Moment, pid: int): Moment { a.(dealt := With(a.dealt, pid, true)) }

    lemma TakenUp(failed: set<int>, owed: set<int>, p: int)
      requires p in owed && owed <= failed
      ensures DealtOf(failed, Less(owed, p)) == With(DealtOf(failed, owed), p, true)
    {}

    function Extended(h: seq<seq<nat>>, i: nat, r: Search): seq<seq<nat>> {
      if r.Dial? && i < |h| then h[i := h[i] + [r.at]] else h
    }

    /** One turn of child_done()'s loop, with signals between any two steps.  Only
        slot i and the slots of children that exit meanwhile can change; a failure
        found there is taken up, and nothing else happens to locks and replies. */
    method Visit(i: nat) returns (quit: bool, ghost act: Option<Act>)
      requires Valid() && i < |client|
      modifies this
      ensures Since(if act.Some? then Settled(old(Now()), act.value.x.pid) else old(Now()), Now(), i) && |client| == |old(client)|
      ensures received == old(received) && lastPid >= old(lastPid) && (old(chldFlag) ==> chldFlag)
      ensures !quit ==> Valid() && maxi == old(maxi) && (!chldFlag ==> client[i].childdone == 0)
      ensures act.None? ==> !quit && lock == old(lock) && Alike(old(client), client) && history == old(history) && replies == old(replies)
      ensures act.Some? ==>
                var a := act.value;
                && StartsAt(a, old(client), old(lock)) && a.i == i && a.kind.Again? && a.l == old(lock)
                && a.x.childdone > 1 && a.x.pid in failed && (quit <==> Retry(a.x, a.l).Quit?)
      ensures !quit && act.Some? ==>
                var a := act.value;
                && ActOk(a) && a.y == client[i] && a.m == lock
                && history == Extended(old(history), i, Retry(a.x, a.l)) && replies == old(replies) + ReplyOf(a)
                && (if Retry(a.x, a.l).Dial? then a.y.pid == lastPid > old(lastPid) else lastPid == old(lastPid))
      ensures old(client)[i].childdone > 1 ==> act.Some? && act.value.x == old(client)[i]
      ensures old(client)[i].childdone == 1 ==> act.None?
      ensures !quit && old(client)[i].childdone == 0 && !chldFlag ==>
                client == old(client) && lock == old(lock) && running == old(running) && allset == old(allset)
      ensures !quit && old(client)[i].childdone == 1 ==>
                client[i] == old(client)[i].(childdone := 0) && lock == old(lock) && allset == old(allset)
      ensures !quit && old(client)[i].childdone > 1 ==>
                Retried(old(client)[i], client[i], old(lock), lock, old(allset), allset, lastPid)
    {
      hide Tables, Watched, Dialled, Recorded, Measure, Since, With, DealtOf, Holds, Released, FdIndex, Retry, RetriedTo, SameHolders;
      ghost var a := Now();
      quit, act := false, None;
      SlotValid(i);
      SinceRefl(a, i);
      SameRefl(lock);
      Interrupt(a, i);
      SlotValid(i);
      if client[i].fd < 0 { return; }
      if client[i].childdone != 0 {
        Interrupt(a, i);
        if client[i].childdone == 1 {
          ghost var b := Now();
          Success(i);
          SinceTrans(a, b, Now(), i);
          Interrupt(a, i);
          return;
        }
        ghost var b, x, l := Now(), client[i], lock;
        quit := TryAgain(i);
        act := Some(Act(i, Again, x, l, client[i], lock));
        SinceSettled(a, b, Now(), i, x.pid);
      }
    }

    /** The child dialled successfully: only the flag is cleared. */
    method Success(i: nat)
      requires Valid() && i < |client| && client[i].childdone == 1
      modifies this`client, this`owed
      ensures Valid() && client == old(client)[i := old(client)[i].(childdone := 0)] && Since(old(Now()), Now(), i)
    {
      hide With, Less, DealtOf, Cross, Books, Histories, Budget, Holds, Debts, Since;
      SinceSlot(Now(), i, client[i].(childdone := 0), Measure());
      DebtsSlot(client, lock, owed, failed, running, lastPid, i);
      LessSame(owed, client[i].pid);
      ClearDone(i);
    }

    lemma SinceSettled(a: Moment, b: Moment, c: Moment, i: int, pid: int)
      requires Since(a, b, i) && Since(Settled(b, pid), c, i)
      ensures Since(Settled(a, pid), c, i)
    {
      assert Since(Settled(a, pid), Settled(b, pid), i);
      SinceTrans(Settled(a, pid), Settled(b, pid), c, i);
    }

    ghost function Snapshot(): Snap
      reads this
    {
      Snap(client, history, lock, running, lastPid, failed, owed, replies)
    }

    lemma ValidTidy()
      requires Valid()
      ensures Tidy(Snapshot())
    {
      HistoriesLen(lines, client, history);
      forall i | 0 <= i < |client|
        ensures 0 <= client[i].pid <= lastPid && (client[i].childdone > 1 <==> client[i].pid in owed)
                && (client[i].childdone != 0 ==> client[i].pid != 0 && client[i].pid !in running && client[i].fd >= 0)
                && (client[i].childdone == 1 ==> client[i].pid !in failed)
      {
        SlotFacts(client, history, lines, lock, running, lastPid, i);
        DebtsSlot(client, lock, owed, failed, running, lastPid, i);
      }
    }

    /** From a to b the acts of the log dealt with the failures of their clients, one
        act each, and with nothing else. */
    ghost predicate Progress(a: Snap, log: seq<Act>, b: Snap) {
      && |a.history| == |a.client| && Onward(a, b) && Chained(a.client, a.lock, log, b.client, b.lock)
      && (forall e <- log :: e.kind.Again? && e.x.pid in b.failed && Holdless(b.lock, e.x.pid))
      && DealtOf(b.failed, b.owed) == DealtOf(a.failed, a.owed) + Pids(log)
      && b.replies == a.replies + Replies(log)
      && forall i :: 0 <= i < |a.client| ==> Fate(a, b, i)
    }

    lemma ProgressStarts(a: Snap)
      requires Tidy(a)
      ensures Progress(a, [], a)
    {
      ChainRefl(a.client, a.lock);
    }

    /** Exits are recorded, and flags of successful children cleared. */
    lemma QuietStep(a: Snap, log: seq<Act>, b: Snap, c: Snap)
      requires Tidy(a) && Tidy(b) && Progress(a, log, b) && Onward(b, c) && Alike(b.client, c.client)
      requires c.lock == b.lock && c.history == b.history && c.replies == b.replies && DealtOf(c.failed, c.owed) == DealtOf(b.failed, b.owed)
      ensures Progress(a, log, c)
    {
      hide Chained;
      SameRefl(b.lock);
      ChainQuiet(a.client, a.lock, log, b.client, b.lock, c.client, c.lock);
      forall i | 0 <= i < |a.client| ensures Fate(a, c, i) {
        assert Fate(a, b, i);
        assert a.client[i].pid in b.owed ==> a.client[i].pid in c.owed by {
          assert a.client[i].pid in b.owed ==> a.client[i].pid !in b.failed - b.owed;
        }
      }
    }

    /** What a retry does to the lines of its process, and of others. */
    lemma RetryLines(x: Client, y: Client, l: seq<LockEntry>, m: seq<LockEntry>, pid: int)
      requires LocksOk(l) && x.pid != 0 && RetriedTo(x, y, l, m) && pid != 0
      ensures Holdless(m, x.pid)
      ensures Holdless(l, pid) && (Retry(x, l).Dial? ==> pid != y.pid) ==> Holdless(m, pid)
      ensures pid != x.pid ==> HoldsOn(l, m, pid)
    {
      ReleasedHolder(l, x.pid);
      var r := Retry(x, l);
      if r.Dial? {
        SearchDialsFirst(lines, devs, Released(l, x.pid), x.sysname, x.speed, x.sysftell, x.foundone, Empty, r.at);
      }
      hide SearchFrom, Released, Holder;
    }

    /** The act e of child_done(), from b to c. */
    ghost predicate ActBetween(b: Snap, e: Act, c: Snap) {
      && Tidy(b) && Tidy(c) && LocksOk(b.lock) && Onward(b, c)
      && StartsAt(e, b.client, b.lock) && e.l == b.lock && e.kind.Again? && ActOk(e) && e.x.pid in c.failed
      && c.lock == e.m && c.client[e.i] == e.y
      && (forall j :: 0 <= j < |b.client| && j != e.i ==> c.client[j] == b.client[j].(childdone := c.client[j].childdone))
      && (b.client[e.i].childdone > 1 ==> e.x == b.client[e.i])
      && c.history == Extended(b.history, e.i, Retry(e.x, e.l)) && c.replies == b.replies + ReplyOf(e)
      && DealtOf(c.failed, c.owed) == With(DealtOf(b.failed, b.owed), e.x.pid, true)
      && (Retry(e.x, e.l).Dial? ==> e.y.pid == c.lastPid > b.lastPid)
    }

    lemma ActStep(a: Snap, log: seq<Act>, b: Snap, e: Act, c: Snap)
      requires Tidy(a) && Progress(a, log, b) && ActBetween(b, e, c)
      ensures Progress(a, log + [e], c)
    {
      hide Chained, Holdless, HoldsOn, ActBetween, Replies, Pids, With, DealtOf, Tidy;
      LogMore(log, e, DealtOf(a.failed, a.owed));
      ActChain(a, log, b, e, c);
      ActLines(b, e, c);
      ActKnown(b, e, c);
      hide Fate;
      forall f <- log + [e] ensures f.kind.Again? && f.x.pid in c.failed && Holdless(c.lock, f.x.pid) {
        if f in log { assert f.x.pid in b.failed && Holdless(b.lock, f.x.pid); }
      }
      forall i | 0 <= i < |a.client| ensures Fate(a, c, i) { ActFate(a, b, e, c, i); }
    }

    lemma ActKnown(b: Snap, e: Act, c: Snap)
      requires ActBetween(b, e, c)
      ensures |b.client| == |c.client| == |b.history| == |c.history| && b.failed <= c.failed
    {}

    lemma LogMore(log: seq<Act>, e: Act, d: set<int>)
      ensures Replies(log + [e]) == Replies(log) + ReplyOf(e)
      ensures With(d + Pids(log), e.x.pid, true) == d + Pids(log + [e])
    {
      assert (log + [e])[..|log|] == log;
      assert Pids(log + [e]) == Pids(log) + {e.x.pid};
    }

    /** What e is, as far as the log is concerned. */
    lemma ActChain(a: Snap, log: seq<Act>, b: Snap, e: Act, c: Snap)
      requires Tidy(a) && Progress(a, log, b) && ActBetween(b, e, c)
      ensures Chained(a.client, a.lock, log + [e], c.client, c.lock) && Onward(a, c)
      ensures e.kind.Again? && e.x.pid in c.failed && e.x.pid in c.failed && b.failed <= c.failed
      ensures c.replies == b.replies + ReplyOf(e) && DealtOf(c.failed, c.owed) == With(DealtOf(b.failed, b.owed), e.x.pid, true)
    {
      hide Chained, ActOk, Fate, Replies, Pids, With, DealtOf, Holdless;
      ChainAct(a.client, a.lock, log, b.client, b.lock, e, c.client);
      OnwardTrans(a, b, c);
    }

    lemma OnwardTrans(a: Snap, b: Snap, c: Snap)
      requires Onward(a, b) && Onward(b, c)
      ensures Onward(a, c)
    {
      forall q <- c.failed ensures q in a.failed || q in a.running || q > a.lastPid {
        if q !in b.failed { assert q in b.running || q > b.lastPid; }
      }
    }

    lemma ActLines(b: Snap, e: Act, c: Snap)
      requires ActBetween(b, e, c)
      ensures Holdless(c.lock, e.x.pid)
      ensures forall pid :: pid in b.failed && Holdless(b.lock, pid) ==> Holdless(c.lock, pid)
      ensures forall pid :: pid != 0 && pid != e.x.pid ==> HoldsOn(b.lock, c.lock, pid)
    {
      hide Holdless, HoldsOn, LocksOk, RetriedTo, Retry;
      RetryLines(e.x, e.y, b.lock, c.lock, e.x.pid);
      forall pid | pid in b.failed && Holdless(b.lock, pid) ensures Holdless(c.lock, pid) { RetryLines(e.x, e.y, b.lock, c.lock, pid); }
      forall pid | pid != 0 && pid != e.x.pid ensures HoldsOn(b.lock, c.lock, pid) { RetryLines(e.x, e.y, b.lock, c.lock, pid); }
    }

    lemma ActFate(a: Snap, b: Snap, e: Act, c: Snap, i: nat)
      requires Tidy(a) && |a.history| == |a.client| == |b.client| == |b.history| && Onward(a, b) && i < |a.client| && Fate(a, b, i) && ActBetween(b, e, c)
      requires forall pid :: pid != 0 && pid != e.x.pid ==> HoldsOn(b.lock, c.lock, pid)
      ensures |a.client| == |c.client| == |c.history| && Fate(a, c, i)
    {
      var x := a.client[i];
      if x.childdone > 1 {
        if i == e.i { RetriedSlot(a, b, e, c); } else { OtherPending(a, b, e, c, i); }
      }
      if x.childdone == 1 { KeptSuccess(a, b, e, c, i); }
      hide HoldsOn;
      RetriedFd(b, e, c);
    }

    lemma RetriedFd(b: Snap, e: Act, c: Snap)
      requires ActBetween(b, e, c)
      ensures e.y.fd == b.client[e.i].fd || e.y.fd == -1
      ensures forall j :: 0 <= j < |b.client| && j != e.i ==> c.client[j].fd == b.client[j].fd
    {}

    lemma RetriedSlot(a: Snap, b: Snap, e: Act, c: Snap)
      requires |a.history| == |a.client| && Onward(a, b) && ActBetween(b, e, c) && Fate(a, b, e.i) && a.client[e.i].childdone > 1
      ensures DealtWith(a, c, e.i)
    {
      hide HoldsOn, Holdless;
    }

    lemma OtherPending(a: Snap, b: Snap, e: Act, c: Snap, i: nat)
      requires |a.history| == |a.client| && Onward(a, b) && ActBetween(b, e, c) && i < |a.client| && i != e.i
      requires Fate(a, b, i) && a.client[i].childdone > 1
      ensures Pending(a, c, i) || DealtWith(a, c, i)
    {
      hide ActOk, HoldsOn, Holdless, Retry;
      if Pending(a, b, i) {
        var p := a.client[i].pid;
        assert p != e.x.pid && p !in b.failed - b.owed;
        assert p in c.failed && p !in c.failed - c.owed;
      }
    }

    lemma HoldsTrans(l: seq<LockEntry>, m: seq<LockEntry>, n: seq<LockEntry>, pid: int)
      requires HoldsOn(l, m, pid) && HoldsOn(m, n, pid)
      ensures HoldsOn(l, n, pid)
    {}

    lemma KeptSuccess(a: Snap, b: Snap, e: Act, c: Snap, i: nat)
      requires Tidy(a) && |a.history| == |a.client| && Onward(a, b) && ActBetween(b, e, c) && i < |a.client|
      requires Fate(a, b, i) && a.client[i].childdone == 1
      requires forall pid :: pid != 0 && pid != e.x.pid ==> HoldsOn(b.lock, c.lock, pid)
      ensures i != e.i && a.client[i].pid !in c.failed && a.client[i].pid !in c.running && HoldsOn(a.lock, c.lock, a.client[i].pid)
      ensures c.client[i] == a.client[i].(childdone := c.client[i].childdone)
    {
      var p := a.client[i].pid;
      hide ActOk, Retry;
      assert p != 0 && p <= a.lastPid <= b.lastPid;
      assert p !in c.failed && p !in c.running;
      assert e.x.pid != p && i != e.i;
      HoldsTrans(a.lock, b.lock, c.lock, p);
    }

    lemma SinceOnward(b: Snap, m: Moment, c: Snap, n: Moment, i: int)
      requires Since(m, n, i) && |b.history| == |b.client| == |c.history| && |c.client| == |b.client|
      requires m.running == b.running && m.lastPid == b.lastPid && m.failed == b.failed
      requires n.running == c.running && n.lastPid == c.lastPid && n.failed == c.failed
      ensures Onward(b, c) && Paid(m.left, m.flag, n.left, n.flag)
      ensures m.client == b.client && n.client == c.client ==>
                forall j :: 0 <= j < |b.client| && j != i ==> c.client[j] == b.client[j].(childdone := c.client[j].childdone)
    {}

    /** A descriptor that was given up is not watched any more. */
    lemma GoneFds(t: seq<Client>, all: set<int>, maxfd: int, maxi: int, u: seq<Client>, all': set<int>, maxfd': int, maxi': int)
      requires Books(t, listenfd, all, maxfd, maxi) && Books(u, listenfd, all', maxfd', maxi') && |t| == |u|
      requires forall j :: 0 <= j < |t| ==> u[j].fd == t[j].fd || u[j].fd == -1
      ensures forall j :: 0 <= j < |t| && t[j].fd >= 0 && u[j].fd == -1 ==> t[j].fd !in all'
    {
      forall j | 0 <= j < |t| && t[j].fd >= 0 && u[j].fd == -1 ensures t[j].fd !in all' {
        assert forall k :: 0 <= k < |u| ==> u[k].fd != t[j].fd;
      }
    }

    /** What child_done() leaves of client i. */
    ghost predicate Finished(i: nat, x: Client, h: seq<nat>, l: seq<LockEntry>)
      reads this
    {
      i < |client| == |history|
      && (x.childdone > 1 ==>
            Holdless(lock, x.pid) && if client[i].fd == -1 then x.fd !in allset else client[i].pid != x.pid && |history[i]| > |h|)
      && (x.childdone == 1 ==> client[i] == x.(childdone := 0) && HoldsOn(l, lock, x.pid))
    }

    /** One pass over the slots: from S0 on, the log says what was done. */
    method Pass(ghost a: Snap, ghost log: seq<Act>, ghost m: Moment) returns (quit: bool, ghost more: seq<Act>)
      requires Valid() && Tidy(a) && Progress(a, log, Snapshot()) && Paid(m.left, m.flag, Now().left, chldFlag)
      modifies this
      ensures received == old(received)
      ensures !quit ==> Valid() && Progress(a, more, Snapshot()) && Paid(m.left, m.flag, Now().left, chldFlag)
      ensures !quit && !chldFlag ==> forall j :: 0 <= j < |client| ==> client[j].childdone == 0
      ensures quit ==> Stuck(a, more)
    {
      hide Tables, Watched, Dialled, Recorded, Measure, Since, With, DealtOf, Progress, Chained;
      quit, more := false, log;
      var i := 0;
      MaxiValid();
      while i <= maxi
        invariant Valid() && !quit && 0 <= i <= maxi + 1 <= |client| && received == old(received)
        invariant !chldFlag ==> forall j :: 0 <= j < i ==> client[j].childdone == 0
        invariant Progress(a, more, Snapshot()) && Paid(m.left, m.flag, Now().left, chldFlag)
      {
        quit, more := VisitLogged(a, more, i);
        if quit { return; }
        i := i + 1;
      }
      MaxiValid();
    }

    /** The program ends because a retry met a malformed line: the last act, which
        the acts before it lead to. */
    ghost predicate Stuck(a: Snap, log: seq<Act>)
      reads this`failed
    {
      log != []
      && var (done, e) := (log[..|log| - 1], log[|log| - 1]);
         && Linked(a.client, a.lock, done) && StartsAt(e, After(a.client, done), LockAfter(a.lock, done))
         && e.kind.Again? && e.x.childdone > 1 && e.x.pid in failed && Retry(e.x, e.l).Quit?
    }

    lemma StuckAt(a: Snap, log: seq<Act>, b: Snap, e: Act)
      requires Progress(a, log, b) && StartsAt(e, b.client, b.lock)
      ensures Linked(a.client, a.lock, log) && StartsAt(e, After(a.client, log), LockAfter(a.lock, log))
      ensures (log + [e])[..|log|] == log
    {
      hide ActOk;
    }

    /** Visit of slot i, added to the log. */
    method VisitLogged(ghost a: Snap, ghost log: seq<Act>, i: nat) returns (quit: bool, ghost more: seq<Act>)
      requires Valid() && i < |client| && Tidy(a) && Progress(a, log, Snapshot())
      modifies this
      ensures received == old(received)
      ensures !quit ==> Valid() && maxi == old(maxi) && |client| == |old(client)| && Progress(a, more, Snapshot())
      ensures !quit ==> Paid(old(Now()).left, old(chldFlag), Now().left, chldFlag)
      ensures !quit && !chldFlag ==> !old(chldFlag) && client[i].childdone == 0 && forall j :: 0 <= j < |client| && j != i ==> client[j] == old(client)[j]
      ensures quit ==> Stuck(a, more)
    {
      hide With, Less, DealtOf, Cross, Books, Histories, Budget, Debts, Since, Progress, Chained, Linked, Tidy, Retry, ActOk, Retried;
      ghost var b, m := Snapshot(), Now();
      ValidTidy();
      LocksFacts();
      more := log;
      ghost var act;
      quit, act := Visit(i);
      ghost var c, n := Snapshot(), Now();
      if quit {
        more := log + [act.value];
        StuckAt(a, log, b, act.value);
        return;
      }
      ValidTidy();
      HistoriesLen(lines, client, history);
      SinceMarks(if act.Some? then Settled(m, act.value.x.pid) else m, n, i);
      SinceOnward(b, if act.Some? then Settled(m, act.value.x.pid) else m, c, n, i);
      if act.Some? {
        ActStep(a, log, b, act.value, c);
        more := log + [act.value];
      } else {
        QuietStep(a, log, b, c);
      }
    }

    lemma SinceMarks(m: Moment, n: Moment, i: int)
      requires Since(m, n, i)
      ensures n.dealt == m.dealt && Kept(m.client, m.flag, n.client, n.flag, i)
    {}

    lemma LocksFacts()
      requires Valid()
      ensures LocksOk(lock) && |history| == |client|
    {
      HistoriesLen(lines, client, history);
    }

    /** child_done(): when it returns, the flag was clear at its final test and every
        exit that was recorded has been dealt with; the log says how.  It does return,
        however the children exit: every new child costs lines of the file.  The
        program ends only because a retry met a malformed line. */
    method ChildDone() returns (quit: bool, ghost log: seq<Act>)
      requires Valid()
      modifies this
      ensures received == old(received)
      ensures !quit ==> Valid() && !chldFlag && forall i :: 0 <= i < |client| ==> client[i].childdone == 0
      ensures !quit ==> Progress(old(Snapshot()), log, Snapshot()) && failed == DealtOf(old(failed), old(owed)) + Pids(log)
      ensures !quit ==> forall i :: 0 <= i < |old(client)| ==> Finished(i, old(client)[i], old(history)[i], old(lock))
      ensures quit ==> Stuck(old(Snapshot()), log)
    {
      hide With, Less, Cross, Books, Histories, Budget, Debts, Since, Progress, Chained, Tidy, Finished;
      ghost var a, all, maxfd0, maxi0 := Snapshot(), allset, maxfd, maxi;
      ValidTidy();
      ProgressStarts(a);
      LocksFacts();
      assert Books(a.client, listenfd, all, maxfd0, maxi0);
      quit, log := false, [];
      var again := true;
      while again
        invariant Valid() && !quit && received == old(received) && Progress(a, log, Snapshot())
        invariant !again ==> !chldFlag && forall i :: 0 <= i < |client| ==> client[i].childdone == 0
        decreases Measure(), again
      {
        chldFlag := false;
        ghost var b, m := Snapshot(), Now();
        ValidTidy();
        SinceRefl(m, -1);
        Interrupt(m, -1);
        ValidTidy();
        HistoriesLen(lines, client, history);
        SinceMarks(m, Now(), -1);
        SinceOnward(b, m, Snapshot(), Now(), -1);
        QuietStep(a, log, b, Snapshot());
        quit, log := Pass(a, log, m);
        if quit { return; }
        again := chldFlag;
      }
      NoneOwed(client, owed, failed, running, lastPid);
      FinishedAll(a, log, all, maxfd0, maxi0);
    }

    lemma FinishedAll(a: Snap, log: seq<Act>, all: set<int>, maxfd0: int, maxi0: int)
      requires Valid() && Tidy(a) && Progress(a, log, Snapshot()) && owed == {} && forall i :: 0 <= i < |client| ==> client[i].childdone == 0
      requires Books(a.client, listenfd, all, maxfd0, maxi0)
      ensures failed == DealtOf(a.failed, a.owed) + Pids(log)
      ensures forall i :: 0 <= i < |a.client| ==> Finished(i, a.client[i], a.history[i], a.lock)
    {
      assert failed - owed == failed;
      forall j | 0 <= j < |a.client| ensures client[j].fd == a.client[j].fd || client[j].fd == -1 { assert Fate(a, Snapshot(), j); }
      GoneFds(a.client, all, maxfd0, maxi0, client, allset, maxfd, maxi);
      hide Chained, Holdless, HoldsOn, Cross, Books, Histories, Debts;
      forall i | 0 <= i < |a.client| ensures Finished(i, a.client[i], a.history[i], a.lock) {
        assert Fate(a, Snapshot(), i);
        var x := a.client[i];
        if x.childdone > 1 {
          assert x.pid in a.owed && x.pid in failed && x.pid !in a.failed - a.owed;
          assert x.pid in Pids(log);
          var e :| e in log && e.x.pid == x.pid;
          assert Holdless(lock, e.x.pid);
        }
      }
    }

    /** A new connection on a descriptor that is not in use. */
    method Accept(fd: int, uid: int) returns (i: nat)
      requires Valid() && fd >= 0 && fd !in allset
      modifies this`client, this`history, this`allset, this`maxfd, this`maxi, this`chldFlag, this`failed, this`owed, this`running
      ensures Valid() && allset == old(allset) + {fd}
      ensures i < |client| && client[i].fd == fd && client[i].uid == uid
      ensures |client| >= |old(client)|
      ensures forall j :: 0 <= j < |old(client)| && old(client)[j].fd >= 0 ==> Served(old(client)[j], client[j], None)
    {
      hide Cross, Histories, Books, Budget, Grown, FdIndex, Holds, Debts;
      ghost var t, h := client, history;
      HistoriesLen(lines, t, h);
      AcceptOk(t, h, lines, lock, running, lastPid, listenfd, allset, maxfd, maxi, nalloc, fd, uid);
      GrownAlike(t, fd, uid);
      DebtsFrame(t, Grown(t, nalloc)[FdIndex(t, -1) := Grown(t, nalloc)[FdIndex(t, -1)].(fd := fd, uid := uid)],
                 owed, failed, running, lastPid, running, lastPid);
      i := ClientAdd(fd, uid);
      Watch(fd, i);
    }

    lemma GrownAlike(t: seq<Client>, fd: int, uid: int)
      requires nalloc > 0 && FdIndex(t, -1) < |Grown(t, nalloc)|
      ensures var u := Grown(t, nalloc)[FdIndex(t, -1) := Grown(t, nalloc)[FdIndex(t, -1)].(fd := fd, uid := uid)];
              && |t| <= |u| && (forall j :: 0 <= j < |t| ==> u[j].pid == t[j].pid && u[j].childdone == t[j].childdone)
              && (forall j :: |t| <= j < |u| ==> u[j].childdone == 0)
    {}

    /** The new client of slot i is put under select()'s watch. */
    method Watch(fd: int, i: nat)
      requires Steady() && Books(client, listenfd, allset + {fd}, if fd > maxfd then fd else maxfd, if i > maxi then i else maxi)
      modifies this`client, this`allset, this`maxfd, this`maxi, this`chldFlag, this`failed, this`owed, this`running
      ensures Valid() && allset == old(allset) + {fd} && Alike(old(client), client)
    {
      hide Cross, Histories, Books, Budget, Since, Debts;
      ghost var a, u := Now(), client;
      SinceRefl(a, -1);
      Interrupt(a, -1);
      allset := allset + {fd};
      Interrupt(a, -1);
      if fd > maxfd { maxfd := fd; }
      Interrupt(a, -1);
      if i > maxi { maxi := i; }
      BooksFrame(u, client, listenfd, allset, maxfd, maxi);
    }

    /** The options of a client's request are saved in its entry. */
    method SaveRequest(i: nat, sysname: string, speed: string)
      requires Valid() && i < |client| && Unlocked(client[i], lock)
      modifies this`client, this`history
      ensures Valid() && history == old(history)[i := []]
      ensures client == old(client)[i := old(client)[i].(sysname := sysname, speed := speed, childdone := 0, sysftell := 0, foundone := 0)]
    {
      hide Cross, Histories, Books, Budget, Debts;
      IdleSlot(client, lock, running, lastPid, i);
      ghost var t, x := client, client[i].(sysname := sysname, speed := speed, childdone := 0, sysftell := 0, foundone := 0);
      DebtsFrame(t, t[i := x], owed, failed, running, lastPid, running, lastPid);
      HistoriesLen(lines, t, history);
      SaveOk(t, history, lines, lock, running, lastPid, i, x);
      BooksFrame(t, t[i := x], listenfd, allset, maxfd, maxi);
      client := client[i := client[i].(sysname := sysname, speed := speed, childdone := 0, sysftell := 0, foundone := 0)];
      history := history[i := []];
    }

    /** What the environment sends: a client closes only when its child is gone and
        its exit was dealt with, and makes one request per connection. */
    method Read(i: nat) returns (input: Input)
      requires Valid() && i < |client|
      modifies this`received
      ensures received == old(received) + [(i, input)]
      ensures input.Closed? ==> client[i].pid !in running && client[i].childdone == 0
      ensures input.Request? ==> Unlocked(client[i], lock)
    {
      input := *;
      if input.Closed? && (client[i].pid in running || client[i].childdone != 0) { input := Bad; }
      if input.Request? && !Unlocked(client[i], lock) { input := Bad; }
      received := received + [(i, input)];
    }

    lemma IdleIfSent(i: nat, input: Input)
      requires Valid() && i < |client|
      requires input.Request? ==> Unlocked(client[i], lock)
      requires input.Closed? ==> client[i].pid !in running
      ensures !input.Bad? ==> client[i].pid !in running
    {
      if input.Request? { IdleSlot(client, lock, running, lastPid, i); }
    }

    /** What serving leaves of slot x: the exit of its child may be recorded;
        otherwise a client that sent nothing is left alone, one that closed is
        gone, and one that made a request has it stored or is gone. */
    predicate Served(x: Client, y: Client, sent: Option<Input>) {
      match sent
      case None => y == x.(childdone := y.childdone)
      case Some(Closed) => y.fd == -1
      case Some(Request(sysname, speed)) => y.fd == -1 || (y.fd == x.fd && y.sysname == sysname && y.speed == speed && y.pid != x.pid)
      case Some(Bad) => false
    }

    /** Reads every ready client, in turn, and no other; signals arrive in between.
        The log says what was done about each. */
    method Serve(ready: set<int>) returns (quit: bool, sent: seq<Option<Input>>, ghost log: seq<Act>)
      requires Valid()
      modifies this
      ensures !quit ==> Valid() && |client| == |old(client)| && |sent| <= |client|
      ensures !quit ==> forall j :: 0 <= j < |client| ==>
                if old(client)[j].fd >= 0 && old(client)[j].fd in ready
                then j < |sent| && sent[j].Some? && Served(old(client)[j], client[j], sent[j])
                else Served(old(client)[j], client[j], None)
      ensures !quit ==> Answered(old(client), old(lock), old(received), old(replies), ready, log)
      ensures quit ==> (received != [] && received[|received| - 1].1 == Bad) || exists k :: 0 <= k < |lines| && lines[k].Malformed?
    {
      hide Tables, Watched, Dialled, Recorded, Measure, Since, With, DealtOf, Holds, Released, FdIndex, Requested, Chained, ActOk, StartsAt, Served, SoFar, Logs, Alike, Inputs, Replies;
      ghost var t, l := client, lock;
      ChainRefl(t, l);
      SoFarStart(t, ready);
      quit, sent, log := false, [], [];
      var i := 0;
      MaxiValid();
      while i <= maxi
        invariant Valid() && !quit && 0 <= i <= maxi + 1 <= |client| == |t| && maxi == old(maxi)
        invariant SoFar(t, client, sent, ready, i) && Chained(t, l, log, client, lock) && Logs(log, t, ready, i)
        invariant received == old(received) + Inputs(log) && replies == old(replies) + Replies(log)
        decreases maxi - i
      {
        ghost var u, m, was, before := client, lock, log, sent;
        SameFd(t, u, sent, ready, i);
        var input;
        ghost var act;
        quit, input, act := ServeOne(i, ready);
        if quit { return; }
        sent := sent + [input];
        SoFarMore(t, u, client, before, input, ready, i);
        if act.Some? {
          log := log + [act.value];
          ServedAct(t, l, was, u, m, act.value, client);
          LogsMore(was, act.value, t, ready, i);
        } else {
          SameRefl(m);
          ServedNone(u, client, i);
          ChainQuiet(t, l, log, u, m, client, lock);
          LogsNone(log, t, ready, i);
        }
        i := i + 1;
      }
      LogsRest(log, t, ready, i);
      SoFarAll(t, client, sent, ready, i);
    }

    /** The first n slots have been served, the others left alone. */
    predicate SoFar(t: seq<Client>, u: seq<Client>, sent: seq<Option<Input>>, ready: set<int>, n: nat) {
      && |t| == |u| && |sent| == n <= |t|
      && (forall j :: 0 <= j < n ==> (sent[j].Some? <==> t[j].fd >= 0 && t[j].fd in ready) && Served(t[j], u[j], sent[j]))
      && (forall j :: n <= j < |t| ==> Served(t[j], u[j], None))
    }

    lemma SoFarStart(t: seq<Client>, ready: set<int>)
      ensures SoFar(t, t, [], ready, 0) && Logs([], t, ready, 0) && Inputs([]) == [] && Replies([]) == []
    {}

    lemma SameFd(t: seq<Client>, u: seq<Client>, sent: seq<Option<Input>>, ready: set<int>, n: nat)
      requires SoFar(t, u, sent, ready, n) && n < |t|
      ensures u[n].fd == t[n].fd
    {}

    lemma SoFarMore(t: seq<Client>, u: seq<Client>, v: seq<Client>, sent: seq<Option<Input>>, input: Option<Input>, ready: set<int>, n: nat)
      requires SoFar(t, u, sent, ready, n) && n < |t| == |v| && Served(u[n], v[n], input)
      requires input.Some? <==> u[n].fd >= 0 && u[n].fd in ready
      requires forall j :: 0 <= j < |u| && j != n ==> Served(u[j], v[j], None)
      ensures SoFar(t, v, sent + [input], ready, n + 1)
    {
      forall j | 0 <= j < |t| ensures j != n ==> Served(t[j], v[j], if j < n then sent[j] else None) {
        if j != n { assert Served(u[j], v[j], None); }
      }
    }

    lemma ServedNone(u: seq<Client>, v: seq<Client>, n: nat)
      requires n < |u| == |v| && forall j :: 0 <= j < |u| ==> Served(u[j], v[j], None)
      ensures Alike(u, v)
    {}

    lemma SoFarAll(t: seq<Client>, u: seq<Client>, sent: seq<Option<Input>>, ready: set<int>, n: nat)
      requires SoFar(t, u, sent, ready, n) && forall j :: n <= j < |t| ==> t[j].fd < 0
      ensures |sent| <= |u|
      ensures forall j :: 0 <= j < |u| ==>
                if t[j].fd >= 0 && t[j].fd in ready then j < |sent| && sent[j].Some? && Served(t[j], u[j], sent[j]) else Served(t[j], u[j], None)
    {}

    /** The log has one act for each ready client, in the order of the slots, none of
        them a retry; and what was read and told is what it says. */
    ghost predicate Answered(t: seq<Client>, l: seq<LockEntry>, rcvd: seq<(nat, Input)>, rpls: seq<(int, Msg)>, ready: set<int>, log: seq<Act>)
      reads this
    {
      && Chained(t, l, log, client, lock) && Logs(log, t, ready, |t|)
      && received == rcvd + Inputs(log) && replies == rpls + Replies(log)
    }

    predicate Logs(log: seq<Act>, t: seq<Client>, ready: set<int>, n: nat) {
      && (forall k :: 0 <= k < |log| ==> !log[k].kind.Again? && log[k].i < n)
      && (forall j, k :: 0 <= j < k < |log| ==> log[j].i < log[k].i)
      && forall j :: 0 <= j < n && j < |t| ==> (t[j].fd >= 0 && t[j].fd in ready <==> LogHas(log, j))
    }

    predicate LogHas(log: seq<Act>, i: nat) { exists k :: 0 <= k < |log| && log[k].i == i }

    lemma LogsMore(log: seq<Act>, a: Act, t: seq<Client>, ready: set<int>, i: nat)
      requires Logs(log, t, ready, i) && i < |t| && t[i].fd >= 0 && t[i].fd in ready && a.i == i && !a.kind.Again?
      ensures Logs(log + [a], t, ready, i + 1)
      ensures Inputs(log + [a]) == Inputs(log) + [(i, InputOf(a.kind))] && Replies(log + [a]) == Replies(log) + ReplyOf(a)
    {
      var more := log + [a];
      assert more[..|log|] == log;
      assert more[|log|].i == i;
      forall j: nat | j < i ensures LogHas(more, j) <==> LogHas(log, j) {
        if LogHas(log, j) {
          var k :| 0 <= k < |log| && log[k].i == j;
          assert more[k].i == j;
        }
      }
    }

    lemma LogsNone(log: seq<Act>, t: seq<Client>, ready: set<int>, i: nat)
      requires Logs(log, t, ready, i) && i < |t| && !(t[i].fd >= 0 && t[i].fd in ready)
      ensures Logs(log, t, ready, i + 1)
    {}

    /** Free slots beyond the last are not ready. */
    lemma LogsRest(log: seq<Act>, t: seq<Client>, ready: set<int>, i: nat)
      requires Logs(log, t, ready, i) && i <= |t| && forall j :: i <= j < |t| ==> t[j].fd < 0
      ensures Logs(log, t, ready, |t|)
    {}

    lemma ServedAct(t: seq<Client>, l: seq<LockEntry>, log: seq<Act>, u: seq<Client>, m: seq<LockEntry>, a: Act, v: seq<Client>)
      requires Chained(t, l, log, u, m) && StartsAt(a, u, m) && ActOk(a) && |v| == |u| && v[a.i] == a.y
      requires forall j :: 0 <= j < |u| && j != a.i ==> Served(u[j], v[j], None)
      ensures Chained(t, l, log + [a], v, a.m)
    {
      hide ActOk, Chained, StartsAt;
      assert a.i < |u| by { StartsIn(a, u, m); }
      ChainAct(t, l, log, u, m, a, v);
    }

    lemma StartsIn(a: Act, u: seq<Client>, m: seq<LockEntry>)
      requires StartsAt(a, u, m)
      ensures a.i < |u|
    {}

    /** A request's first search starts at the top of the file. */
    ghost predicate RequestedTo(x: Client, sysname: string, speed: string, y: Client, l: seq<LockEntry>, m: seq<LockEntry>) {
      match SearchFrom(lines, devs, l, sysname, speed, 0, 0, Empty)
      case Quit => false
      case Dial(at, line, found, _) =>
        && y == Client(x.fd, x.uid, y.pid, y.childdone, at + 1, found, sysname, speed) && y.pid != x.pid
        && forall l' :: Holder(m, l') == if l' == line then y.pid else Holder(l, l')
      case GiveUp(ftell, found, _) =>
        y == Client(-1, x.uid, x.pid, 0, ftell, found, sysname, speed) && SameHolders(m, l)
    }

    ghost predicate Requested(x: Client, sysname: string, speed: string, y: Client, l: seq<LockEntry>, m: seq<LockEntry>, pid: int) {
      RequestedTo(x, sysname, speed, y, l, m) && (y.fd >= 0 ==> y.pid == pid)
    }

    /** A request: its options are saved and the search starts. */
    method ServeRequest(i: nat, sysname: string, speed: string) returns (quit: bool)
      requires Valid() && i < |client| && client[i].fd >= 0 && Unlocked(client[i], lock)
      modifies this
      ensures Kept(old(client), old(chldFlag), client, chldFlag, i) && received == old(received)
      ensures quit <==> SearchFrom(lines, devs, old(lock), sysname, speed, 0, 0, Empty).Quit?
      ensures !quit ==>
                && Valid() && maxi == old(maxi)
                && Requested(old(client)[i], sysname, speed, client[i], old(lock), lock, lastPid)
                && Served(old(client)[i], client[i], Some(Request(sysname, speed)))
                && replies == old(replies) + ReplyTo(old(client)[i].fd, sysname, SearchFrom(lines, devs, old(lock), sysname, speed, 0, 0, Empty))
    {
      hide Tables, Watched, Dialled, Recorded, Measure, Since, With, DealtOf, Holds, Released, FdIndex, SearchFrom, Holder;
      SlotValid(i);
      SaveRequest(i, sysname, speed);
      IdleValid(i);
      ghost var a := Now();
      SinceRefl(a, i);
      Interrupt(a, i);
      quit := RequestOrGiveUp(i, a);
      SinceKept(a, Now(), i);
    }

    /** One client: what it sent, and what became of it. */
    method ServeOne(i: nat, ready: set<int>) returns (quit: bool, sent: Option<Input>, ghost act: Option<Act>)
      requires Valid() && i < |client|
      modifies this
      ensures !quit ==> Valid() && maxi == old(maxi) && |client| == |old(client)|
      ensures sent == Some(Bad) ==> quit
      ensures sent.None? <==> old(client)[i].fd < 0 || old(client)[i].fd !in ready
      ensures received == old(received) + if sent.Some? then [(i, sent.value)] else []
      ensures quit ==> sent == Some(Bad) || exists k :: 0 <= k < |lines| && lines[k].Malformed?
      ensures !quit ==> Served(old(client)[i], client[i], sent)
      ensures !quit ==> forall j :: 0 <= j < |client| && j != i ==> Served(old(client)[j], client[j], None)
      ensures sent == None ==> !quit && lock == old(lock) && allset == old(allset) && lastPid == old(lastPid) && replies == old(replies)
      ensures !quit && sent == Some(Closed) ==>
                var x := old(client)[i];
                client[i] == x.(fd := -1, childdone := 0) && lock == Released(old(lock), x.pid) && allset == old(allset) - {x.fd}
      ensures !quit && sent.Some? && sent.value.Request? ==>
                Requested(old(client)[i], sent.value.sysname, sent.value.speed, client[i], old(lock), lock, lastPid)
      ensures !quit ==> (act.Some? <==> sent.Some?)
      ensures !quit && act.Some? ==>
                var a := act.value;
                && a.i == i && !a.kind.Again? && InputOf(a.kind) == sent.value && StartsAt(a, old(client), old(lock)) && ActOk(a)
                && a.y == client[i] && a.m == lock && replies == old(replies) + ReplyOf(a)
    {
      hide Tables, Watched, Dialled, Recorded, Measure, Since, With, DealtOf, Holds, Released, FdIndex, Holder, SearchFrom, SameHolders, RequestedTo;
      ghost var a := Now();
      SlotValid(i);
      SinceRefl(a, i);
      SameRefl(lock);
      quit, sent, act := false, None, None;
      Interrupt(a, i);
      var clifd := client[i].fd;
      if clifd < 0 || clifd !in ready { return; }
      var input := Read(i);
      sent := Some(input);
      IdleIfSent(i, input);
      Interrupt(a, i);
      SinceKept(a, Now(), i);
      ghost var x, l := client[i], lock;
      match input {
        case Bad => quit := true;
        case Closed =>
          quit := HangUp(i);
          SameRefl(lock);
          act := Some(Act(i, Hangup, x, l, client[i], lock));
        case Request(sysname, speed) =>
          quit := ServeRequest(i, sysname, speed);
          if !quit { RequestedSame(old(client)[i], x, sysname, speed, client[i], l, lock); }
          SearchQuits(lines, devs, l, sysname, speed, 0, 0, Empty);
          act := Some(Act(i, Ask(sysname, speed), x, l, client[i], lock));
      }
    }

    lemma RequestedSame(x: Client, x': Client, sysname: string, speed: string, y: Client, l: seq<LockEntry>, m: seq<LockEntry>)
      requires x' == x.(childdone := x'.childdone) && RequestedTo(x', sysname, speed, y, l, m)
      ensures RequestedTo(x, sysname, speed, y, l, m)
    {}

    /** The client has closed: its device and its slot are given up. */
    method HangUp(i: nat) returns (quit: bool)
      requires Valid() && i < |client| && client[i].fd >= 0 && client[i].pid !in running && client[i].childdone == 0
      modifies this`client, this`lock, this`allset, this`chldFlag, this`failed, this`owed, this`running
      ensures !quit && Valid() && lock == Released(old(lock), old(client)[i].pid) && allset == old(allset) - {old(client)[i].fd}
      ensures Kept(old(client), old(chldFlag), client, chldFlag, i) && client[i] == old(client)[i].(fd := -1)
    {
      hide Tables, Watched, Dialled, Recorded, Measure, Since, With, DealtOf, Holds, Released, FdIndex, Holder;
      ghost var a := Now();
      SinceRefl(a, i);
      var clifd := client[i].fd;
      Unlock(i);
      Interrupt(a, i);
      FdValid(i);
      ghost var b := Now();
      quit := CliDone(clifd);
      SinceTrans(a, b, Now(), i);
      SinceKept(a, Now(), i);
    }

    /** The environment again: a new descriptor is one that is not open. */
    method Select() returns (sel: Selected)
      ensures sel.Listening? ==> sel.fd >= 0 && sel.fd !in allset
    {
      sel := *;
      if sel.Listening? && (sel.fd < 0 || sel.fd in allset) { sel := Interrupted; }
    }

    /** One turn of the event loop.  Recorded exits are dealt with first, if the flag
        says so; then a new client is added and watched, the ready clients are served,
        or, after an interrupted select, recorded exits are dealt with again. */
    method Turn() returns (quit: bool, sel: Selected, ghost log: seq<Act>, ghost mid: Snap, ghost more: seq<Act>)
      requires Valid()
      modifies this
      ensures !quit ==> Valid()
      ensures !quit ==> Dealt(old(chldFlag), old(Snapshot()), log, mid)
      ensures !quit && sel.Interrupted? ==> !chldFlag && forall i :: 0 <= i < |client| ==> client[i].childdone == 0
      ensures !quit && sel.Interrupted? ==> Chained(mid.client, mid.lock, more, client, lock) && failed == DealtOf(mid.failed, mid.owed) + Pids(more)
      ensures !quit && sel.Listening? ==> sel.fd in allset && exists i :: 0 <= i < |client| && client[i].fd == sel.fd && client[i].uid == sel.uid
      ensures !quit && sel.Listening? ==>
                && lock == mid.lock && received == old(received) && |client| >= |mid.client|
                && forall j :: 0 <= j < |mid.client| && mid.client[j].fd >= 0 ==> Served(mid.client[j], client[j], None)
      ensures !quit && sel.Ready? ==> Answered(mid.client, mid.lock, old(received), mid.replies, sel.ready, more)
    {
      hide Tables, Watched, Dialled, Recorded, Measure, Since, With, DealtOf, Progress, Chained, Answered;
      SameRefl(lock);
      quit, sel, log, mid, more := false, Interrupted, [], Snapshot(), [];
      if chldFlag {
        quit, log := ChildDone();
        if quit { return; }
        mid := Snapshot();
      }
      ghost var a, t, l := Now(), client, lock;
      SinceRefl(a, -1);
      SameRefl(l);
      Interrupt(a, -1);
      ghost var u := client;
      SinceMarks(a, Now(), -1);
      sel := Select();
      match sel {
        case Interrupted =>
          ghost var b := Snapshot();
          quit, more := ChildDone();
          if !quit {
            ProgressChained(b, more, Snapshot());
            ChainFrom(t, l, u, l, more, client, lock);
          }
        case Listening(fd, uid) =>
          var i := Accept(fd, uid);
          a := Now();
          SinceRefl(a, -1);
          Interrupt(a, -1);
        case Ready(ready) =>
          var sent;
          quit, sent, more := Serve(ready);
          if !quit { AnsweredFrom(t, u, l, old(received), mid.replies, ready, more); }
      }
    }

    /** child_done() ran if the flag was set, and else nothing happened. */
    ghost predicate Dealt(flag: bool, a: Snap, log: seq<Act>, b: Snap) {
      if flag then Progress(a, log, b) && b.failed == DealtOf(a.failed, a.owed) + Pids(log) && forall i :: 0 <= i < |b.client| ==> b.client[i].childdone == 0
      else log == [] && b == a
    }

    lemma ProgressChained(a: Snap, log: seq<Act>, b: Snap)
      requires Progress(a, log, b)
      ensures Chained(a.client, a.lock, log, b.client, b.lock)
    {}

    lemma AnsweredFrom(t: seq<Client>, u: seq<Client>, l: seq<LockEntry>, rcvd: seq<(nat, Input)>, rpls: seq<(int, Msg)>, ready: set<int>, log: seq<Act>)
      requires Alike(t, u) && Answered(u, l, rcvd, rpls, ready, log)
      ensures Answered(t, l, rcvd, rpls, ready, log)
    {
      SameRefl(l);
      ChainFrom(t, l, u, l, log, client, lock);
    }
  }

  /** How select() came back. */
  datatype Selected = Interrupted | Listening(fd: int, uid: int) | Ready(ready: set<int>)
}
