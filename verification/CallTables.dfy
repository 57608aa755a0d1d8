/** The tables of the call server (unix_source/calld): device locks, clients, and
the Systems and Devices files. */
module CallTables {
  import opened Common

  // ---------------------------------------------------------------- device locks

  /** pid 0: not locked */
  datatype LockEntry = LockEntry(line: string, pid: int)

  function LineIndex(t: seq<LockEntry>, line: string): (k: nat)
    ensures k <= |t|
    ensures k < |t| ==> t[k].line == line
    ensures forall j :: 0 <= j < k ==> t[j].line != line
  {
    FirstIndex(t, (x: LockEntry) => x.line == line)
  }

  function PidIndex(t: seq<LockEntry>, pid: int): (k: nat)
    ensures k <= |t|
    ensures k < |t| ==> t[k].pid == pid
    ensures forall j :: 0 <= j < k ==> t[j].pid != pid
  {
    FirstIndex(t, (x: LockEntry) => x.pid == pid)
  }

  /** The table with an entry for the line. */
  function WithLine(t: seq<LockEntry>, line: string): (u: seq<LockEntry>)
    ensures LineIndex(u, line) < |u|
  {
    if LineIndex(t, line) < |t| then t
    else
      var u := t + [LockEntry(line, 0)];
      assert u[|t|].line == line;
      u
  }

  function Locked(t: seq<LockEntry>, line: string, pid: int): seq<LockEntry> {
    var u := WithLine(t, line);
    u[LineIndex(u, line) := LockEntry(line, pid)]
  }

  function Released(t: seq<LockEntry>, pid: int): seq<LockEntry> {
    var k := PidIndex(t, pid);
    if k < |t| then t[k := t[k].(pid := 0)] else t
  }

  /** The map the table stands for: who holds a line, 0 for nobody. */
  function Holder(t: seq<LockEntry>, line: string): int {
    if LineIndex(t, line) < |t| then t[LineIndex(t, line)].pid else 0
  }

  predicate Holds(t: seq<LockEntry>, pid: int) { exists k :: 0 <= k < |t| && t[k].pid == pid }

  predicate LocksOk(t: seq<LockEntry>) {
    && (forall j, k :: 0 <= j < k < |t| ==> t[j].line != t[k].line)
    && (forall j, k :: 0 <= j < k < |t| ==> t[j].pid == 0 || t[j].pid != t[k].pid)
  }

  lemma LineIndexUnique(t: seq<LockEntry>, k: nat)
    requires LocksOk(t) && k < |t|
    ensures LineIndex(t, t[k].line) == k
  {
  }

  /** Writing a pid into one entry. */
  lemma SetPid(u: seq<LockEntry>, n: nat, pid: int)
    requires LocksOk(u) && n < |u| && (pid == 0 || !Holds(u, pid))
    ensures var r := u[n := u[n].(pid := pid)];
            LocksOk(r) && forall l :: Holder(r, l) == if l == u[n].line then pid else Holder(u, l)
  {
    var r := u[n := u[n].(pid := pid)];
    assert forall k :: 0 <= k < |r| ==> r[k].line == u[k].line;
    forall l ensures Holder(r, l) == if l == u[n].line then pid else Holder(u, l) {
      var k, j := LineIndex(r, l), LineIndex(u, l);
      if k < |r| { LineIndexUnique(u, k); }
      if j < |u| { LineIndexUnique(r, j); }
    }
  }

  /** lock_set changes the holder of that line only. */
  lemma LockedHolder(t: seq<LockEntry>, line: string, pid: int)
    requires LocksOk(t) && (pid == 0 || !Holds(t, pid))
    ensures LocksOk(Locked(t, line, pid))
    ensures forall l :: Holder(Locked(t, line, pid), l) == if l == line then pid else Holder(t, l)
  {
    WithLineHolder(t, line);
    SetPid(WithLine(t, line), LineIndex(WithLine(t, line), line), pid);
  }

  /** Looking a line up may add an entry but changes no holder. */
  lemma WithLineHolder(t: seq<LockEntry>, line: string)
    requires LocksOk(t)
    ensures LocksOk(WithLine(t, line))
    ensures forall l :: Holder(WithLine(t, line), l) == Holder(t, l)
    ensures forall pid :: pid != 0 ==> (Holds(WithLine(t, line), pid) <==> Holds(t, pid))
  {
    var u := WithLine(t, line);
    forall l ensures Holder(u, l) == Holder(t, l) {
      var k := LineIndex(t, l);
      if k < |t| { LineIndexUnique(u, k); }
    }
    forall pid | pid != 0 ensures Holds(u, pid) <==> Holds(t, pid) {
      if Holds(t, pid) {
        var k :| 0 <= k < |t| && t[k].pid == pid;
        assert u[k].pid == pid;
      }
    }
  }

  /** lock_rel frees exactly the line that the process holds. */
  lemma ReleasedHolder(t: seq<LockEntry>, pid: int)
    requires LocksOk(t) && pid != 0
    ensures LocksOk(Released(t, pid)) && !Holds(Released(t, pid), pid)
    ensures forall l :: Holder(Released(t, pid), l) == if Holder(t, l) == pid then 0 else Holder(t, l)
  {
    var r := Released(t, pid);
    assert |r| == |t| && forall k :: 0 <= k < |r| ==> r[k].line == t[k].line && r[k].pid == if t[k].pid == pid then 0 else t[k].pid;
    forall l ensures Holder(r, l) == if Holder(t, l) == pid then 0 else Holder(t, l) {
      var k := LineIndex(r, l);
      if k < |r| { LineIndexUnique(t, k); } else { assert LineIndex(t, l) == |t|; }
    }
  }

  // ---------------------------------------------------------------- clients

  /** fd -1: entry available.  childdone: 0, or the child's exit status plus 1. */
  datatype Client = Client(fd: int, uid: int, pid: int, childdone: int, sysftell: int, foundone: int,
                           sysname: string, speed: string)

  const FREE := Client(-1, 0, 0, 0, 0, 0, "", "")

  function FdIndex(t: seq<Client>, fd: int): (k: nat)
    ensures k <= |t|
    ensures k < |t| ==> t[k].fd == fd
    ensures forall j :: 0 <= j < k ==> t[j].fd != fd
  {
    FirstIndex(t, (x: Client) => x.fd == fd)
  }

  function ChildIndex(t: seq<Client>, pid: int): (k: nat)
    ensures k <= |t|
    ensures k < |t| ==> t[k].pid == pid
    ensures forall j :: 0 <= j < k ==> t[j].pid != pid
  {
    FirstIndex(t, (x: Client) => x.pid == pid)
  }

  function Grown(t: seq<Client>, nalloc: nat): seq<Client> {
    if FdIndex(t, -1) < |t| then t else t + seq(nalloc, _ => FREE)
  }

  // ---------------------------------------------------------------- Systems and Devices

  datatype SysEntry = SysEntry(name: string, typ: string, class_: string, phone: string)

  datatype Line = Blank | Comment | Malformed | Entry(e: SysEntry)

  datatype Device = Device(typ: string, line: string, class_: string)

  /** The texts left in errmsg. */
  datatype Msg = Empty | AlreadyLocked(line: string, pid: int) | NoDevice(typ: string, class_: string)
               | NotFound(name: string) | Unable(name: string)

  /** dev_find(): the first device of the type and class. */
  function FindDev(devs: seq<Device>, typ: string, class_: string): Option<string> {
    if devs == [] then None
    else if devs[0].typ == typ && devs[0].class_ == class_ then Some(devs[0].line)
    else FindDev(devs[1..], typ, class_)
  }

  predicate Serves(d: Device, typ: string, class_: string) { d.typ == typ && d.class_ == class_ }

  /** The line of the first device whose type and class both agree, if there is one. */
  lemma {:induction false} FindDevFirst(devs: seq<Device>, typ: string, class_: string)
    ensures FindDev(devs, typ, class_).None? <==> forall k :: 0 <= k < |devs| ==> !Serves(devs[k], typ, class_)
    ensures FindDev(devs, typ, class_).Some? ==>
              exists k :: 0 <= k < |devs| && Serves(devs[k], typ, class_) && FindDev(devs, typ, class_).value == devs[k].line
                          && forall j :: 0 <= j < k ==> !Serves(devs[j], typ, class_)
  {
    if devs != [] && !Serves(devs[0], typ, class_) {
      FindDevFirst(devs[1..], typ, class_);
      if FindDev(devs[1..], typ, class_).Some? {
        var k :| 0 <= k < |devs| - 1 && Serves(devs[1..][k], typ, class_) && FindDev(devs[1..], typ, class_).value == devs[1..][k].line
                 && forall j :: 0 <= j < k ==> !Serves(devs[1..][j], typ, class_);
        assert Serves(devs[k + 1], typ, class_);
        forall j | 0 <= j < k + 1 ensures !Serves(devs[j], typ, class_) {
          if j > 0 { assert devs[j] == devs[1..][j - 1]; }
        }
      } else {
        forall k | 0 <= k < |devs| ensures !Serves(devs[k], typ, class_) {
          if k > 0 { assert devs[k] == devs[1..][k - 1]; }
        }
      }
    }
  }

  predicate Matches(e: SysEntry, sysname: string, speed: string) {
    e.name == sysname && (speed == "" || e.class_ == speed)
  }

  predicate MatchAt(lines: seq<Line>, k: nat, sysname: string, speed: string) {
    k < |lines| && lines[k].Entry? && Matches(lines[k].e, sysname, speed)
  }

  /** How a search of the Systems file ends.  The position after line k is k + 1. */
  datatype Search =
    | Dial(at: nat, line: string, found: int, msg: Msg)
    | GiveUp(ftell: int, found: int, msg: Msg)
    | Quit

  /** request()'s search from position `pos`. */
  function SearchFrom(lines: seq<Line>, devs: seq<Device>, t: seq<LockEntry>, sysname: string, speed: string,
                      pos: nat, found: int, msg: Msg): Search
    requires pos <= |lines|
    decreases |lines| - pos
  {
    if pos == |lines| then GiveUp(-1, found, msg)
    else match lines[pos]
         case Blank => SearchFrom(lines, devs, t, sysname, speed, pos + 1, found, msg)
         case Comment => SearchFrom(lines, devs, t, sysname, speed, pos + 1, found, msg)
         case Malformed => Quit
         case Entry(e) =>
           if !Matches(e, sysname, speed) then SearchFrom(lines, devs, t, sysname, speed, pos + 1, found, msg)
           else match FindDev(devs, e.typ, e.class_)
                case None => GiveUp(pos + 1, found + 1, NoDevice(e.typ, e.class_))
                case Some(line) =>
                  if Holder(t, line) != 0
                  then SearchFrom(lines, devs, t, sysname, speed, pos + 1, found + 1, AlreadyLocked(line, Holder(t, line)))
                  else Dial(pos, line, found + 1, msg)
  }

  /** sys_next(): the next entry and the position after it. */
  datatype NextLine = Found(e: SysEntry, ftell: nat) | Eof | Fatal

  function NextFrom(lines: seq<Line>, pos: nat): (r: NextLine)
    requires pos <= |lines|
    ensures r.Found? ==> pos < r.ftell <= |lines| && lines[r.ftell - 1] == Entry(r.e)
    decreases |lines| - pos
  {
    if pos == |lines| then Eof
    else match lines[pos]
         case Blank => NextFrom(lines, pos + 1)
         case Comment => NextFrom(lines, pos + 1)
         case Malformed => Fatal
         case Entry(e) => Found(e, pos + 1)
  }

  /** The search goes from entry to entry. */
  lemma {:induction false} SearchSkips(lines: seq<Line>, devs: seq<Device>, t: seq<LockEntry>, sysname: string, speed: string,
                                       pos: nat, found: int, msg: Msg)
    requires pos <= |lines|
    ensures SearchFrom(lines, devs, t, sysname, speed, pos, found, msg) ==
            match NextFrom(lines, pos)
            case Eof => GiveUp(-1, found, msg)
            case Fatal => Quit
            case Found(_, k) => SearchFrom(lines, devs, t, sysname, speed, k - 1, found, msg)
    decreases |lines| - pos
  {
    if pos < |lines| && (lines[pos].Blank? || lines[pos].Comment?) {
      SearchSkips(lines, devs, t, sysname, speed, pos + 1, found, msg);
    }
  }

  /** What the search makes of the entry before position k. */
  lemma SearchEntry(lines: seq<Line>, devs: seq<Device>, t: seq<LockEntry>, sysname: string, speed: string,
                    k: nat, e: SysEntry, found: int, msg: Msg)
    requires 0 < k <= |lines| && lines[k - 1] == Entry(e)
    ensures SearchFrom(lines, devs, t, sysname, speed, k - 1, found, msg) ==
            if !Matches(e, sysname, speed) then SearchFrom(lines, devs, t, sysname, speed, k, found, msg)
            else match FindDev(devs, e.typ, e.class_)
                 case None => GiveUp(k, found + 1, NoDevice(e.typ, e.class_))
                 case Some(line) =>
                   if Holder(t, line) != 0
                   then SearchFrom(lines, devs, t, sysname, speed, k, found + 1, AlreadyLocked(line, Holder(t, line)))
                   else Dial(k - 1, line, found + 1, msg)
  {
  }

  /** A matching entry whose device exists and is not locked. */
  predicate Usable(lines: seq<Line>, devs: seq<Device>, t: seq<LockEntry>, k: nat, sysname: string, speed: string) {
    MatchAt(lines, k, sysname, speed)
    && var d := FindDev(devs, lines[k].e.typ, lines[k].e.class_);
       d.Some? && Holder(t, d.value) == 0
  }

  /** A matching entry whose device is not in the Devices file. */
  predicate MissingDevice(lines: seq<Line>, devs: seq<Device>, k: nat, sysname: string, speed: string) {
    MatchAt(lines, k, sysname, speed) && FindDev(devs, lines[k].e.typ, lines[k].e.class_).None?
  }

  /** An entry the search cannot get past. */
  predicate Stops(lines: seq<Line>, devs: seq<Device>, k: nat, sysname: string, speed: string) {
    k < |lines| && (lines[k].Malformed? || MissingDevice(lines, devs, k, sysname, speed))
  }

  predicate FirstUsable(lines: seq<Line>, devs: seq<Device>, t: seq<LockEntry>, pos: nat, k: nat, sysname: string, speed: string) {
    pos <= k && Usable(lines, devs, t, k, sysname, speed)
    && forall j :: pos <= j < k ==> !Usable(lines, devs, t, j, sysname, speed) && !Stops(lines, devs, j, sysname, speed)
  }

  /** The search dials exactly the first usable entry, if nothing stops it before. */
  lemma {:induction false} SearchDialsFirst(lines: seq<Line>, devs: seq<Device>, t: seq<LockEntry>, sysname: string, speed: string,
                                            pos: nat, found: int, msg: Msg, k: nat)
    requires pos <= |lines|
    ensures var r := SearchFrom(lines, devs, t, sysname, speed, pos, found, msg);
            && (r.Dial? && r.at == k <==> FirstUsable(lines, devs, t, pos, k, sysname, speed))
            && (r.Dial? ==> r.at < |lines|)
            && (r.Dial? && r.at == k ==> r.line == FindDev(devs, lines[k].e.typ, lines[k].e.class_).value)
    decreases |lines| - pos
  {
    if pos < |lines| {
      var l := lines[pos];
      if Usable(lines, devs, t, pos, sysname, speed) || Stops(lines, devs, pos, sysname, speed) {
        assert FirstUsable(lines, devs, t, pos, k, sysname, speed) ==> k == pos;
      } else {
        var found', msg' := if l.Entry? && Matches(l.e, sysname, speed) then found + 1 else found,
                            if l.Entry? && Matches(l.e, sysname, speed)
                            then var d := FindDev(devs, l.e.typ, l.e.class_).value; AlreadyLocked(d, Holder(t, d)) else msg;
        SearchDialsFirst(lines, devs, t, sysname, speed, pos + 1, found', msg', k);
        assert FirstUsable(lines, devs, t, pos, k, sysname, speed) <==> FirstUsable(lines, devs, t, pos + 1, k, sysname, speed);
      }
    }
  }

  predicate FirstMissing(lines: seq<Line>, devs: seq<Device>, t: seq<LockEntry>, pos: nat, k: nat, sysname: string, speed: string) {
    pos <= k && MissingDevice(lines, devs, k, sysname, speed)
    && forall j :: pos <= j < k ==> !Usable(lines, devs, t, j, sysname, speed) && !Stops(lines, devs, j, sysname, speed)
  }

  /** A search that fails leaves the position at -1, unless a device is missing:
      then it leaves it after that entry, the first that stops it. */
  lemma {:induction false} SearchGivesUp(lines: seq<Line>, devs: seq<Device>, t: seq<LockEntry>, sysname: string, speed: string,
                                         pos: nat, found: int, msg: Msg, k: nat)
    requires pos <= |lines|
    ensures var r := SearchFrom(lines, devs, t, sysname, speed, pos, found, msg);
            && (r.GiveUp? && r.ftell == k + 1 <==> FirstMissing(lines, devs, t, pos, k, sysname, speed))
            && (r.GiveUp? ==> r.ftell == -1 || pos < r.ftell <= |lines|)
    decreases |lines| - pos
  {
    if pos < |lines| {
      var l := lines[pos];
      if Usable(lines, devs, t, pos, sysname, speed) || Stops(lines, devs, pos, sysname, speed) {
        assert FirstMissing(lines, devs, t, pos, k, sysname, speed) ==> k == pos;
      } else {
        var found', msg' := if l.Entry? && Matches(l.e, sysname, speed) then found + 1 else found,
                            if l.Entry? && Matches(l.e, sysname, speed)
                            then var d := FindDev(devs, l.e.typ, l.e.class_).value; AlreadyLocked(d, Holder(t, d)) else msg;
        SearchGivesUp(lines, devs, t, sysname, speed, pos + 1, found', msg', k);
        assert FirstMissing(lines, devs, t, pos, k, sysname, speed) <==> FirstMissing(lines, devs, t, pos + 1, k, sysname, speed);
      }
    }
  }

  predicate FirstMalformed(lines: seq<Line>, devs: seq<Device>, t: seq<LockEntry>, pos: nat, k: nat, sysname: string, speed: string) {
    pos <= k < |lines| && lines[k].Malformed?
    && forall j :: pos <= j < k ==> !Usable(lines, devs, t, j, sysname, speed) && !Stops(lines, devs, j, sysname, speed)
  }

  /** A search ends the program exactly when it meets a malformed line before
      anything else ends it. */
  lemma {:induction false} SearchQuits(lines: seq<Line>, devs: seq<Device>, t: seq<LockEntry>, sysname: string, speed: string,
                                       pos: nat, found: int, msg: Msg)
    requires pos <= |lines|
    ensures SearchFrom(lines, devs, t, sysname, speed, pos, found, msg).Quit? <==>
            exists k: nat :: FirstMalformed(lines, devs, t, pos, k, sysname, speed)
    decreases |lines| - pos
  {
    if pos < |lines| {
      var l := lines[pos];
      if l.Malformed? {
        assert FirstMalformed(lines, devs, t, pos, pos, sysname, speed);
      } else if Usable(lines, devs, t, pos, sysname, speed) || Stops(lines, devs, pos, sysname, speed) {
        forall k: nat ensures !FirstMalformed(lines, devs, t, pos, k, sysname, speed) {}
      } else {
        var found', msg' := if l.Entry? && Matches(l.e, sysname, speed) then found + 1 else found,
                            if l.Entry? && Matches(l.e, sysname, speed)
                            then var d := FindDev(devs, l.e.typ, l.e.class_).value; AlreadyLocked(d, Holder(t, d)) else msg;
        SearchQuits(lines, devs, t, sysname, speed, pos + 1, found', msg');
        assert SearchFrom(lines, devs, t, sysname, speed, pos, found, msg) == SearchFrom(lines, devs, t, sysname, speed, pos + 1, found', msg');
        forall k: nat ensures FirstMalformed(lines, devs, t, pos, k, sysname, speed) <==> FirstMalformed(lines, devs, t, pos + 1, k, sysname, speed) {
          hide Usable, Stops;
        }
        if SearchFrom(lines, devs, t, sysname, speed, pos, found, msg).Quit? {
          var k: nat :| FirstMalformed(lines, devs, t, pos + 1, k, sysname, speed);
          assert FirstMalformed(lines, devs, t, pos, k, sysname, speed);
        }
        if k: nat :| FirstMalformed(lines, devs, t, pos, k, sysname, speed) {
          assert FirstMalformed(lines, devs, t, pos + 1, k, sysname, speed);
        }
      }
    }
  }

  /** Matching entries from pos up to end. */
  function CountMatches(lines: seq<Line>, sysname: string, speed: string, pos: nat, end: nat): nat
    requires pos <= end <= |lines|
    decreases end - pos
  {
    if pos == end then 0
    else (if MatchAt(lines, pos, sysname, speed) then 1 else 0) + CountMatches(lines, sysname, speed, pos + 1, end)
  }

  /** The last match from pos up to end, or none. */
  predicate LastMatch(lines: seq<Line>, sysname: string, speed: string, pos: nat, end: nat, k: nat)
    requires end <= |lines|
  {
    pos <= k < end && MatchAt(lines, k, sysname, speed) && forall j :: k < j < end ==> !MatchAt(lines, j, sysname, speed)
  }

  /** What a search that fails at the end of the file reports: how many entries
      matched, and the holder of the last one's device. */
  lemma {:induction false} SearchReports(lines: seq<Line>, devs: seq<Device>, t: seq<LockEntry>, sysname: string, speed: string,
                                         pos: nat, found: int, msg: Msg)
    requires pos <= |lines|
    ensures var r := SearchFrom(lines, devs, t, sysname, speed, pos, found, msg);
            && (r.Dial? ==> r.at < |lines| && pos <= r.at && r.found == found + CountMatches(lines, sysname, speed, pos, r.at + 1))
            && (r.GiveUp? && r.ftell > 0 ==>
                  pos < r.ftell <= |lines| && r.found == found + CountMatches(lines, sysname, speed, pos, r.ftell)
                  && lines[r.ftell - 1].Entry? && r.msg == NoDevice(lines[r.ftell - 1].e.typ, lines[r.ftell - 1].e.class_))
            && (r.GiveUp? && r.ftell <= 0 ==>
                  && r.found == found + CountMatches(lines, sysname, speed, pos, |lines|)
                  && ((forall k :: pos <= k < |lines| ==> !MatchAt(lines, k, sysname, speed)) ==> r.msg == msg)
                  && forall k: nat :: LastMatch(lines, sysname, speed, pos, |lines|, k) ==>
                       var d := FindDev(devs, lines[k].e.typ, lines[k].e.class_);
                       d.Some? && Holder(t, d.value) != 0 && r.msg == AlreadyLocked(d.value, Holder(t, d.value)))
    decreases |lines| - pos
  {
    if pos < |lines| && !lines[pos].Malformed? {
      var l := lines[pos];
      if l.Entry? && Matches(l.e, sysname, speed) {
        assert MatchAt(lines, pos, sysname, speed);
        match FindDev(devs, l.e.typ, l.e.class_)
        case None => assert CountMatches(lines, sysname, speed, pos + 1, pos + 1) == 0;
        case Some(d) =>
          if Holder(t, d) == 0 {
            assert CountMatches(lines, sysname, speed, pos + 1, pos + 1) == 0;
          } else {
            SearchReports(lines, devs, t, sysname, speed, pos + 1, found + 1, AlreadyLocked(d, Holder(t, d)));
          }
      } else {
        assert !MatchAt(lines, pos, sysname, speed);
        SearchReports(lines, devs, t, sysname, speed, pos + 1, found, msg);
      }
    }
  }

  /** One entry without a device: the search fails and leaves the position at 1. */
  lemma FailsPastEntry()
    ensures var e := SysEntry("host1", "ACU", "1200", "5551234");
            var d := Device("ACU", "cua0", "19200");
            SearchFrom([Entry(e)], [d], [], "host1", "", 0, 0, Empty) == GiveUp(1, 1, NoDevice("ACU", "1200"))
  {
    var d := Device("ACU", "cua0", "19200");
    assert FindDev([d], "ACU", "1200") == FindDev([d][1..], "ACU", "1200") == None;
  }

  /** The search reads the lock table only through who holds which line. */
  lemma {:induction false} SearchFrame(lines: seq<Line>, devs: seq<Device>, t: seq<LockEntry>, u: seq<LockEntry>, sysname: string, speed: string,
                                       pos: nat, found: int, msg: Msg)
    requires pos <= |lines| && forall l :: Holder(t, l) == Holder(u, l)
    ensures SearchFrom(lines, devs, t, sysname, speed, pos, found, msg) == SearchFrom(lines, devs, u, sysname, speed, pos, found, msg)
    decreases |lines| - pos
  {
    if pos < |lines| {
      SearchFrame(lines, devs, t, u, sysname, speed, pos + 1, found, msg);
      var l := lines[pos];
      if l.Entry? && Matches(l.e, sysname, speed) {
        match FindDev(devs, l.e.typ, l.e.class_)
        case None =>
        case Some(d) => SearchFrame(lines, devs, t, u, sysname, speed, pos + 1, found + 1, AlreadyLocked(d, Holder(t, d)));
      }
    }
  }

  // ---------------------------------------------------------------- retries

  predicate Increasing(xs: seq<nat>) { forall a, b :: 0 <= a < b < |xs| ==> xs[a] < xs[b] }

  /** Entries dialled so far for a client's request. */
  predicate HistoryOk(lines: seq<Line>, x: Client, xs: seq<nat>) {
    && -1 <= x.sysftell <= |lines|
    && Increasing(xs)
    && forall k <- xs :: MatchAt(lines, k, x.sysname, x.speed) && (x.sysftell < 0 || k < x.sysftell)
  }

  function Matching(lines: seq<Line>, sysname: string, speed: string): set<nat> {
    set k: nat | k < |lines| && MatchAt(lines, k, sysname, speed)
  }

  lemma {:induction false} IncreasingInSet(xs: seq<nat>, s: set<nat>)
    requires Increasing(xs) && forall x <- xs :: x in s
    ensures |xs| <= |s|
  {
    if xs != [] {
      var n := |xs| - 1;
      IncreasingInSet(xs[..n], s - {xs[n]});
    }
  }

  /** Never more children than matching entries, and no entry dialled twice. */
  lemma RetriesBounded(lines: seq<Line>, x: Client, xs: seq<nat>)
    requires HistoryOk(lines, x, xs)
    ensures |xs| <= |Matching(lines, x.sysname, x.speed)|
    ensures forall a, b :: 0 <= a < b < |xs| ==> xs[a] != xs[b]
  {
    forall k <- xs ensures k in Matching(lines, x.sysname, x.speed) {}
    IncreasingInSet(xs, Matching(lines, x.sysname, x.speed));
  }
}
