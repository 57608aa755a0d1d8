/** Passing descriptors and error messages (unix_source/lib.sun): senderr.c,
sendfd.c, writen.c and recvfd.c.  A message is followed by a two-byte trailer, a
null byte and a status; status 0 comes with a descriptor. */
module Framing {
  import opened Common

  type byte = x: int | 0 <= x < 256

  function Minus(b: byte): int { 0 - (b as int) }

  // ---------------------------------------------------------------- sending

  /** The status byte for an error code: its magnitude in one char, never 0. */
  function Status(errcode: int): byte
    requires errcode < 0
  {
    if -errcode % 256 == 0 then 1 else -errcode % 256
  }

  /** What one recvmsg() delivers. */
  datatype Chunk = Chunk(data: seq<byte>, fd: Option<nat>)

  /** A stream connection: the bytes sent so far, the descriptor passed, and how
      often a write of something took nothing. */
  class Connection {
    var sent: seq<byte>
    var passed: Option<nat>
    ghost var stalls: nat

    /** write() takes any part of the buffer; 0 when it can take no more. */
    method Write(buf: seq<byte>) returns (n: nat)
      modifies this`sent, this`stalls
      ensures n <= |buf| && sent == old(sent) + buf[..n]
      ensures stalls == old(stalls) + if n == 0 < |buf| then 1 else 0
    {
      var taken: int := *;
      n := if 0 <= taken <= |buf| then taken else |buf|;
      sent := sent + buf[..n];
      stalls := stalls + if n == 0 < |buf| then 1 else 0;
    }

    /** writen(): all bytes, in order, over any partial writes; fewer if and only if
        a write takes nothing, and then at once. */
    method Writen(buf: seq<byte>) returns (r: nat)
      modifies this`sent, this`stalls
      ensures r == |buf| <==> stalls == old(stalls)
      ensures r == |buf| ==> sent == old(sent) + buf
      ensures r != |buf| ==> r == 0 && stalls == old(stalls) + 1 && exists k :: 0 <= k < |buf| && sent == old(sent) + buf[..k]
    {
      var ptr := 0;
      while ptr < |buf|
        invariant 0 <= ptr <= |buf| && sent == old(sent) + buf[..ptr] && stalls == old(stalls)
        decreases |buf| - ptr
      {
        ghost var before := sent;
        var n := Write(buf[ptr..]);
        if n == 0 { return 0; }
        assert buf[..ptr + n] == buf[..ptr] + buf[ptr..][..n];
        ptr := ptr + n;
      }
      assert buf[..ptr] == buf;
      r := |buf|;
    }

    /** send_fd(): the trailer, with the descriptor or an error status. */
    method SendFd(fd: int)
      modifies this`sent, this`passed
      ensures fd < 0 ==> sent == old(sent) + [0, Status(fd)] && passed == old(passed)
      ensures fd >= 0 ==> sent == old(sent) + [0, 0] && passed == Some(fd)
    {
      var buf: array<byte> := new byte[2](_ => 0);
      if fd < 0 {
        buf[1] := -fd % 256;
        if buf[1] == 0 { buf[1] := 1; }
      } else {
        passed := Some(fd);
        buf[1] := 0;
      }
      buf[0] := 0;
      assert buf[..] == [buf[0], buf[1]];
      sent := sent + buf[..];
    }

    /** send_err(): the message and then the trailer of a negative code. */
    method SendErr(errcode: int, msg: seq<byte>) returns (rc: int)
      modifies this
      ensures rc == if stalls == old(stalls) then 0 else -1
      ensures rc == 0 ==> sent == old(sent) + msg + [0, Status(if errcode >= 0 then -1 else errcode)]
      ensures rc == -1 ==> exists k :: 0 <= k < |msg| && sent == old(sent) + msg[..k]
      ensures passed == old(passed)
    {
      var n := |msg|;
      if n > 0 {
        var w := Writen(msg);
        if w != n { return -1; }
      }
      var code := errcode;
      if code >= 0 { code := -1; }
      SendFd(code);
      rc := 0;
    }
  }

  // ---------------------------------------------------------------- receiving

  /** Closed is the -1 of an early end; a received value is a descriptor or minus
      the status; the last three end the program or report the user function. */
  datatype Outcome = Received(value: int) | Closed | FormatError | NoDescriptor | UserFailed

  function FirstNull(s: seq<byte>): (z: nat)
    ensures z <= |s| && (z < |s| ==> s[z] == 0) && forall j :: 0 <= j < z ==> s[j] != 0
  {
    if s == [] || s[0] == 0 then 0 else 1 + FirstNull(s[1..])
  }

  /** recv_fd() over the chunks that recvmsg() delivers: outcome, and the bytes
      handed to the user function. */
  function Recv(chunks: seq<Chunk>, accepts: seq<byte> -> bool): (Outcome, seq<byte>) {
    if chunks == [] || chunks[0].data == [] then (Closed, [])
    else
      var c := chunks[0].data;
      var z := FirstNull(c);
      if z == |c| then
        if !accepts(c) then (UserFailed, c)
        else
          var (r, out) := Recv(chunks[1..], accepts);
          (r, c + out)
      else if z + 2 != |c| then (FormatError, [])
      else if c[z + 1] == 0 && chunks[0].fd.None? then (NoDescriptor, [])
      else if z > 0 && !accepts(c[..z]) then (UserFailed, c[..z])
      else (Received(if c[z + 1] == 0 then chunks[0].fd.value else Minus(c[z + 1])), c[..z])
  }

  /** One chunk at the front of what is left. */
  lemma RecvAt(chunks: seq<Chunk>, n: nat, accepts: seq<byte> -> bool)
    requires n < |chunks| && chunks[n].data != []
    ensures Recv(chunks[n..], accepts) ==
            var c, z := chunks[n].data, FirstNull(chunks[n].data);
            if z == |c| then
              if !accepts(c) then (UserFailed, c)
              else (Recv(chunks[n + 1..], accepts).0, c + Recv(chunks[n + 1..], accepts).1)
            else if z + 2 != |c| then (FormatError, [])
            else if c[z + 1] == 0 && chunks[n].fd.None? then (NoDescriptor, [])
            else if z > 0 && !accepts(c[..z]) then (UserFailed, c[..z])
            else (Received(if c[z + 1] == 0 then chunks[n].fd.value else Minus(c[z + 1])), c[..z])
  {
    assert chunks[n..][0] == chunks[n] && chunks[n..][1..] == chunks[n + 1..];
  }

  lemma RecvEnd(chunks: seq<Chunk>, accepts: seq<byte> -> bool)
    requires chunks == [] || chunks[0].data == []
    ensures Recv(chunks, accepts) == (Closed, [])
  {}

  method RecvFd(chunks: seq<Chunk>, accepts: seq<byte> -> bool) returns (r: Outcome, out: seq<byte>)
    ensures (r, out) == Recv(chunks, accepts)
  {
    var status := -1;
    var newfd := 0;
    var n := 0;
    out := [];
    assert chunks[0..] == chunks && [] + Recv(chunks, accepts).1 == Recv(chunks, accepts).1;
    hide Recv, FirstNull;
    while true
      invariant 0 <= n <= |chunks| && status == -1
      invariant Recv(chunks, accepts) == (Recv(chunks[n..], accepts).0, out + Recv(chunks[n..], accepts).1)
      decreases |chunks| - n
    {
      if n == |chunks| || chunks[n].data == [] {
        RecvEnd(chunks[n..], accepts);
        assert out + [] == out;
        return Closed, out;
      }
      var buf := chunks[n].data;
      var nread := |buf|;
      RecvAt(chunks, n, accepts);
      ghost var before := out;
      var ptr := 0;
      while ptr < nread
        invariant 0 <= ptr <= |buf|
        invariant if status < 0 then nread == |buf| && status == -1 && forall j :: 0 <= j < ptr ==> buf[j] != 0
                  else FirstNull(buf) + 2 == |buf| == ptr + 1 && nread == |buf| - 2 && status == buf[|buf| - 1]
                       && (status == 0 ==> chunks[n].fd == Some(newfd)) && (status > 0 ==> newfd == 0 - status)
        decreases if status < 0 then 1 else 0, |buf| - ptr
      {
        ptr := ptr + 1;
        if buf[ptr - 1] == 0 {
          FirstNullIs(buf, ptr - 1);
          assert out + [] == out;
          if ptr != nread - 1 { return FormatError, out; }
          status := buf[ptr];
          if status == 0 {
            if chunks[n].fd.None? { return NoDescriptor, out; }
            newfd := chunks[n].fd.value;
          } else {
            newfd := -status;
          }
          nread := nread - 2;
        }
      }
      if status < 0 {
        FirstNullIs(buf, |buf|);
      }
      if nread > 0 {
        out := out + buf[..nread];
        assert status < 0 ==> buf[..nread] == buf;
        if !accepts(buf[..nread]) { return UserFailed, out; }
        if status < 0 {
          assert before + (buf + Recv(chunks[n + 1..], accepts).1) == out + Recv(chunks[n + 1..], accepts).1;
        }
      }
      if status >= 0 {
        assert out == before + buf[..nread];
        return Received(newfd), out;
      }
      n := n + 1;
    }
  }

  lemma FirstNullIs(s: seq<byte>, z: nat)
    requires z <= |s| && (forall j :: 0 <= j < z ==> s[j] != 0) && (z < |s| ==> s[z] == 0)
    ensures FirstNull(s) == z
  {
  }

  // ---------------------------------------------------------------- round trip

  function Concat(chunks: seq<Chunk>): seq<byte> {
    if chunks == [] then [] else chunks[0].data + Concat(chunks[1..])
  }

  /** However the bytes of a message and its trailer are cut into chunks, the
      receiver gets the message and the status exactly when the two trailer bytes
      arrive together; otherwise it reports a format error. */
  lemma {:induction false} RoundTrip(chunks: seq<Chunk>, accepts: seq<byte> -> bool, msg: seq<byte>, status: byte)
    requires Concat(chunks) == msg + [0, status] && 0 !in msg
    requires (forall c <- chunks :: c.data != []) && (forall s :: accepts(s))
    ensures chunks != []
    ensures var last := chunks[|chunks| - 1];
            if |last.data| >= 2
            then if status == 0 && last.fd.None? then Recv(chunks, accepts).0 == NoDescriptor
                 else Recv(chunks, accepts) == (Received(if status == 0 then last.fd.value else Minus(status)), msg)
            else Recv(chunks, accepts).0 == FormatError
    decreases |chunks|
  {
    var c := chunks[0].data;
    var rest := chunks[1..];
    var all := msg + [0, status];
    assert c == all[..|c|] && Concat(rest) == all[|c|..];
    if |c| <= |msg| {
      assert forall x <- c :: x in msg;
      assert c[..|c|] == c;
      FirstNullIs(c, |c|);
      assert Concat(rest) == msg[|c|..] + [0, status];
      assert forall x <- msg[|c|..] :: x in msg;
      assert rest != [] ==> rest[|rest| - 1] == chunks[|chunks| - 1];
      RoundTrip(rest, accepts, msg[|c|..], status);
      assert c + msg[|c|..] == msg;
    } else {
      assert c[..|msg|] == msg;
      FirstNullIs(c, |msg|);
      if |c| == |msg| + 2 {
        assert Concat(rest) == [];
        assert rest == [] by { ConcatLength(rest); }
      } else {
        assert Concat(rest) == [status];
        ConcatLength(rest);
        assert rest == [rest[0]] && Concat(rest[1..]) == [];
      }
    }
  }

  lemma {:induction false} ConcatLength(chunks: seq<Chunk>)
    requires forall c <- chunks :: c.data != []
    ensures |Concat(chunks)| >= |chunks|
  {
    if chunks != [] { ConcatLength(chunks[1..]); }
  }

  /** A connection that ends without a trailer: everything is handed over, then -1. */
  lemma {:induction false} CutShort(chunks: seq<Chunk>, accepts: seq<byte> -> bool)
    requires 0 !in Concat(chunks) && (forall c <- chunks :: c.data != []) && (forall s :: accepts(s))
    ensures Recv(chunks, accepts) == (Closed, Concat(chunks))
  {
    if chunks != [] {
      var c := chunks[0].data;
      assert forall x <- c :: x in Concat(chunks);
      assert forall x <- Concat(chunks[1..]) :: x in Concat(chunks);
      FirstNullIs(c, |c|);
      CutShort(chunks[1..], accepts);
    }
  }

  /** A user function that refuses chunk k of a message stops the receiver there,
      with everything up to that chunk handed over. */
  lemma {:induction false} UserRefuses(chunks: seq<Chunk>, accepts: seq<byte> -> bool, k: nat)
    requires k < |chunks| && 0 !in Concat(chunks[..k + 1]) && forall c <- chunks :: c.data != []
    requires (forall j :: 0 <= j < k ==> accepts(chunks[j].data)) && !accepts(chunks[k].data)
    ensures Recv(chunks, accepts) == (UserFailed, Concat(chunks[..k + 1]))
    decreases k
  {
    var c, upto := chunks[0].data, chunks[..k + 1];
    assert upto[0] == chunks[0] && upto[1..] == chunks[1..][..k];
    assert forall x <- c :: x in Concat(upto);
    assert forall x <- Concat(upto[1..]) :: x in Concat(upto);
    FirstNullIs(c, |c|);
    if k > 0 { UserRefuses(chunks[1..], accepts, k - 1); } else { assert c + [] == c; }
  }

  /** The code that comes back: itself from -255 to -1, and otherwise its negation
      modulo 256 with 0 turned into 1; non-negative codes become -1. */
  lemma ErrorCode(errcode: int)
    ensures var sent := Status(if errcode >= 0 then -1 else errcode);
            && 1 <= sent <= 255
            && (-255 <= errcode < 0 <==> errcode < 0 && Minus(sent) == errcode)
            && (errcode >= 0 ==> Minus(sent) == -1)
            && (errcode < -255 ==> sent == if errcode % 256 == 0 then 1 else 256 - errcode % 256)
  {
  }

  /** Sender to receiver: the message and its error code, over any chunks that keep
      the trailer together. */
  lemma SendErrRoundTrip(chunks: seq<Chunk>, accepts: seq<byte> -> bool, msg: seq<byte>, errcode: int)
    requires 0 !in msg && Concat(chunks) == msg + [0, Status(if errcode >= 0 then -1 else errcode)]
    requires (forall c <- chunks :: c.data != []) && (forall s :: accepts(s))
    requires chunks != [] && |chunks[|chunks| - 1].data| >= 2
    ensures Recv(chunks, accepts).1 == msg
    ensures -255 <= errcode < 0 ==> Recv(chunks, accepts).0 == Received(errcode)
    ensures errcode >= 0 ==> Recv(chunks, accepts).0 == Received(-1)
    ensures errcode < -255 ==> Recv(chunks, accepts).0 == Received(0 - if errcode % 256 == 0 then 1 else 256 - errcode % 256)
  {
    RoundTrip(chunks, accepts, msg, Status(if errcode >= 0 then -1 else errcode));
    ErrorCode(errcode);
  }
}
