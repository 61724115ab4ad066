/**
  The tunnel stream of `snx-ssl-tunnel.c`: one reader that puts packets back together from
  whatever pieces the socket delivers, and several writers that share the socket under a
  lock.
 */
module SslTunnel {
  import opened Wrappers
  import opened Bits
  import opened Slim
  import opened SexprWriter

  // ---- reading ----

  const CHUNK: nat := 4096

  /** What one read from the socket brings. */
  datatype ReadResult = Bytes(data: seq<byte>) | Eof | Failed {
    predicate Valid() { Bytes? ==> 0 < |data| <= CHUNK }
  }

  /** A byte array cannot reach 4 GiB: GLib stops the process first. */
  datatype Outcome = Got(packet: Packet) | Unknown(tag: word) | Closed | ReadError | Overflow

  /** A packet, what is left in the buffer, and what is left to be read. */
  datatype Progress = Progress(outcome: Outcome, buffer: seq<byte>, incoming: seq<ReadResult>)

  /** `read_one_packet`: decodes the buffer, and reads more until that succeeds. */
  function ReadOne(buffer: seq<byte>, incoming: seq<ReadResult>): (p: Progress)
    decreases |incoming|
  {
    match Decode(buffer)
    case Complete(packet, consumed) =>
      Progress(Got(packet), if consumed <= |buffer| then buffer[consumed..] else [], incoming)
    case UnknownType(tag) => Progress(Unknown(tag), buffer, incoming)
    case NeedMore =>
      if incoming == [] || incoming[0].Eof? then Progress(Closed, buffer, incoming)
      else if incoming[0].Failed? then Progress(ReadError, buffer, incoming)
      else if |buffer + incoming[0].data| >= WORD then Progress(Overflow, buffer, incoming)
      else ReadOne(buffer + incoming[0].data, incoming[1..])
  }

  class TunnelReader {
    var recvBuffer: seq<byte>
    var incoming: seq<ReadResult>

    constructor (incoming: seq<ReadResult>)
      ensures recvBuffer == [] && this.incoming == incoming
    {
      recvBuffer := [];
      this.incoming := incoming;
    }

    method ReadOnePacket() returns (outcome: Outcome)
      modifies this
      ensures Progress(outcome, recvBuffer, incoming) == ReadOne(old(recvBuffer), old(incoming))
    {
      while true
        invariant ReadOne(recvBuffer, incoming) == ReadOne(old(recvBuffer), old(incoming))
        decreases |incoming|
      {
        hide Decode;
        var packet, consumed, unknown := SlimDecode(recvBuffer);
        if packet.Some? {
          recvBuffer := if consumed <= |recvBuffer| then recvBuffer[consumed..] else [];
          return Got(packet.value);
        }
        if unknown.Some? {
          return Unknown(unknown.value);
        }
        if incoming == [] || incoming[0].Eof? {
          return Closed;
        }
        if incoming[0].Failed? {
          return ReadError;
        }
        if |recvBuffer + incoming[0].data| >= WORD {
          return Overflow;
        }
        recvBuffer := recvBuffer + incoming[0].data;
        incoming := incoming[1..];
      }
    }
  }

  // ---- reassembly ----

  /** The bytes that the reads bring before they end. */
  function Delivered(incoming: seq<ReadResult>): seq<byte>
  {
    if incoming == [] || !incoming[0].Bytes? then [] else incoming[0].data + Delivered(incoming[1..])
  }

  predicate ValidReads(incoming: seq<ReadResult>) { forall r :: r in incoming ==> r.Valid() }

  /** A packet whose frame, header and payload together, is under 4 GiB. */
  predicate Sendable(p: Packet) { ValidPacket(p) && |Encode(p)| < WORD }

  /** A frame that always fits the receive buffer, even with one more chunk behind it. */
  predicate Roomy(p: Packet) { |Encode(p)| + CHUNK <= WORD }

  function EncodeAll(ps: seq<Packet>): seq<byte>
  {
    if ps == [] then [] else Encode(ps[0]) + EncodeAll(ps[1..])
  }

  lemma PrefixOf(a: seq<byte>, b: seq<byte>, c: seq<byte>, d: seq<byte>)
    requires a + b == c + d
    ensures |a| >= |c| ==> a == c + a[|c|..] && a[|c|..] + b == d
    ensures |a| < |c| ==> a == c[..|a|]
  {
    var s := a + b;
    assert a == s[..|a|] && c == s[..|c|] && d == s[|c|..];
  }

  /**
    However the bytes are cut up, the first frame yields its packet and nothing else is lost.
    Only a frame within one chunk of 4 GiB can run into the limit of the buffer.
   */
  lemma {:induction false} ReadsFirst(p: Packet, buffer: seq<byte>, incoming: seq<ReadResult>, rest: seq<byte>)
    requires Sendable(p) && ValidReads(incoming)
    requires buffer + Delivered(incoming) == Encode(p) + rest
    ensures var r := ReadOne(buffer, incoming);
            || (r.outcome == Got(p) && r.buffer + Delivered(r.incoming) == rest && ValidReads(r.incoming))
            || (r.outcome == Overflow && !Roomy(p))
    decreases |incoming|
  {
    hide Encode, Decode;
    PrefixOf(buffer, Delivered(incoming), Encode(p), rest);
    if |buffer| >= |Encode(p)| {
      DecodeInverse(p, buffer[|Encode(p)|..]);
    } else {
      DecodePrefix(p, |buffer|);
      if incoming == [] || !incoming[0].Bytes? {
        assert false;
      }
      assert incoming[0] in incoming;
      var more := buffer + incoming[0].data;
      if |more| < WORD {
        assert more + Delivered(incoming[1..]) == buffer + Delivered(incoming);
        ReadsFirst(p, more, incoming[1..], rest);
      }
    }
  }

  /** What repeated calls of the reader returned, and the outcome that stopped them, if one did. */
  datatype Batch = Batch(packets: seq<Packet>, buffer: seq<byte>, incoming: seq<ReadResult>, stopped: Option<Outcome>)

  function ReadMany(n: nat, buffer: seq<byte>, incoming: seq<ReadResult>): Batch
  {
    if n == 0 then Batch([], buffer, incoming, None)
    else
      var p := ReadOne(buffer, incoming);
      if !p.outcome.Got? then Batch([], p.buffer, p.incoming, Some(p.outcome))
      else
        var b := ReadMany(n - 1, p.buffer, p.incoming);
        b.(packets := [p.outcome.packet] + b.packets)
  }

  lemma FirstFrame(ps: seq<Packet>, rest: seq<byte>)
    ensures ps == [] ==> EncodeAll(ps) + rest == rest
    ensures ps != [] ==> EncodeAll(ps) + rest == Encode(ps[0]) + (EncodeAll(ps[1..]) + rest)
  {
    hide Encode;
  }

  /**
    Only the limit of the buffer stops the reader early, with the packets so far in hand and at
    a frame that is not roomy.
   */
  predicate StoppedAtLimit(ps: seq<Packet>, r: Batch)
  {
    r.stopped == Some(Overflow) && |r.packets| < |ps| && r.packets <= ps && !Roomy(ps[|r.packets|])
  }

  /**
    Reading a stream of frames returns exactly the packets sent, in order, for every split, or
    stops at the limit of the buffer. If every frame is roomy it does not stop.
   */
  lemma {:induction false} Reassembles(ps: seq<Packet>, buffer: seq<byte>, incoming: seq<ReadResult>, rest: seq<byte>)
    requires forall p :: p in ps ==> Sendable(p)
    requires ValidReads(incoming) && buffer + Delivered(incoming) == EncodeAll(ps) + rest
    ensures var r := ReadMany(|ps|, buffer, incoming);
            if r.stopped == None then
              r.packets == ps && r.buffer + Delivered(r.incoming) == rest && ValidReads(r.incoming)
            else StoppedAtLimit(ps, r)
    decreases |ps|
  {
    hide ReadOne, Encode, EncodeAll, Delivered, Sendable, Roomy, ValidReads;
    FirstFrame(ps, rest);
    if ps != [] {
      var behind := EncodeAll(ps[1..]) + rest;
      assert ps[0] in ps;
      ReadsFirst(ps[0], buffer, incoming, behind);
      var p := ReadOne(buffer, incoming);
      if p.outcome.Got? {
        Reassembles(ps[1..], p.buffer, p.incoming, rest);
        assert ps == [ps[0]] + ps[1..];
      }
    }
  }

  /** After the last packet the buffer is empty, and the end of the stream is reported as such. */
  lemma ReassemblesAll(ps: seq<Packet>, incoming: seq<ReadResult>)
    requires forall p :: p in ps ==> Sendable(p)
    requires ValidReads(incoming) && Delivered(incoming) == EncodeAll(ps)
    ensures var r := ReadMany(|ps|, [], incoming);
            if r.stopped == None then
              r.packets == ps && r.buffer == [] && ReadOne(r.buffer, r.incoming).outcome in {Closed, ReadError}
            else StoppedAtLimit(ps, r)
    ensures (forall p :: p in ps ==> Roomy(p)) ==> ReadMany(|ps|, [], incoming).stopped == None
  {
    hide ReadMany, ReadOne, Delivered, EncodeAll, Encode, Sendable, Roomy, ValidReads;
    assert [] + Delivered(incoming) == EncodeAll(ps) + [];
    Reassembles(ps, [], incoming, []);
    var last := ReadMany(|ps|, [], incoming);
    if last.stopped == None {
      StreamIsOver(last.buffer, last.incoming);
    }
  }

  lemma StreamIsOver(buffer: seq<byte>, incoming: seq<ReadResult>)
    requires ValidReads(incoming) && buffer + Delivered(incoming) == []
    ensures buffer == [] && ReadOne(buffer, incoming).outcome in {Closed, ReadError}
  {
    assert |buffer + Delivered(incoming)| == |buffer| + |Delivered(incoming)|;
    NothingDelivered(incoming);
  }

  lemma NothingDelivered(incoming: seq<ReadResult>)
    requires ValidReads(incoming) && Delivered(incoming) == []
    ensures incoming == [] || !incoming[0].Bytes?
  {
    if incoming != [] {
      assert incoming[0] in incoming;
    }
  }

  /** What is still to be decoded, in the buffer or on its way. */
  function Backlog(buffer: seq<byte>, incoming: seq<ReadResult>): nat
  {
    |buffer| + |Delivered(incoming)|
  }

  /** Every packet, whatever the bytes are, uses up at least a header of the backlog. */
  lemma {:induction false} PacketUsesBacklog(buffer: seq<byte>, incoming: seq<ReadResult>)
    requires |buffer| < WORD
    ensures var r := ReadOne(buffer, incoming);
            |r.buffer| < WORD
            && (r.outcome.Got? ==> Backlog(r.buffer, r.incoming) + HEADER <= Backlog(buffer, incoming))
    decreases |incoming|
  {
    hide GetBe32, ControlText;
    if Decode(buffer).NeedMore? && incoming != [] && incoming[0].Bytes? && |buffer + incoming[0].data| < WORD {
      PacketUsesBacklog(buffer + incoming[0].data, incoming[1..]);
    }
  }

  // ---- writing ----

  function KeepaliveTree(): Writer { Object(Some("keepalive"), [Field("id", Value("0"))]) }

  function Ascii(s: string): seq<byte> { seq(|s|, i requires 0 <= i < |s| => s[i] as int % 256) }

  /** The packet of `snx_ssl_tunnel_send_keepalive`. */
  function Keepalive(): Packet { Control(Ascii(Text(KeepaliveTree(), 0))) }

  /** A write of the socket takes some bytes, at least one, or fails. */
  datatype WriteResult = Took(count: nat) | WriteFailed

  class OutputStream {
    var wire: seq<byte>
    var locked: bool

    constructor ()
      ensures wire == [] && !locked
    {
      wire, locked := [], false;
    }

    /** `g_output_stream_write_all`: goes on until everything is written or a write fails. */
    method WriteAll(data: seq<byte>, results: seq<WriteResult>) returns (ok: bool, written: nat)
      requires forall r :: r in results && r.Took? ==> r.count > 0
      modifies `wire
      ensures written <= |data| && wire == old(wire) + data[..written] && (ok <==> written == |data|)
    {
      written := 0;
      var i := 0;
      while written < |data|
        invariant written <= |data| && wire == old(wire) + data[..written] && i <= |results|
        decreases |data| - written
      {
        if i == |results| || results[i].WriteFailed? {
          return false, written;
        }
        assert results[i] in results;
        var n := if results[i].count < |data| - written then results[i].count else |data| - written;
        wire := wire + data[written..written + n];
        written := written + n;
        i := i + 1;
      }
      return true, written;
    }

    /** `snx_ssl_tunnel_send_data` and `snx_ssl_tunnel_send_keepalive`: one frame under the lock. */
    method Send(packet: Packet, results: seq<WriteResult>) returns (ok: bool)
      requires !locked && forall r :: r in results && r.Took? ==> r.count > 0
      modifies this
      ensures !locked
      ensures if ok then wire == old(wire) + Encode(packet)
              else exists k :: 0 <= k < |Encode(packet)| && wire == old(wire) + Encode(packet)[..k]
    {
      hide Encode;
      var frame := SlimEncode(packet);
      locked := true;
      var written;
      ok, written := WriteAll(frame[..], results);
      locked := false;
      assert ok ==> frame[..][..written] == frame[..];
    }
  }

  // ---- several senders ----

  /**
    The wire as the senders see it: `acquired` lists the packets in the order in which their
    senders took the lock, `progress` is how much of the last one its sender, who still holds
    the lock, has written.
   */
  datatype Wire = Wire(bytes: seq<byte>, acquired: seq<Packet>, progress: Option<nat>, broken: bool)

  function InitWire(): Wire { Wire([], [], None, false) }

  predicate Lock(a: Wire, b: Wire, p: Packet)
  {
    a.progress == None && b == a.(acquired := a.acquired + [p], progress := Some(0))
  }

  /** The holder writes a piece of its frame. */
  predicate WritePiece(a: Wire, b: Wire, n: nat)
  {
    && a.progress.Some? && a.acquired != [] && n > 0
    && var frame, k := Encode(a.acquired[|a.acquired| - 1]), a.progress.value;
       k + n <= |frame| && b == a.(bytes := a.bytes + frame[k..k + n], progress := Some(k + n))
  }

  /** The holder lets go of the lock: with its frame complete, or because a write failed. */
  predicate Unlock(a: Wire, b: Wire)
  {
    && a.progress.Some? && a.acquired != []
    && var failed := a.progress.value < |Encode(a.acquired[|a.acquired| - 1])|;
       b == a.(progress := None, broken := a.broken || failed)
  }

  ghost predicate WireStep(a: Wire, b: Wire)
  {
    || (exists p :: Lock(a, b, p))
    || (exists n :: WritePiece(a, b, n))
    || Unlock(a, b)
  }

  ghost predicate WireRun(run: seq<Wire>)
  {
    && run != [] && run[0] == InitWire()
    && forall i :: 0 <= i < |run| - 1 ==> WireStep(run[i], run[i + 1])
  }

  /** The frames whose senders have let go of the lock. */
  function Finished(w: Wire): seq<Packet>
  {
    if w.progress.Some? && w.acquired != [] then w.acquired[..|w.acquired| - 1] else w.acquired
  }

  /** The piece of a frame at the end of the wire. */
  function Partial(w: Wire): seq<byte>
  {
    if w.progress.Some? && w.acquired != [] && w.progress.value <= |Encode(w.acquired[|w.acquired| - 1])|
    then Encode(w.acquired[|w.acquired| - 1])[..w.progress.value] else []
  }

  predicate Framed(w: Wire)
  {
    && (w.progress.Some? ==> w.acquired != [] && w.progress.value <= |Encode(w.acquired[|w.acquired| - 1])|)
    && (!w.broken ==> w.bytes == EncodeAll(Finished(w)) + Partial(w))
  }

  lemma {:induction false} EncodeAllAppend(ps: seq<Packet>, p: Packet)
    ensures EncodeAll(ps + [p]) == EncodeAll(ps) + Encode(p)
  {
    hide Encode;
    if ps == [] {
      assert [p][1..] == [] && EncodeAll([p]) == Encode(p) + EncodeAll([]);
    } else {
      assert (ps + [p])[1..] == ps[1..] + [p];
      EncodeAllAppend(ps[1..], p);
    }
  }

  lemma StepKeepsFramed(a: Wire, b: Wire)
    requires Framed(a) && WireStep(a, b)
    ensures Framed(b) && (a.broken ==> b.broken) && a.acquired <= b.acquired && a.bytes <= b.bytes
  {
    hide Encode, EncodeAll, Lock, WritePiece, Unlock, Framed;
    if p: Packet :| Lock(a, b, p) {
      LockKeepsFramed(a, b, p);
    } else if n: nat :| WritePiece(a, b, n) {
      PieceKeepsFramed(a, b, n);
    } else {
      UnlockKeepsFramed(a, b);
    }
  }

  lemma LockKeepsFramed(a: Wire, b: Wire, p: Packet)
    requires Framed(a) && Lock(a, b, p)
    ensures Framed(b) && a.broken == b.broken && a.acquired <= b.acquired && a.bytes == b.bytes
  {
    hide Encode, EncodeAll;
    assert b.acquired[..|b.acquired| - 1] == a.acquired;
    assert Partial(a) == Partial(b) == [];
  }

  lemma PieceKeepsFramed(a: Wire, b: Wire, n: nat)
    requires Framed(a) && WritePiece(a, b, n)
    ensures Framed(b) && a.broken == b.broken && a.acquired == b.acquired && a.bytes <= b.bytes
  {
    hide Encode, EncodeAll;
    var frame, k := Encode(a.acquired[|a.acquired| - 1]), a.progress.value;
    assert frame[..k] + frame[k..k + n] == frame[..k + n];
    var whole := EncodeAll(Finished(a));
    assert whole + (frame[..k] + frame[k..k + n]) == whole + frame[..k] + frame[k..k + n];
  }

  lemma UnlockKeepsFramed(a: Wire, b: Wire)
    requires Framed(a) && Unlock(a, b)
    ensures Framed(b) && (a.broken ==> b.broken) && a.acquired == b.acquired && a.bytes == b.bytes
  {
    hide Encode, EncodeAll;
    if !b.broken {
      var front, p := a.acquired[..|a.acquired| - 1], a.acquired[|a.acquired| - 1];
      EncodeAllAppend(front, p);
      assert a.acquired == front + [p];
      assert Encode(p)[..|Encode(p)|] == Encode(p);
      assert b.bytes + [] == b.bytes;
    }
  }

  /**
    However the senders interleave: until the first failed write the wire holds whole frames
    in the order of lock acquisition and then at most a prefix of one more frame, and nothing
    but whole frames whenever the lock is free.
   */
  lemma {:induction false} WireIsFramed(run: seq<Wire>, i: nat)
    requires WireRun(run) && i < |run|
    ensures Framed(run[i])
    ensures !run[i].broken && run[i].progress == None ==> run[i].bytes == EncodeAll(run[i].acquired)
  {
    hide Encode, WireStep;
    if i > 0 {
      WireIsFramed(run, i - 1);
      assert WireStep(run[i - 1], run[i - 1 + 1]);
      StepKeepsFramed(run[i - 1], run[i]);
    }
    assert run[i].bytes + [] == run[i].bytes;
  }

  /**
    End to end: what the senders of any run put on the wire, cut up in any way, is read back
    as the packets in the order in which their senders took the lock.
   */
  lemma SentIsReceived(run: seq<Wire>, i: nat, incoming: seq<ReadResult>)
    requires WireRun(run) && i < |run| && !run[i].broken
    requires forall p :: p in run[i].acquired ==> Sendable(p)
    requires ValidReads(incoming) && Delivered(incoming) == run[i].bytes
    ensures var sent := Finished(run[i]); var r := ReadMany(|sent|, [], incoming);
            if r.stopped == None then r.packets == sent && r.buffer + Delivered(r.incoming) == Partial(run[i])
            else StoppedAtLimit(sent, r)
  {
    hide ReadMany, Encode, Roomy;
    WireIsFramed(run, i);
    assert [] + Delivered(incoming) == Delivered(incoming);
    Reassembles(Finished(run[i]), [], incoming, Partial(run[i]));
  }
}
