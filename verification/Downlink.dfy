/**
  The downlink loop of `nm-snx-service.c`: packets read from the tunnel are handed to the TUN
  device, and every sign of life resets the count of missed keepalives.
 */
module Downlink {
  import opened Wrappers
  import opened Bits
  import opened Slim
  import opened Sexpr
  import opened SexprGrammar
  import opened SexprWriter
  import opened SslTunnel

  /** What `write` to the TUN device does: a full queue drops the packet, other errors are fatal. */
  datatype TunWrite = Written | Again | Fatal

  /** How a run of the loop went: payloads passed to `write`, resets, and why it ended. */
  datatype Ended = ReceiveFailed(why: Outcome) | DeviceFailed
  datatype Traffic = Traffic(handed: seq<seq<byte>>, resets: nat, ended: Ended)

  function Chars(b: seq<byte>): string { seq(|b|, i requires 0 <= i < |b| => b[i] as char) }

  /** Control text that resets the counter: any object named "keepalive". */
  predicate IsKeepalive(text: seq<byte>)
  {
    var e := Parse(Chars(text));
    e.Some? && ObjectName(e) == Some("keepalive")
  }

  /** What `write` answers to the `i`th data packet; writes beyond the list succeed. */
  function Answer(writes: seq<TunWrite>, i: nat): TunWrite
  {
    if i < |writes| then writes[i] else Written
  }

  /** The loop, given how often `write` was called before. */
  function Run(buffer: seq<byte>, incoming: seq<ReadResult>, writes: seq<TunWrite>, i: nat): Traffic
    requires |buffer| < WORD
    decreases Backlog(buffer, incoming)
  {
    PacketUsesBacklog(buffer, incoming);
    var r := ReadOne(buffer, incoming);
    if !r.outcome.Got? then Traffic([], 0, ReceiveFailed(r.outcome))
    else
      match r.outcome.packet
      case Data(payload) =>
        if Answer(writes, i).Fatal? then Traffic([payload], 0, DeviceFailed)
        else
          var more := Run(r.buffer, r.incoming, writes, i + 1);
          more.(handed := [payload] + more.handed, resets := more.resets + 1)
      case Control(text) =>
        var more := Run(r.buffer, r.incoming, writes, i);
        more.(resets := more.resets + if IsKeepalive(text) then 1 else 0)
  }

  function Before(handed: seq<seq<byte>>, resets: nat, more: Traffic): Traffic
  {
    more.(handed := handed + more.handed, resets := resets + more.resets)
  }

  /** One round of the loop. */
  lemma RunStep(buffer: seq<byte>, incoming: seq<ReadResult>, writes: seq<TunWrite>, i: nat)
    requires |buffer| < WORD
    ensures ReadOne(buffer, incoming).outcome.Got? ==> |ReadOne(buffer, incoming).buffer| < WORD
    ensures var r := ReadOne(buffer, incoming);
            Run(buffer, incoming, writes, i)
            == if !r.outcome.Got? then Traffic([], 0, ReceiveFailed(r.outcome))
               else match r.outcome.packet
                    case Data(payload) =>
                      if Answer(writes, i).Fatal? then Traffic([payload], 0, DeviceFailed)
                      else Before([payload], 1, Run(r.buffer, r.incoming, writes, i + 1))
                    case Control(text) =>
                      Before([], if IsKeepalive(text) then 1 else 0, Run(r.buffer, r.incoming, writes, i))
  {
    hide ReadOne, IsKeepalive, Backlog;
    PacketUsesBacklog(buffer, incoming);
  }

  lemma BeforeTwice(a: seq<seq<byte>>, m: nat, b: seq<seq<byte>>, n: nat, more: Traffic)
    ensures Before(a, m, Before(b, n, more)) == Before(a + b, m + n, more)
  {
    assert a + b + more.handed == a + (b + more.handed);
  }

  lemma NothingBefore(all: Traffic)
    ensures Before([], 0, all) == all
  {
    assert [] + all.handed == all.handed;
  }

  lemma NothingMore(handed: seq<seq<byte>>, resets: nat, end: Ended)
    ensures Before(handed, resets, Traffic([], 0, end)) == Traffic(handed, resets, end)
  {
    assert handed + [] == handed;
  }

  lemma OneMore(handed: seq<seq<byte>>, resets: nat, payload: seq<byte>, end: Ended)
    ensures Before(handed, resets, Traffic([payload], 0, end)) == Traffic(handed + [payload], resets, end)
  {
  }

  /** `downlink_thread_func`. */
  method DownlinkThread(tunnel: TunnelReader, writes: seq<TunWrite>) returns (traffic: Traffic)
    requires |tunnel.recvBuffer| < WORD
    modifies tunnel
    ensures traffic == Run(old(tunnel.recvBuffer), old(tunnel.incoming), writes, 0)
  {
    hide IsKeepalive, ReadOne, Backlog, Run, Before;
    var handed, resets := [], 0;
    ghost var all := Run(tunnel.recvBuffer, tunnel.incoming, writes, 0);
    NothingBefore(all);
    while true
      invariant |tunnel.recvBuffer| < WORD
      invariant all == Before(handed, resets, Run(tunnel.recvBuffer, tunnel.incoming, writes, |handed|))
      decreases Backlog(tunnel.recvBuffer, tunnel.incoming)
    {
      PacketUsesBacklog(tunnel.recvBuffer, tunnel.incoming);
      RunStep(tunnel.recvBuffer, tunnel.incoming, writes, |handed|);
      var outcome := tunnel.ReadOnePacket();
      if !outcome.Got? {
        NothingMore(handed, resets, ReceiveFailed(outcome));
        return Traffic(handed, resets, ReceiveFailed(outcome));
      }
      match outcome.packet {
        case Data(payload) =>
          var answer := Answer(writes, |handed|);
          if answer.Fatal? {
            OneMore(handed, resets, payload, DeviceFailed);
            return Traffic(handed + [payload], resets, DeviceFailed);
          }
          BeforeTwice(handed, resets, [payload], 1,
                      Run(tunnel.recvBuffer, tunnel.incoming, writes, |handed| + 1));
          handed := handed + [payload];
          resets := resets + 1;
        case Control(text) =>
          BeforeTwice(handed, resets, [], if IsKeepalive(text) then 1 else 0,
                      Run(tunnel.recvBuffer, tunnel.incoming, writes, |handed|));
          assert handed + [] == handed;
          if IsKeepalive(text) {
            resets := resets + 1;
          }
      }
    }
  }

  // ---- what reaches the device ----

  function DataOf(ps: seq<Packet>): seq<seq<byte>>
  {
    if ps == [] then []
    else (if ps[0].Data? then [ps[0].payload] else []) + DataOf(ps[1..])
  }

  function KeepalivesIn(ps: seq<Packet>): nat
  {
    if ps == [] then 0
    else KeepalivesIn(ps[1..]) + if ps[0].Control? && IsKeepalive(ps[0].text) then 1 else 0
  }

  /** No write up to the `n`th data packet is fatal. */
  predicate NoneFatal(writes: seq<TunWrite>, i: nat, n: nat)
  {
    forall k :: i <= k < i + n ==> !Answer(writes, k).Fatal?
  }

  /** Only a frame that is not roomy can meet the limit of the receive buffer. */
  predicate SomeNotRoomy(ps: seq<Packet>) { exists p :: p in ps && !Roomy(p) }

  lemma NotRoomyBehind(ps: seq<Packet>)
    requires ps != []
    ensures SomeNotRoomy(ps[1..]) || !Roomy(ps[0]) ==> SomeNotRoomy(ps)
  {
    hide Roomy;
    assert ps[0] in ps && forall p :: p in ps[1..] ==> p in ps;
  }

  /**
    The device is handed exactly the data packets, in order, for every split of the stream;
    every data packet and every keepalive resets the counter; the loop ends with the stream. If
    the buffer meets its limit first, the device has been handed the data packets up to there.
   */
  lemma {:induction false} DataReachesDevice(ps: seq<Packet>, buffer: seq<byte>, incoming: seq<ReadResult>,
                                             writes: seq<TunWrite>, i: nat)
    requires forall p :: p in ps ==> Sendable(p)
    requires |buffer| < WORD && ValidReads(incoming) && buffer + Delivered(incoming) == EncodeAll(ps)
    requires NoneFatal(writes, i, |DataOf(ps)|)
    ensures var t := Run(buffer, incoming, writes, i);
            if t.ended == ReceiveFailed(Overflow) then t.handed <= DataOf(ps) && SomeNotRoomy(ps)
            else && t.handed == DataOf(ps) && t.resets == |DataOf(ps)| + KeepalivesIn(ps)
                 && t.ended in {ReceiveFailed(Closed), ReceiveFailed(ReadError)}
    decreases |ps|
  {
    hide IsKeepalive, ReadOne, Encode, Backlog, Roomy, SomeNotRoomy, Sendable;
    PacketUsesBacklog(buffer, incoming);
    if ps == [] {
      StreamIsOver(buffer, incoming);
    } else {
      assert ps[0] in ps;
      ReadsFirst(ps[0], buffer, incoming, EncodeAll(ps[1..]));
      NotRoomyBehind(ps);
      var r := ReadOne(buffer, incoming);
      if r.outcome.Got? {
        DataReachesDevice(ps[1..], r.buffer, r.incoming, writes, if ps[0].Data? then i + 1 else i);
      }
    }
  }

  /** A fatal write ends the loop with that packet: nothing behind it reaches the device. */
  lemma {:induction false} FatalWriteStops(ps: seq<Packet>, buffer: seq<byte>, incoming: seq<ReadResult>,
                                           writes: seq<TunWrite>, i: nat, n: nat)
    requires forall p :: p in ps ==> Sendable(p)
    requires |buffer| < WORD && ValidReads(incoming) && buffer + Delivered(incoming) == EncodeAll(ps)
    requires n < |DataOf(ps)| && NoneFatal(writes, i, n) && Answer(writes, i + n).Fatal?
    ensures var t := Run(buffer, incoming, writes, i);
            if t.ended == ReceiveFailed(Overflow) then t.handed <= DataOf(ps)[..n] && SomeNotRoomy(ps)
            else t.handed == DataOf(ps)[..n + 1] && t.ended == DeviceFailed
    decreases |ps|
  {
    hide IsKeepalive, ReadOne, Encode, Backlog, Roomy, SomeNotRoomy, Sendable;
    PacketUsesBacklog(buffer, incoming);
    assert ps[0] in ps;
    ReadsFirst(ps[0], buffer, incoming, EncodeAll(ps[1..]));
    NotRoomyBehind(ps);
    var r := ReadOne(buffer, incoming);
    if !r.outcome.Got? {
    } else if ps[0].Control? {
      FatalWriteStops(ps[1..], r.buffer, r.incoming, writes, i, n);
      assert DataOf(ps) == DataOf(ps[1..]);
    } else if n > 0 {
      assert !Answer(writes, i).Fatal?;
      FatalWriteStops(ps[1..], r.buffer, r.incoming, writes, i + 1, n - 1);
      assert DataOf(ps)[..n + 1] == [ps[0].payload] + DataOf(ps[1..])[..n];
      assert DataOf(ps)[..n] == [ps[0].payload] + DataOf(ps[1..])[..n - 1];
    } else {
      assert DataOf(ps)[..1] == [ps[0].payload];
    }
  }

  lemma CharsOfAscii(s: string)
    requires forall c :: c in s ==> c as int < 256
    ensures Chars(Ascii(s)) == s
  {
    forall i | 0 <= i < |s| ensures Chars(Ascii(s))[i] == s[i] {
      assert s[i] in s;
    }
  }

  lemma TreeIsKeepalive()
    ensures Clean(KeepaliveTree()) && ObjectName(Some(Denote(KeepaliveTree()))) == Some("keepalive")
  {
    var fields := KeepaliveTree().fields;
    assert AllAtomChars("id") && PlainName("keepalive") && fields[1..] == [];
    assert Denote(KeepaliveTree()) == List([Atom("keepalive")] + DenoteFields(fields));
    assert Child(Some(Denote(KeepaliveTree())), 0) == Some(Atom("keepalive"));
  }

  lemma KeepaliveText()
    ensures Text(KeepaliveTree(), 0) == "(keepalive\n\t:id (0))"
  {
    var fields, level := KeepaliveTree().fields, 1;
    assert Text(Value("0"), level) == "(0)";
    assert Tabs(level) == Tabs(0) + "\t" && Tabs(0) == "";
    assert FieldsText(fields, level) == "\n\t:id (0)" + FieldsText(fields[1..], level);
  }

  /**
    A control text resets the counter if and only if it is a list, in any layout, whose first
    item is the atom "keepalive"; any other object and any text that is not one list do not.
   */
  lemma KeepaliveExactly(text: seq<byte>)
    ensures IsKeepalive(text)
            <==> exists gap, l, tail :: AllBlank(gap) && AllBlank(tail) && Formed(l)
                                        && Chars(text) == gap + Shown(l) + tail && Begins(l, "keepalive")
  {
    hide Parse, Formed, Shown, Means, Chars;
    if IsKeepalive(text) {
      var e := Parse(Chars(text)).value;
      TextIsGrammar(Chars(text), e);
      var gap, l, tail :| AllBlank(gap) && AllBlank(tail) && Formed(l) && Means(l) == e
                          && Chars(text) == gap + Shown(l) + tail;
      NameBegins(l, "keepalive");
    }
    if gap, l, tail :| AllBlank(gap) && AllBlank(tail) && Formed(l) && Chars(text) == gap + Shown(l) + tail
                       && Begins(l, "keepalive") {
      TextIsGrammar(Chars(text), Means(l));
      NameBegins(l, "keepalive");
    }
  }

  predicate Begins(l: Layout, name: string)
  {
    l.Items? && l.pieces != [] && Means(l.pieces[0].item) == Atom(name)
  }

  lemma NameBegins(l: Layout, name: string)
    requires name != "" && name[0] != ':'
    ensures ObjectName(Some(Means(l))) == Some(name) <==> Begins(l, name)
  {
  }

  /** The keepalive this side sends passes the test it applies to what it receives. */
  lemma OwnKeepaliveIsRecognised()
    ensures IsKeepalive(Keepalive().text) && ValidPacket(Keepalive())
  {
    hide Text, Denote, Parse, ObjectName, Clean, KeepaliveTree;
    TreeIsKeepalive();
    KeepaliveText();
    var text := Text(KeepaliveTree(), 0);
    CharsOfAscii(text);
    RoundTrip(KeepaliveTree(), 0);
  }
}
