/** The probe packet of mqas/src/tools/stream/p2p_helper_client.cpp, and its way from the
    server's offer to the server's mark. */
module Probe {
  import opened Bytes
  import opened Wrappers
  import opened P2pContext
  import SimplePkg

  datatype VerifyMsg = VerifyMsg(code: u32, peer: PeerId, ipIndex: u16)

  // The body send_verify_msg lays out: code, own id, address index.
  function VerifyBody(m: VerifyMsg): (b: seq<u8>)
    ensures |b| == 10
  {
    BigEndian(m.code, 4) + BigEndian(m.peer, 4) + BigEndian(m.ipIndex, 2)
  }

  function TryParseVerifyMsg(body: seq<u8>): Option<VerifyMsg> {
    if |body| != 10 then None
    else
      Pow256Values();
      Some(VerifyMsg(Value(body[0..4]), Value(body[4..8]), Value(body[8..10])))
  }

  lemma VerifyBodySlices(m: VerifyMsg)
    ensures var b := VerifyBody(m);
      b[0..4] == BigEndian(m.code, 4) && b[4..8] == BigEndian(m.peer, 4) && b[8..10] == BigEndian(m.ipIndex, 2)
  {
    var x, y, z := BigEndian(m.code, 4), BigEndian(m.peer, 4), BigEndian(m.ipIndex, 2);
    var b := x + y + z;
    assert b[0..4] == x && b[4..8] == y && b[8..10] == z;
  }

  lemma ProbeBodyRoundTrip(m: VerifyMsg)
    ensures TryParseVerifyMsg(VerifyBody(m)) == Some(m)
  {
    VerifyBodySlices(m);
    Pow256Values();
    ValueOfBigEndian(m.code, 4);
    ValueOfBigEndian(m.peer, 4);
    ValueOfBigEndian(m.ipIndex, 2);
  }

  // A ten-byte body is a probe and nothing else is: it carries exactly its three numbers.
  lemma ParsedProbeIsLayout(body: seq<u8>)
    ensures TryParseVerifyMsg(body).Some? <==> |body| == 10
    ensures |body| == 10 ==> VerifyBody(TryParseVerifyMsg(body).value) == body
  {
    if |body| == 10 {
      var x, y, z := body[0..4], body[4..8], body[8..10];
      BigEndianOfValue(x);
      BigEndianOfValue(y);
      BigEndianOfValue(z);
      var m := TryParseVerifyMsg(body).value;
      assert BigEndian(m.code, 4) == x && BigEndian(m.peer, 4) == y && BigEndian(m.ipIndex, 2) == z;
      assert body == x + y + z;
    }
  }

  // The packet peer `self` sends when it is offered `o`.
  function ProbePacket(crc: SimplePkg.Checksum, o: Offer, self: PeerId): seq<u8> {
    SimplePkg.Frame(crc, VerifyBody(VerifyMsg(o.code, self, o.ipIndex % 0x1_0000)))
  }

  // What the peer that receives a datagram reports to the server.
  function Received(crc: SimplePkg.Checksum, datagram: seq<u8>): Option<Submitted> {
    match SimplePkg.ParseCommand(crc, datagram)
    case None => None
    case Some(pkg) =>
      match TryParseVerifyMsg(pkg.body)
      case None => None
      case Some(m) => Some(Submitted(m.code, m.peer, m.ipIndex))
  }

  lemma PacketArrives(crc: SimplePkg.Checksum, o: Offer, self: PeerId, rest: seq<u8>)
    ensures Received(crc, ProbePacket(crc, o, self) + rest) == Some(Submitted(o.code, self, o.ipIndex % 0x1_0000))
  {
    var m := VerifyMsg(o.code, self, o.ipIndex % 0x1_0000);
    SimplePkg.ParseFrame(crc, VerifyBody(m), rest);
    ProbeBodyRoundTrip(m);
  }

  // The context still waits for the probe that offer o to x asks for.
  predicate StillHeld(d: Cxt, x: PeerId, o: Offer) {
    d.state.Trying() && d.verifyCode.At(OthIdx(d.pid, x)) == o.code
  }

  // An offer's index fits the probe and stays positive in 16 bits.
  lemma OfferedIndexFits(c: Cxt, clients: map<PeerId, PeerData>, x: PeerId)
    requires TrialOk(c) && ConnectData(c, clients, x).Some?
    ensures 0 <= ConnectData(c, clients, x).value.ipIndex < 0x8000
    ensures StillHeld(c, x, ConnectData(c, clients, x).value)
  {
  }

  // What the report of x's probe by the other peer does to a context of the pair.
  lemma ReportMarksIffHeld(d: Cxt, x: PeerId, o: Offer)
    requires d.pid.a != d.pid.b && (x == d.pid.a || x == d.pid.b) && 0 <= o.ipIndex < 0x8000
    ensures
      var y, i, msg := Other(d.pid, x), SelfIdx(d.pid, x), Submitted(o.code, x, o.ipIndex);
      && Other(d.pid, y) == x
      && (Match(d, Report(y, msg), i) <==> StillHeld(d, x, o))
      && var (d', both) := Submit(d, y, msg);
         && (StillHeld(d, x, o) ==>
               && d' == d.(tag := With(d.tag, i, o.ipIndex), submits := d'.submits)
               && d'.submits == With(d.submits, i, d.submits.At(i)[o.ipIndex := msg])
               && (both <==> d.tag.At(1 - i) >= 0))
         && (!StillHeld(d, x, o) ==> d' == d)
  {
  }

  lemma ProbeReaches(
    crc: SimplePkg.Checksum, c: Cxt, clients: map<PeerId, PeerData>, x: PeerId, rest: seq<u8>)
    requires TrialOk(c) && ConnectData(c, clients, x).Some?
    ensures var o := ConnectData(c, clients, x).value;
      && Received(crc, ProbePacket(crc, o, x) + rest) == Some(Submitted(o.code, x, o.ipIndex))
      && 0 <= o.ipIndex < 0x8000 && o.code == c.verifyCode.At(OthIdx(c.pid, x))
  {
    OfferedIndexFits(c, clients, x);
    PacketArrives(crc, ConnectData(c, clients, x).value, x, rest);
  }

  // End to end: what the server offers x in context c, sent by x as a probe, received and
  // reported by the other peer y after any registrations, steps, reports and leaves in
  // between. The report matches, and marks x's side with the offered index and nothing else,
  // if and only if the context is still being tried under the offered code; it is if no step
  // has drawn new codes. Otherwise the report changes nothing.
  lemma ProbeEndToEnd(
    crc: SimplePkg.Checksum, c: Cxt, clients: map<PeerId, PeerData>, x: PeerId, ops: seq<Op>, rest: seq<u8>)
    requires TrialOk(c) && c.pid.a != c.pid.b && (x == c.pid.a || x == c.pid.b)
    requires ConnectData(c, clients, x).Some?
    ensures
      var y, o, i := Other(c.pid, x), ConnectData(c, clients, x).value, SelfIdx(c.pid, x);
      var msg := Received(crc, ProbePacket(crc, o, x) + rest);
      var d := ApplyAll(c, ops);
      && msg.Some? && msg.value.peer == x == Other(c.pid, y) && 0 <= o.ipIndex < 0x8000
      && (Match(d, Report(y, msg.value), i) <==> StillHeld(d, x, o))
      && (NoneDrawn(c, ops) && d.state.Trying() ==> StillHeld(d, x, o))
      && var (d', both) := Submit(d, y, msg.value);
         && (StillHeld(d, x, o) ==>
               && d' == d.(tag := With(d.tag, i, o.ipIndex), submits := d'.submits)
               && d'.submits == With(d.submits, i, d.submits.At(i)[o.ipIndex := msg.value])
               && (both <==> d.tag.At(1 - i) >= 0))
         && (!StillHeld(d, x, o) ==> d' == d)
  {
    var d := ApplyAll(c, ops);
    ProbeReaches(crc, c, clients, x, rest);
    CodesStay(c, ops);
    ReportMarksIffHeld(d, x, ConnectData(c, clients, x).value);
  }

  // The two reports on contexts of the pair, with `between` happening after the first.
  lemma TwoReports(d: Cxt, x: PeerId, ox: Offer, oy: Offer, between: seq<Op>)
    requires d.pid.a != d.pid.b && (x == d.pid.a || x == d.pid.b)
    requires 0 <= ox.ipIndex < 0x8000 && 0 <= oy.ipIndex < 0x8000
    ensures
      var y, i := Other(d.pid, x), SelfIdx(d.pid, x);
      var d1 := Submit(d, y, Submitted(ox.code, x, ox.ipIndex)).0;
      var e := ApplyAll(d1, between);
      var (e1, both) := Submit(e, x, Submitted(oy.code, y, oy.ipIndex));
      var last := LastMatch(d1, between, i);
      && d1.verifyCode == d.verifyCode && d1.pid == d.pid == e.pid
      && (StillHeld(d, x, ox) && StillHeld(e, y, oy) ==>
            && (both <==> last.None? || ToI16(last.value.ipIndex) >= 0)
            && (both <==> BothReceived(e1)) && e1.state == e.state)
  {
    var y, i := Other(d.pid, x), SelfIdx(d.pid, x);
    ReportMarksIffHeld(d, x, ox);
    var d1 := Submit(d, y, Submitted(ox.code, x, ox.ipIndex)).0;
    CodesStay(d1, between);
    TagIsLastMatch(d1, between, i);
    ReportMarksIffHeld(ApplyAll(d1, between), y, oy);
  }

  // Rendezvous: both peers are offered each other in context c; y reports x's probe after any
  // events `before`, and x reports y's after any events `between` more. If each offer is still
  // held when its report comes in, the last report finds both sides marked, unless a later
  // report for x's side has named an index that is negative in 16 bits. The offers are still
  // held if no step has drawn new codes.
  lemma Rendezvous(
    crc: SimplePkg.Checksum, c: Cxt, clients: map<PeerId, PeerData>, x: PeerId, before: seq<Op>, between: seq<Op>)
    requires TrialOk(c) && c.pid.a != c.pid.b && (x == c.pid.a || x == c.pid.b)
    requires ConnectData(c, clients, x).Some? && ConnectData(c, clients, Other(c.pid, x)).Some?
    ensures
      var y, i := Other(c.pid, x), SelfIdx(c.pid, x);
      var ox, oy := ConnectData(c, clients, x).value, ConnectData(c, clients, y).value;
      var toY, toX := Received(crc, ProbePacket(crc, ox, x)), Received(crc, ProbePacket(crc, oy, y));
      && toY.Some? && toX.Some?
      && var d := ApplyAll(c, before);
         var d1 := Submit(d, y, toY.value).0;
         var e := ApplyAll(d1, between);
         var (e1, both) := Submit(e, x, toX.value);
         var last := LastMatch(d1, between, i);
         && (StillHeld(d, x, ox) && StillHeld(e, y, oy) ==>
               && (both <==> last.None? || ToI16(last.value.ipIndex) >= 0)
               && (both <==> BothReceived(e1)) && e1.state == e.state)
         && (NoneDrawn(c, before) && NoneDrawn(d1, between) && d.state.Trying() && e.state.Trying() ==>
               StillHeld(d, x, ox) && StillHeld(e, y, oy))
  {
    var y := Other(c.pid, x);
    var ox, oy := ConnectData(c, clients, x).value, ConnectData(c, clients, y).value;
    ProbeReaches(crc, c, clients, x, []);
    ProbeReaches(crc, c, clients, y, []);
    assert ProbePacket(crc, ox, x) + [] == ProbePacket(crc, ox, x);
    assert ProbePacket(crc, oy, y) + [] == ProbePacket(crc, oy, y);
    var d := ApplyAll(c, before);
    CodesStay(c, before);
    TwoReports(d, x, ox, oy, between);
    CodesStay(Submit(d, y, Submitted(ox.code, x, ox.ipIndex)).0, between);
  }
}
