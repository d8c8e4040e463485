/** The rendezvous of two peers behind address translation, seen by the helping server
    (mqas/src/tools/model/p2p_model.cpp): one context per pair of peers, the schedule by which
    it offers each peer's addresses to the other, and the codes by which it learns that a
    probe came through. */
module P2pContext {
  import opened Bytes
  import opened Wrappers

  type i8 = x: int | -0x80 <= x < 0x80
  type u64 = x: int | 0 <= x < 0x1_0000_0000_0000_0000

  // Conversion to int8_t.
  function ToI8(x: int): i8 { (x + 0x80) % 0x100 - 0x80 }

  lemma ToI8IsCongruent(x: int)
    ensures (ToI8(x) - x) % 0x100 == 0
  {
  }

  // std::array<T, 2>
  datatype Two<+T> = Two(a: T, b: T)
  {
    function At(i: nat): T requires i < 2 { if i == 0 then a else b }
  }

  function With<T>(t: Two<T>, i: nat, v: T): Two<T>
    requires i < 2
  {
    if i == 0 then t.(a := v) else t.(b := v)
  }

  datatype ConnectState = Idle | Ready | TryInternal | ChangeToExternal | TryExternal | Success | Wait
  {
    predicate Trying() { TryInternal? || TryExternal? }
  }

  datatype StepResult = NoStep | Stepped | End

  type PeerId = u32

  // struct peer_data, as far as it is offered to the other side
  datatype PeerData = PeerData(id: PeerId, ip: string, port: u16)

  datatype Submitted = Submitted(code: u32, peer: PeerId, ipIndex: u32)

  // struct connect_cxt
  datatype Cxt = Cxt(
    id: u64, pid: Two<PeerId>, ipList: Two<seq<string>>, portList: Two<u16>,
    state: ConnectState, stage1: i8, stage2: Two<i8>, tag: Two<i16>, verifyCode: Two<u32>,
    stream: Two<Option<nat>>, submits: Two<map<i16, Submitted>>)

  // A new entry of the server's table: both sides untried, codes and counters as memory held
  // them.
  function NewCxt(id: u64, codes: Two<u32>, counters: Two<i8>): Cxt {
    Cxt(id, Two(0, 0), Two([], []), Two(0, 0), Idle, 0, counters, Two(-1, -1),
        codes, Two(None, None), Two(map[], map[]))
  }

  const EXTERNAL_IP_INDEX: i16 := 9999

  function Other(pid: Two<PeerId>, x: PeerId): PeerId { if x == pid.a then pid.b else pid.a }
  function OthIdx(pid: Two<PeerId>, x: PeerId): nat { if x == pid.a then 1 else 0 }
  function SelfIdx(pid: Two<PeerId>, x: PeerId): nat { if x == pid.a then 0 else 1 }

  /* ---------- the key of a pair ---------- */

  // std::min and std::max
  function Min(a: PeerId, b: PeerId): PeerId { if b < a then b else a }
  function Max(a: PeerId, b: PeerId): PeerId { if a < b then b else a }

  // The source writes max | (min << 32); see ShiftOrIsSum.
  function MergeId(a: PeerId, b: PeerId): (id: u64) { Max(a, b) + Min(a, b) * 0x1_0000_0000 }

  lemma Halves(low: u32, high: u32)
    ensures (low + high * 0x1_0000_0000) % 0x1_0000_0000 == low
    ensures (low + high * 0x1_0000_0000) / 0x1_0000_0000 == high
  {
  }

  // The key in the source's own terms, a 64-bit shift and an or; both ids can be read back.
  lemma ShiftOrIsSum(a: PeerId, b: PeerId)
    ensures MergeId(a, b) == BitOr(Max(a, b), Shl(Min(a, b), 32) % 0x1_0000_0000_0000_0000)
    ensures MergeId(a, b) % 0x1_0000_0000 == Max(a, b) && MergeId(a, b) / 0x1_0000_0000 == Min(a, b)
  {
    ShlThirtyTwo(1);
    ShlThirtyTwo(Min(a, b));
    OrOfShifted(Max(a, b), Min(a, b), 32);
    Halves(Max(a, b), Min(a, b));
  }

  predicate SamePair<T(==)>(a: T, b: T, c: T, d: T) { (a == c && b == d) || (a == d && b == c) }

  // The key identifies the unordered pair, and nothing but the pair.
  lemma MergeIdInjective(a: PeerId, b: PeerId, c: PeerId, d: PeerId)
    ensures MergeId(a, b) == MergeId(c, d) <==> SamePair(a, b, c, d)
  {
  }

  /* ---------- the schedule ---------- */

  // Number of internal rounds: the list sizes as the int8_t the source keeps them in.
  function Rounds(c: Cxt): (m: nat)
    ensures 1 <= m <= 127
  {
    var n0, n1 := ToI8(|c.ipList.a|), ToI8(|c.ipList.b|);
    var longer := if n0 - 1 < n1 then n1 else n0 - 1;
    if longer < 1 then 1 else longer
  }

  // What holds between calls: both counters agree and are in range, and the change to the
  // external phase is never a resting state.
  predicate TrialOk(c: Cxt) {
    && !c.state.ChangeToExternal?
    && (c.state.Trying() ==> c.stage2.a == c.stage2.b >= 0)
    && (c.state.TryInternal? ==> c.stage2.a < Rounds(c))
    && (c.state.TryExternal? ==> c.stage2.a == 0)
  }

  function Enter(c: Cxt, s: ConnectState): Cxt { c.(state := s, stage1 := 0, stage2 := Two(0, 0)) }

  // One step of the schedule; `drawn` are the verify codes drawn if it draws any.
  function Next(c: Cxt, drawn: Two<u32>): (Cxt, StepResult) {
    match c.state
    case Idle => (c, NoStep)
    case Ready => (Enter(c, TryInternal), Stepped)
    case ChangeToExternal => (Enter(c, TryExternal), Stepped)
    case TryInternal =>
      if c.stage2.a + 1 < Rounds(c) then
        (c.(stage2 := Two(c.stage2.a + 1, c.stage2.a + 1), verifyCode := drawn), Stepped)
      else (Enter(c, TryExternal), Stepped)
    case TryExternal => (c.(state := Wait, stage2 := Two(1, 1)), End)
    case Success | Wait => (c, End)
  }

  // k calls from c, the i-th drawing draws(i).
  function Steps(c: Cxt, k: nat, draws: nat -> Two<u32>): Cxt {
    if k == 0 then c else Next(Steps(c, k - 1, draws), draws(k)).0
  }

  function Result(c: Cxt, k: nat, draws: nat -> Two<u32>): StepResult
    requires k > 0
  {
    Next(Steps(c, k - 1, draws), draws(k)).1
  }

  // The whole schedule from Ready, for address lists of any length: m internal rounds, one
  // external one, then the end for ever. New codes are drawn in internal rounds 2 to m only.
  lemma {:induction false} Schedule(c: Cxt, k: nat, draws: nat -> Two<u32>)
    requires c.state.Ready?
    ensures
      var m, s := Rounds(c), Steps(c, k, draws);
      && s == c.(state := s.state, stage1 := s.stage1, stage2 := s.stage2, verifyCode := s.verifyCode)
      && s.state == (if k == 0 then Ready else if k <= m then TryInternal else if k == m + 1 then TryExternal else Wait)
      && s.stage1 == (if k == 0 then c.stage1 else 0)
      && (k > 0 ==> s.stage2 == if k <= m then Two(k - 1, k - 1) else if k == m + 1 then Two(0, 0) else Two(1, 1))
      && (k > 0 ==> Result(c, k, draws) == if k <= m + 1 then Stepped else End)
      && s.verifyCode == (if k <= 1 || m == 1 then c.verifyCode else if k <= m then draws(k) else draws(m))
  {
    if k > 0 {
      Schedule(c, k - 1, draws);
    }
  }

  // For lists that fit, the number of internal rounds in the source's own terms.
  lemma RoundsOfShortLists(c: Cxt)
    requires |c.ipList.a| <= 127 && |c.ipList.b| <= 127
    ensures Rounds(c) >= 1 && Rounds(c) >= |c.ipList.a| - 1 && Rounds(c) >= |c.ipList.b|
    ensures Rounds(c) == 1 || Rounds(c) == |c.ipList.a| - 1 || Rounds(c) == |c.ipList.b|
  {
  }

  // The counters keep track of long lists exactly when these are no longer than 127: one
  // address more, and the list counts as one of length -128.
  lemma SizeFitsIff(ips: seq<string>)
    ensures ToI8(|ips|) == |ips| <==> |ips| <= 127
  {
  }

  lemma LongListIsCutShort(c: Cxt)
    requires |c.ipList.a| == 128 && |c.ipList.b| == 128
    ensures Rounds(c) == 1
  {
  }

  /* ---------- what is offered ---------- */

  // NotifyConnectPeerData
  datatype Offer = Offer(peer: PeerId, ip: string, port: u16, code: u32, ipIndex: int)

  function ConnectData(c: Cxt, clients: map<PeerId, PeerData>, self: PeerId): Option<Offer> {
    if !c.state.Trying() then None
    else
      var oth, idx := Other(c.pid, self), OthIdx(c.pid, self);
      var ipIdx := c.stage2.At(idx);
      // a negative index compares as a huge unsigned one
      if self !in clients || oth !in clients || ipIdx < 0 || ipIdx >= |c.ipList.At(idx)| then None
      else if c.state.TryInternal? then
        Some(Offer(oth, c.ipList.At(idx)[ipIdx], c.portList.At(idx), c.verifyCode.At(idx), ipIdx))
      else
        Some(Offer(oth, clients[oth].ip, clients[oth].port, c.verifyCode.At(idx), EXTERNAL_IP_INDEX))
  }

  // Some internal round offers self the i-th address of the other peer.
  ghost predicate Offered(c: Cxt, clients: map<PeerId, PeerData>, self: PeerId, i: nat, draws: nat -> Two<u32>) {
    exists k: nat :: OfferedAt(Steps(c, k, draws), clients, self, i)
  }

  predicate OfferedAt(s: Cxt, clients: map<PeerId, PeerData>, self: PeerId, i: nat) {
    var idx := OthIdx(s.pid, self);
    && s.state.TryInternal? && i < |s.ipList.At(idx)|
    && var o := ConnectData(s, clients, self);
       o.Some? && o.value.ipIndex == i && o.value.ip == s.ipList.At(idx)[i]
       && o.value.port == s.portList.At(idx) && o.value.peer == Other(s.pid, self)
  }

  // Address i of a peer is offered to the other one exactly when there is a round for it.
  lemma OfferedIff(c: Cxt, clients: map<PeerId, PeerData>, self: PeerId, i: nat, draws: nat -> Two<u32>)
    requires c.state.Ready? && c.pid.a in clients && c.pid.b in clients
    requires self == c.pid.a || self == c.pid.b
    requires i < |c.ipList.At(OthIdx(c.pid, self))|
    ensures Offered(c, clients, self, i, draws) <==> i < Rounds(c)
  {
    if i < Rounds(c) {
      Schedule(c, i + 1, draws);
      assert OfferedAt(Steps(c, i + 1, draws), clients, self, i);
    }
    forall k: nat | OfferedAt(Steps(c, k, draws), clients, self, i) ensures i < Rounds(c) {
      Schedule(c, k, draws);
    }
  }

  ghost predicate AllOffered(c: Cxt, clients: map<PeerId, PeerData>, self: PeerId, draws: nat -> Two<u32>) {
    forall i: nat :: i < |c.ipList.At(OthIdx(c.pid, self))| ==> Offered(c, clients, self, i, draws)
  }

  // With lists of at most 127 addresses the first peer is offered every address of the
  // second; the second peer is offered every address of the first exactly when the first
  // has no more of them than there are rounds.
  lemma Coverage(c: Cxt, clients: map<PeerId, PeerData>, draws: nat -> Two<u32>)
    requires c.state.Ready? && c.pid.a in clients && c.pid.b in clients && c.pid.a != c.pid.b
    requires |c.ipList.a| <= 127 && |c.ipList.b| <= 127
    ensures AllOffered(c, clients, c.pid.a, draws)
    ensures AllOffered(c, clients, c.pid.b, draws)
        <==> |c.ipList.a| <= 1 || |c.ipList.a| <= |c.ipList.b|
  {
    forall i: nat | i < |c.ipList.b| ensures Offered(c, clients, c.pid.a, i, draws) {
      OfferedIff(c, clients, c.pid.a, i, draws);
    }
    var n0, n1 := |c.ipList.a|, |c.ipList.b|;
    if n0 <= 1 || n0 <= n1 {
      forall i: nat | i < n0 ensures Offered(c, clients, c.pid.b, i, draws) {
        OfferedIff(c, clients, c.pid.b, i, draws);
      }
    } else {
      OfferedIff(c, clients, c.pid.b, n0 - 1, draws);
      assert c.ipList.At(OthIdx(c.pid, c.pid.b)) == c.ipList.a;
    }
  }

  // In the external round self is offered the other peer's public address, but only if that
  // peer also named at least one internal address.
  lemma ExternalOfferIff(c: Cxt, clients: map<PeerId, PeerData>, self: PeerId, draws: nat -> Two<u32>)
    requires c.state.Ready? && c.pid.a in clients && c.pid.b in clients
    requires self == c.pid.a || self == c.pid.b
    ensures var o := ConnectData(Steps(c, Rounds(c) + 1, draws), clients, self);
      && (o.Some? <==> c.ipList.At(OthIdx(c.pid, self)) != [])
      && (o.Some? ==> var oth := clients[Other(c.pid, self)];
                      o.value.peer == Other(c.pid, self) && o.value.ip == oth.ip && o.value.port == oth.port
                      && o.value.ipIndex == EXTERNAL_IP_INDEX)
  {
    Schedule(c, Rounds(c) + 1, draws);
  }

  // Nothing is offered unless the context is being tried and both peers are clients; what is
  // offered carries the code that the other peer's probe reports are checked against.
  lemma OffersAreGuarded(c: Cxt, clients: map<PeerId, PeerData>, self: PeerId)
    requires c.pid.a != c.pid.b && (self == c.pid.a || self == c.pid.b)
    requires ConnectData(c, clients, self).Some?
    ensures c.state.Trying() && c.pid.a in clients && c.pid.b in clients
    ensures var o := ConnectData(c, clients, self).value;
      SamePair(self, o.peer, c.pid.a, c.pid.b) && o.code == if o.peer == c.pid.a then c.verifyCode.a else c.verifyCode.b
  {
  }

  /* ---------- registration and submitted codes ---------- */

  // std::copy_if with the source's address checks, which are a parameter
  function Usable(ips: seq<string>, valid: string -> bool): (r: seq<string>)
    ensures forall ip :: ip in r <==> ip in ips && valid(ip)
  {
    if ips == [] then []
    else
      var init, last := ips[..|ips| - 1], ips[|ips| - 1];
      Usable(init, valid) + if valid(last) then [last] else []
  }

  // Usable keeps the order and every repetition: it works address by address.
  lemma {:induction false} UsableAppend(ips: seq<string>, more: seq<string>, valid: string -> bool)
    ensures Usable(ips + more, valid) == Usable(ips, valid) + Usable(more, valid)
    decreases |more|
  {
    if more == [] {
      assert ips + more == ips;
    } else {
      var init, last := more[..|more| - 1], more[|more| - 1];
      assert (ips + more)[..|ips + more| - 1] == ips + init;
      UsableAppend(ips, init, valid);
    }
  }

  datatype Registration = Registration(ips: seq<string>, port: u32, stream: nat)

  // set_cxt: peer `self` of the pair (re-)registers with its addresses.
  function SetCxt(c: Cxt, a: PeerId, b: PeerId, self: PeerId, r: Registration, valid: string -> bool): Cxt {
    var idx := if a == self then 0 else 1;
    var ports := With(c.portList, idx, r.port % 0x1_0000);
    c.(pid := Two(a, b),
       portList := ports,
       ipList := With(c.ipList, idx, c.ipList.At(idx) + Usable(r.ips, valid)),
       stage1 := -1,
       stage2 := With(c.stage2, idx, -1),
       state := if ports.a > 0 && ports.b > 0 then Ready else Idle,
       stream := With(c.stream, idx, Some(r.stream)))
  }

  // Registering is per side: whoever registers first, the context ends up with each side's
  // own usable addresses behind those it had and each side's own port, ready to be stepped
  // exactly if neither port vanishes in its sixteen bits.
  lemma RegistrationsCommute(c: Cxt, a: PeerId, b: PeerId, ra: Registration, rb: Registration, valid: string -> bool)
    requires a != b
    ensures
      var x := SetCxt(SetCxt(c, a, b, a, ra, valid), a, b, b, rb, valid);
      && x == SetCxt(SetCxt(c, a, b, b, rb, valid), a, b, a, ra, valid)
      && x.pid == Two(a, b) && x.id == c.id && x.stage1 == -1 && x.stage2 == Two(-1, -1)
      && x.portList == Two(ra.port % 0x1_0000, rb.port % 0x1_0000)
      && x.ipList == Two(c.ipList.a + Usable(ra.ips, valid), c.ipList.b + Usable(rb.ips, valid))
      && x.stream == Two(Some(ra.stream), Some(rb.stream)) && x.tag == c.tag && x.verifyCode == c.verifyCode
      && (x.state.Ready? <==> ra.port % 0x1_0000 > 0 && rb.port % 0x1_0000 > 0)
      && (x.state.Ready? || x.state.Idle?)
  {
  }

  // unreg_context on the context: peer `self` leaves.
  function Left(c: Cxt, self: PeerId): Cxt { c.(stream := With(c.stream, SelfIdx(c.pid, self), None)) }

  predicate BothReceived(c: Cxt) { c.tag.a >= 0 && c.tag.b >= 0 }

  // submit_verify_code on the context: peer `id` reports a code and an address index.
  function Submit(c: Cxt, id: PeerId, msg: Submitted): (Cxt, bool) {
    if !c.state.Trying() then (c, false)
    else
      var oth, self := OthIdx(c.pid, id), SelfIdx(c.pid, id);
      var c' :=
        if c.verifyCode.At(self) != msg.code then c
        else
          var n := ToI16(msg.ipIndex);
          c.(submits := With(c.submits, oth, c.submits.At(oth)[n := msg]), tag := With(c.tag, oth, n));
      (c', BothReceived(c'))
  }

  // Whatever is reported, by whom and under which code: the answer is yes exactly if the
  // context is being tried and afterwards both sides carry a tag that is not negative.
  lemma ReportedIff(c: Cxt, id: PeerId, msg: Submitted)
    ensures Submit(c, id, msg).1
       <==> c.state.Trying() && Submit(c, id, msg).0.tag.a >= 0 && Submit(c, id, msg).0.tag.b >= 0
    ensures Submit(c, id, msg).0.state == c.state
  {
  }

  datatype Op =
    | Register(self: PeerId, r: Registration, valid: string -> bool)
    | Step(drawn: Two<u32>)
    | Report(id: PeerId, msg: Submitted)
    | Leave(self: PeerId)

  function Apply(c: Cxt, op: Op): Cxt {
    match op
    case Register(self, r, valid) => SetCxt(c, c.pid.a, c.pid.b, self, r, valid)
    case Step(drawn) => Next(c, drawn).0
    case Report(id, msg) => Submit(c, id, msg).0
    case Leave(self) => Left(c, self)
  }

  function ApplyAll(c: Cxt, ops: seq<Op>): Cxt {
    if ops == [] then c else Apply(ApplyAll(c, ops[..|ops| - 1]), ops[|ops| - 1])
  }

  // A report that names the code now held for its sender, and so marks the other side i.
  predicate Match(c: Cxt, op: Op, i: nat) {
    && op.Report? && c.state.Trying()
    && OthIdx(c.pid, op.id) == i && op.msg.code == c.verifyCode.At(SelfIdx(c.pid, op.id))
  }

  // In every life of a context, with registrations, steps, reports and leaves in any order: the
  // resting states are as TrialOk says, and a side's tag is non-negative only if one of the
  // reports matched for it.
  lemma {:induction false} TagsOnlyByMatch(c: Cxt, ops: seq<Op>, i: nat)
    requires i < 2 && c.state.Idle? && c.tag == Two(-1, -1)
    ensures TrialOk(ApplyAll(c, ops)) && ApplyAll(c, ops).pid == c.pid
    ensures ApplyAll(c, ops).tag.At(i) >= 0 ==>
              exists k :: 0 <= k < |ops| && Match(ApplyAll(c, ops[..k]), ops[k], i)
  {
    if ops != [] {
      var n := |ops| - 1;
      var init := ops[..n];
      TagsOnlyByMatch(c, init, i);
      if ApplyAll(c, ops).tag.At(i) >= 0 {
        if ApplyAll(c, init).tag.At(i) >= 0 {
          var k :| 0 <= k < n && Match(ApplyAll(c, init[..k]), init[k], i);
          assert init[..k] == ops[..k] && init[k] == ops[k];
        } else {
          assert Match(ApplyAll(c, ops[..n]), ops[n], i);
        }
      }
    }
  }

  // A report that is answered with yes ends a run in which some report matched for each side,
  // itself included.
  lemma ConnectedByMatches(c: Cxt, ops: seq<Op>, id: PeerId, msg: Submitted)
    requires c.state.Idle? && c.tag == Two(-1, -1)
    requires Submit(ApplyAll(c, ops), id, msg).1
    ensures var all := ops + [Report(id, msg)];
      && (exists k :: 0 <= k < |all| && Match(ApplyAll(c, all[..k]), all[k], 0))
      && (exists k :: 0 <= k < |all| && Match(ApplyAll(c, all[..k]), all[k], 1))
  {
    var all := ops + [Report(id, msg)];
    assert all[..|all| - 1] == ops;
    ReportedIff(ApplyAll(c, ops), id, msg);
    TagsOnlyByMatch(c, all, 0);
    TagsOnlyByMatch(c, all, 1);
  }

  // The last report of the run that matched for side i.
  function LastMatch(c: Cxt, ops: seq<Op>, i: nat): Option<Submitted>
    requires i < 2
  {
    if ops == [] then None
    else
      var init, last := ops[..|ops| - 1], ops[|ops| - 1];
      if Match(ApplyAll(c, init), last, i) then Some(last.msg) else LastMatch(c, init, i)
  }

  // A side's tag is the index its last matching report named, and as it was if none matched:
  // registering again, stepping and leaving do not touch it.
  lemma {:induction false} TagIsLastMatch(c: Cxt, ops: seq<Op>, i: nat)
    requires i < 2
    ensures ApplyAll(c, ops).tag.At(i)
         == match LastMatch(c, ops, i) case None => c.tag.At(i) case Some(m) => ToI16(m.ipIndex)
  {
    if ops != [] {
      TagIsLastMatch(c, ops[..|ops| - 1], i);
    }
  }

  // Steps within the internal phase draw new codes; nothing else does.
  predicate Draws(c: Cxt, op: Op) {
    op.Step? && c.state.TryInternal? && c.stage2.a + 1 < Rounds(c)
  }

  predicate NoneDrawn(c: Cxt, ops: seq<Op>) {
    ops == [] ||
    (NoneDrawn(c, ops[..|ops| - 1]) && !Draws(ApplyAll(c, ops[..|ops| - 1]), ops[|ops| - 1]))
  }

  lemma {:induction false} CodesStay(c: Cxt, ops: seq<Op>)
    ensures ApplyAll(c, ops).pid == c.pid
    ensures NoneDrawn(c, ops) ==> ApplyAll(c, ops).verifyCode == c.verifyCode
  {
    if ops != [] {
      CodesStay(c, ops[..|ops| - 1]);
    }
  }

  /* ---------- a client paired with itself ---------- */

  // Nothing comes of a context any more, whatever is asked of it.
  ghost predicate Dead(c: Cxt) {
    && c.state.Idle?
    && (forall drawn :: Next(c, drawn) == (c, NoStep))
    && (forall clients, x :: ConnectData(c, clients, x) == None)
    && (forall id, msg :: Submit(c, id, msg) == (c, false))
  }

  // Registrations come from the pair.
  predicate OfPair(pid: Two<PeerId>, ops: seq<Op>) {
    forall k :: 0 <= k < |ops| && ops[k].Register? ==> ops[k].self == pid.a || ops[k].self == pid.b
  }

  // A client that registers for a pair with itself always fills the first side. The second
  // never gets a port, so the context stays idle: it is never stepped, never offered, and no
  // report reaches it.
  lemma {:induction false} SelfPairIsDead(
    id: u64, codes: Two<u32>, counters: Two<i8>, self: PeerId, r: Registration, valid: string -> bool, ops: seq<Op>)
    requires OfPair(Two(self, self), ops)
    ensures var c := ApplyAll(SetCxt(NewCxt(id, codes, counters), self, self, self, r, valid), ops);
      c.pid == Two(self, self) && c.portList.b == 0 && c.tag == Two(-1, -1) && Dead(c)
  {
    if ops != [] {
      assert OfPair(Two(self, self), ops[..|ops| - 1]);
      SelfPairIsDead(id, codes, counters, self, r, valid, ops[..|ops| - 1]);
    }
  }
}
