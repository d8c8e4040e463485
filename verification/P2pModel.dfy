/** The server's table of pair contexts, updated in place (p2p_model). */
module P2pModel {
  import opened Bytes
  import opened Wrappers
  import opened P2pContext

  class ConnectCxt {
    var id: u64
    var pid: Two<PeerId>
    var ipList: Two<seq<string>>
    var portList: Two<u16>
    var state: ConnectState
    var stage1: i8
    var stage2: Two<i8>
    var tag: Two<i16>
    var verifyCode: Two<u32>
    var stream: Two<Option<nat>>
    var submits: Two<map<i16, Submitted>>

    ghost var value: Cxt  // what the fields stand for

    ghost predicate Ok()
      reads this
    {
      value == Cxt(id, pid, ipList, portList, state, stage1, stage2, tag, verifyCode, stream, submits)
    }

    ghost method Seal()
      modifies this`value
      ensures Ok()
    {
      value := Cxt(id, pid, ipList, portList, state, stage1, stage2, tag, verifyCode, stream, submits);
    }

    constructor (id: u64, codes: Two<u32>, counters: Two<i8>)
      ensures Ok() && value == NewCxt(id, codes, counters)
    {
      this.id := id;
      pid, ipList, portList := Two(0, 0), Two([], []), Two(0, 0);
      state, stage1, stage2, tag := Idle, 0, counters, Two(-1, -1);
      verifyCode, stream, submits := codes, Two(None, None), Two(map[], map[]);
      value := NewCxt(id, codes, counters);
    }

    // What next_cxt needs on entry; its own recursion relies on the wider bounds.
    ghost predicate Steppable()
      reads this
    {
      && Ok()
      && (state.Trying() ==> stage2.a == stage2.b >= 0)
      && (state.TryInternal? ==> stage2.a <= Rounds(value))
      && (state.TryExternal? ==> stage2.a <= 1)
    }

    // Both lists used up.
    predicate Exhausted()
      reads this
    {
      var sizeA: i8 := if state.TryExternal? then 1 else ToI8(|ipList.a|);
      var sizeB: i8 := if state.TryExternal? then 1 else ToI8(|ipList.b|);
      stage2.a + 1 >= sizeA && stage2.b + 1 > sizeB
    }

    lemma ExhaustedMeans()
      requires Ok() && stage2.a == stage2.b >= 0
      ensures state.TryInternal? ==> (Exhausted() ==> stage2.a + 1 >= Rounds(value))
                                     && (stage2.a >= Rounds(value) ==> Exhausted())
                                     && (stage2.a > 0 && Exhausted() ==> stage2.a >= Rounds(value))
      ensures state.TryExternal? ==> (Exhausted() <==> stage2.a >= 1)
    {
    }

    ghost function StepsLeft(): nat
      reads this
    {
      match state
      case TryInternal => if Exhausted() then 5 else 6
      case ChangeToExternal => 4
      case TryExternal => if Exhausted() then 2 else 3
      case _ => 0
    }

    // The in-between states on the way to the next phase, on values.
    lemma PhaseOver(drawn: Two<u32>)
      requires Steppable() && state.Trying() && Exhausted()
      ensures Next(value, drawn) == Next(value.(state := if state.TryInternal? then ChangeToExternal else Wait), drawn)
    {
      ExhaustedMeans();
    }

    // A round that is not the last: both counters move on, and that may end the phase.
    lemma RoundOver(drawn: Two<u32>)
      requires Steppable() && state.Trying() && !Exhausted()
      ensures state.TryInternal? ==> stage2.a < Rounds(value)
      ensures state.TryExternal? ==> stage2.a == 0
      ensures stage2.a + 1 < 0x80
      ensures state.TryInternal? && stage2.a + 1 < Rounds(value) ==>
                Next(value, drawn)
                == (value.(stage2 := Two(stage2.a + 1, stage2.a + 1), verifyCode := drawn), Stepped)
      ensures !(state.TryInternal? && stage2.a + 1 < Rounds(value)) ==>
                Next(value, drawn) == Next(value.(stage2 := Two(stage2.a + 1, stage2.a + 1)), drawn)
    {
      ExhaustedMeans();
    }

    method NextCxt(drawn: Two<u32>) returns (r: StepResult)
      requires Steppable()
      modifies this
      ensures Ok() && (value, r) == Next(old(value), drawn)
      decreases StepsLeft()
    {
      if state == Idle {
        return NoStep;
      }
      if state == Ready || state == ChangeToExternal {
        stage1 := 0;
        stage2 := Two(0, 0);
        state := if state == Ready then TryInternal else TryExternal;
        Seal();
        return Stepped;
      }
      if state == TryInternal || state == TryExternal {
        if Exhausted() {
          PhaseOver(drawn);
          state := if state == TryInternal then ChangeToExternal else Wait;
          Seal();
          r := NextCxt(drawn);
          return;
        }
        ExhaustedMeans();
        RoundOver(drawn);
        stage2 := stage2.(a := ToI8(stage2.a + 1));
        stage2 := stage2.(b := ToI8(stage2.b + 1));
        Seal();
        ExhaustedMeans();
        if Exhausted() {
          r := NextCxt(drawn);
          return;
        }
        verifyCode := drawn;
        Seal();
        return Stepped;
      }
      return End;
    }

    // The loop of set_cxt that keeps the usable addresses.
    method AppendUsable(idx: nat, ips: seq<string>, valid: string -> bool)
      requires idx < 2
      modifies this`ipList
      ensures ipList == With(old(ipList), idx, old(ipList).At(idx) + Usable(ips, valid))
    {
      ghost var before := ipList.At(idx);
      assert before + [] == before;
      for i := 0 to |ips|
        invariant ipList == With(old(ipList), idx, before + Usable(ips[..i], valid))
      {
        assert ips[..i + 1][..i] == ips[..i];
        var kept := if valid(ips[i]) then [ips[i]] else [];
        assert before + Usable(ips[..i], valid) + kept == before + (Usable(ips[..i], valid) + kept);
        ipList := With(ipList, idx, ipList.At(idx) + kept);
      }
      assert ips[..|ips|] == ips;
    }

    method SetCxt(a: PeerId, b: PeerId, self: PeerId, r: Registration, valid: string -> bool)
      requires Ok()
      modifies this
      ensures Ok() && value == P2pContext.SetCxt(old(value), a, b, self, r, valid)
    {
      pid := Two(a, b);
      var idx := if a == self then 0 else 1;
      portList := With(portList, idx, r.port % 0x1_0000);
      AppendUsable(idx, r.ips, valid);
      stage1 := -1;
      stage2 := With(stage2, idx, -1);
      state := if portList.a > 0 && portList.b > 0 then Ready else Idle;
      stream := With(stream, idx, Some(r.stream));
      Seal();
    }

    function GenerateConnectData(clients: map<PeerId, PeerData>, self: PeerId): (o: Option<Offer>)
      requires Ok()
      reads this
      ensures o == ConnectData(value, clients, self)
    {
      if !(state == TryInternal || state == TryExternal) then None
      else
        var oth, idx := Other(pid, self), OthIdx(pid, self);
        if self !in clients || oth !in clients || stage2.At(idx) < 0 || stage2.At(idx) >= |ipList.At(idx)| then None
        else
          var ipIdx := if state == TryExternal then EXTERNAL_IP_INDEX else stage2.At(idx);
          Some(Offer(oth,
                     if state == TryInternal then ipList.At(idx)[ipIdx] else clients[oth].ip,
                     if state == TryInternal then portList.At(idx) else clients[oth].port,
                     verifyCode.At(idx), ipIdx))
    }

    method Submit(self: PeerId, msg: Submitted) returns (both: bool)
      requires Ok()
      modifies this`tag, this`submits, this`value
      ensures Ok() && (value, both) == P2pContext.Submit(old(value), self, msg)
      ensures both <==> state.Trying() && tag.a >= 0 && tag.b >= 0
    {
      if !(state == TryInternal || state == TryExternal) {
        return false;
      }
      var idxOth := OthIdx(pid, self);
      var idx := SelfIdx(pid, self);
      if verifyCode.At(idx) == msg.code {
        submits := With(submits, idxOth, submits.At(idxOth)[ToI16(msg.ipIndex) := msg]);
        tag := With(tag, idxOth, ToI16(msg.ipIndex));
        Seal();
      }
      return tag.a >= 0 && tag.b >= 0;
    }
  }

  // An entry as the table may hold it under key k.
  predicate EntryOk(c: Cxt, k: u64) {
    && c.id == k == MergeId(c.pid.a, c.pid.b)
    && c.pid.a <= c.pid.b
    && TrialOk(c)
    && (!c.state.Idle? ==> c.portList.a > 0 && c.portList.b > 0)
    && (c.pid.a == c.pid.b ==> c.portList.b == 0)
  }

  ghost predicate EntriesOk(t: map<u64, Cxt>) {
    forall k {:trigger EntryOk(t[k], k)} :: k in t ==> EntryOk(t[k], k)
  }

  lemma EntryAt(t: map<u64, Cxt>, k: u64)
    requires EntriesOk(t) && k in t
    ensures EntryOk(t[k], k)
  {
  }

  lemma EntryPut(t: map<u64, Cxt>, k: u64, c: Cxt)
    requires EntriesOk(t) && EntryOk(c, k)
    ensures EntriesOk(t[k := c])
  {
  }

  lemma EntryGone(t: map<u64, Cxt>, k: u64)
    requires EntriesOk(t)
    ensures EntriesOk(t - {k})
  {
    forall j | j in t - {k} ensures EntryOk((t - {k})[j], j) {
      EntryAt(t, j);
    }
  }

  // A client paired with itself is never served, as long as its entry is in the table.
  lemma SelfPairEntryIsDead(t: map<u64, Cxt>, self: PeerId)
    requires EntriesOk(t) && MergeId(self, self) in t
    ensures Dead(t[MergeId(self, self)])
  {
    EntryAt(t, MergeId(self, self));
    var pid := t[MergeId(self, self)].pid;
    MergeIdInjective(self, self, pid.a, pid.b);
  }

  lemma SetCxtKeepsEntry(
    t: map<u64, Cxt>, c: Cxt, k: u64, self: PeerId, oth: PeerId, r: Registration, valid: string -> bool)
    requires EntriesOk(t) && k == MergeId(self, oth)
    requires if k in t then c == t[k] else c.id == k && c.portList == Two(0, 0)
    ensures EntriesOk(t[k := SetCxt(c, Min(self, oth), Max(self, oth), self, r, valid)])
  {
    if k in t { EntryAt(t, k); }
    EntryPut(t, k, SetCxt(c, Min(self, oth), Max(self, oth), self, r, valid));
  }

  lemma NextKeepsEntry(t: map<u64, Cxt>, k: u64, drawn: Two<u32>)
    requires EntriesOk(t) && k in t
    ensures EntriesOk(t[k := Next(t[k], drawn).0])
    ensures TrialOk(t[k])
  {
    EntryAt(t, k);
    EntryPut(t, k, Next(t[k], drawn).0);
  }

  lemma SubmitKeepsEntry(t: map<u64, Cxt>, k: u64, self: PeerId, msg: Submitted)
    requires EntriesOk(t) && k in t
    ensures EntriesOk(t[k := Submit(t[k], self, msg).0])
  {
    EntryAt(t, k);
    EntryPut(t, k, Submit(t[k], self, msg).0);
  }

  lemma StreamKeepsEntry(t: map<u64, Cxt>, k: u64, stream: Two<Option<nat>>)
    requires EntriesOk(t) && k in t
    ensures EntriesOk(t[k := t[k].(stream := stream)])
  {
    EntryAt(t, k);
    EntryPut(t, k, t[k].(stream := stream));
  }

  // The table after `self` registers for the pair (self, oth).
  function Registered(t: map<u64, Cxt>, self: PeerId, oth: PeerId, r: Registration, valid: string -> bool,
                      codes: Two<u32>, counters: Two<i8>): map<u64, Cxt> {
    var id := MergeId(self, oth);
    var before := if id in t then t[id] else NewCxt(id, codes, counters);
    t[id := SetCxt(before, Min(self, oth), Max(self, oth), self, r, valid)]
  }

  // The table after `self` leaves the pair (self, oth), and what unreg_context returns.
  function Unregistered(t: map<u64, Cxt>, self: PeerId, oth: PeerId, alive: set<nat>): (map<u64, Cxt>, int) {
    var id := MergeId(self, oth);
    if id !in t then (t, -1)
    else
      var left := Left(t[id], self);
      if Present(left, oth, alive) then (t[id := left], 1) else (t - {id}, 0)
  }

  // A peer's stream is still there; `alive` are the streams whose owners still exist
  predicate Present(c: Cxt, id: PeerId, alive: set<nat>) {
    var s := c.stream.At(SelfIdx(c.pid, id));
    s.Some? && s.value in alive
  }

  // Both peers of a pair have registered, x first: one entry under the pair's key holds each
  // side's own port, stream and usable addresses, behind the addresses it had; it is ready if
  // both ports are positive. Tags are as they were, unset in a new entry, and no other entry
  // has changed.
  lemma BothRegister(t: map<u64, Cxt>, x: PeerId, y: PeerId, rx: Registration, ry: Registration,
                     valid: string -> bool, codes: Two<u32>, counters: Two<i8>, codes2: Two<u32>, counters2: Two<i8>)
    requires EntriesOk(t) && x != y
    ensures
      var id := MergeId(x, y);
      var u := Registered(Registered(t, x, y, rx, valid, codes, counters), y, x, ry, valid, codes2, counters2);
      && id in u && u - {id} == t - {id}
      && var e := u[id];
         var i, j := SelfIdx(e.pid, x), SelfIdx(e.pid, y);
         && e.pid.a < e.pid.b && SamePair(x, y, e.pid.a, e.pid.b) && i != j && e.id == id
         && e.portList.At(i) == rx.port % 0x1_0000 && e.portList.At(j) == ry.port % 0x1_0000
         && e.stream.At(i) == Some(rx.stream) && e.stream.At(j) == Some(ry.stream)
         && e.ipList.At(i) == (if id in t then t[id].ipList.At(i) else []) + Usable(rx.ips, valid)
         && e.ipList.At(j) == (if id in t then t[id].ipList.At(j) else []) + Usable(ry.ips, valid)
         && e.tag == (if id in t then t[id].tag else Two(-1, -1))
         && (e.state.Ready? <==> rx.port % 0x1_0000 > 0 && ry.port % 0x1_0000 > 0)
  {
    var id := MergeId(x, y);
    if id in t { EntryAt(t, id); }
    assert MergeId(y, x) == id;
    var first := Registered(t, x, y, rx, valid, codes, counters);
    var u := Registered(first, y, x, ry, valid, codes2, counters2);
    assert u - {id} == t - {id};
  }

  // A peer leaves: the entry goes exactly if the other peer's stream is gone too, and stays
  // as it is but for the leaving peer's stream if not. A client paired with itself is its own
  // other peer.
  lemma LeavingRemovesIff(t: map<u64, Cxt>, x: PeerId, y: PeerId, alive: set<nat>)
    requires EntriesOk(t) && MergeId(x, y) in t
    ensures
      var id := MergeId(x, y);
      var (u, r) := Unregistered(t, x, y, alive);
      var i, j := SelfIdx(t[id].pid, x), SelfIdx(t[id].pid, y);
      && (i == j <==> x == y) && u - {id} == t - {id}
      && (id !in u <==> x == y || t[id].stream.At(j) == None || t[id].stream.At(j).value !in alive)
      && r == (if id in u then 1 else 0)
      && (id in u ==> u[id] == t[id].(stream := u[id].stream)
                      && u[id].stream.At(i) == None && u[id].stream.At(j) == t[id].stream.At(j))
  {
    var id := MergeId(x, y);
    EntryAt(t, id);
    MergeIdInjective(x, y, t[id].pid.a, t[id].pid.b);
    var u := Unregistered(t, x, y, alive).0;
    assert u - {id} == t - {id};
  }

  class Model {
    var clients: map<PeerId, PeerData>
    var cxtMap: map<u64, ConnectCxt>

    ghost var table: map<u64, Cxt>  // the contexts as values

    ghost predicate Valid()
      reads this, cxtMap.Values
    {
      && (forall k :: k in clients ==> clients[k].id == k)
      && table.Keys == cxtMap.Keys
      && EntriesOk(table)
      && (forall k :: k in cxtMap ==> cxtMap[k].Ok() && cxtMap[k].value == table[k])
      && (forall j, k :: j in cxtMap && k in cxtMap && j != k ==> cxtMap[j] != cxtMap[k])
    }

    constructor (clients: map<PeerId, PeerData>)
      requires forall k :: k in clients ==> clients[k].id == k
      ensures Valid() && table == map[] && this.clients == clients
    {
      this.clients, cxtMap, table := clients, map[], map[];
    }

    // Valid but for the entry under id, which reg_context is about to fill in.
    ghost predicate ValidBut(id: u64)
      reads this, cxtMap.Values
    {
      && (forall k :: k in clients ==> clients[k].id == k)
      && id in cxtMap && cxtMap[id].Ok()
      && table.Keys + {id} == cxtMap.Keys
      && EntriesOk(table)
      && (forall k :: k in cxtMap && k != id ==>
            cxtMap[k].Ok() && cxtMap[k].value == table[k] && cxtMap[k] != cxtMap[id])
      && (forall j, k :: j in cxtMap && k in cxtMap && j != k ==> cxtMap[j] != cxtMap[k])
    }

    // The entry under id, created if missing.
    method Entry(id: u64, codes: Two<u32>, counters: Two<i8>)
      requires Valid()
      modifies this`cxtMap
      ensures ValidBut(id)
      ensures cxtMap[id].value == if id in table then table[id] else NewCxt(id, codes, counters)
      ensures cxtMap[id] in old(cxtMap.Values) || fresh(cxtMap[id])
    {
      if id !in cxtMap {
        var entry := new ConnectCxt(id, codes, counters);
        cxtMap := cxtMap[id := entry];
      }
    }

    // Fills in the entry of the pair (self, oth) from self's registration.
    method Fill(id: u64, self: PeerId, oth: PeerId, r: Registration, valid: string -> bool)
      requires ValidBut(id) && id == MergeId(self, oth)
      requires if id in table then cxtMap[id].value == table[id]
               else cxtMap[id].value.id == id && cxtMap[id].value.portList == Two(0, 0)
      modifies this`table, cxtMap[id]
      ensures Valid()
      ensures table == old(table)[id := SetCxt(old(cxtMap[id].value), Min(self, oth), Max(self, oth), self, r, valid)]
    {
      var out := cxtMap[id];
      SetCxtKeepsEntry(table, out.value, id, self, oth, r, valid);
      out.SetCxt(Min(self, oth), Max(self, oth), self, r, valid);
      table := table[id := out.value];
    }

    // Registers `self` for the pair (self, oth); 0 and no context unless both are clients.
    method RegContext(self: PeerId, oth: PeerId, r: Registration, valid: string -> bool,
                      codes: Two<u32>, counters: Two<i8>)
      returns (id: u64, out: ConnectCxt?)
      requires Valid()
      modifies this`cxtMap, this`table, cxtMap.Values
      ensures Valid()
      ensures self !in clients || oth !in clients ==> id == 0 && out == null && table == old(table)
      ensures self in clients && oth in clients ==>
                && id == MergeId(self, oth) && id in cxtMap && cxtMap[id] == out
                && table == Registered(old(table), self, oth, r, valid, codes, counters)
    {
      out := null;
      if self !in clients || oth !in clients {
        return 0, null;
      }
      id := MergeId(self, oth);
      Entry(id, codes, counters);
      Fill(id, self, oth, r, valid);
      out := cxtMap[id];
    }

    // Forgets the stream of `self` in a context.
    method ResetStream(id: u64, self: PeerId)
      requires Valid() && id in cxtMap
      modifies this`table, cxtMap.Values
      ensures Valid()
      ensures table == old(table)[id := Left(old(table)[id], self)]
    {
      var cxt := cxtMap[id];
      cxt.stream := With(cxt.stream, SelfIdx(cxt.pid, self), None);
      cxt.Seal();
      StreamKeepsEntry(table, id, cxt.stream);
      table := table[id := cxt.value];
    }

    method ExistContextPeer(mid: u64, id: PeerId, alive: set<nat>) returns (b: bool)
      requires Valid()
      ensures b == (mid in table && Present(table[mid], id, alive))
    {
      if mid !in cxtMap {
        return false;
      }
      var cxt := cxtMap[mid];
      assert cxt.Ok() && cxt.value == table[mid];
      var s := cxt.stream.At(SelfIdx(cxt.pid, id));
      return s.Some? && s.value in alive;
    }

    method ClearContext(id: u64)
      requires Valid()
      modifies this`cxtMap, this`table
      ensures Valid() && table == old(table) - {id}
    {
      EntryGone(table, id);
      cxtMap := cxtMap - {id};
      table := table - {id};
    }

    // Removes a context whose peer oth is gone.
    method ClearUnlessPresent(id: u64, oth: PeerId, alive: set<nat>) returns (stays: bool)
      requires Valid() && id in table
      modifies this`cxtMap, this`table
      ensures Valid() && stays == Present(old(table)[id], oth, alive)
      ensures table == if stays then old(table) else old(table) - {id}
    {
      stays := ExistContextPeer(id, oth, alive);
      if !stays {
        ClearContext(id);
      }
    }

    // -1: no such context, 0: the other side is gone too and the context removed, 1: it stays.
    method UnregContext(self: PeerId, oth: PeerId, alive: set<nat>) returns (r: int)
      requires Valid()
      modifies this`cxtMap, this`table, cxtMap.Values
      ensures Valid()
      ensures (table, r) == Unregistered(old(table), self, oth, alive)
    {
      var id := MergeId(self, oth);
      if id !in cxtMap {
        return -1;
      }
      ResetStream(id, self);
      ghost var reset := table;
      var stays := ClearUnlessPresent(id, oth, alive);
      assert reset - {id} == old(table) - {id};
      return if stays then 1 else 0;
    }

    // The next step of a context's schedule, with the offer it makes to `self`.
    method NextCxt(id: u64, self: PeerId, drawn: Two<u32>) returns (r: StepResult, offer: Option<Offer>)
      requires Valid()
      modifies this`table, cxtMap.Values
      ensures Valid()
      ensures id !in old(table) ==> r == NoStep && offer == None && table == old(table)
      ensures id in old(table) ==>
                && (table, r) == (old(table)[id := Next(old(table)[id], drawn).0], Next(old(table)[id], drawn).1)
                && offer == (if r == Stepped then ConnectData(table[id], clients, self) else None)
    {
      if id !in cxtMap {
        return NoStep, None;
      }
      var cxt := cxtMap[id];
      NextKeepsEntry(table, id, drawn);
      r := cxt.NextCxt(drawn);
      table := table[id := cxt.value];
      offer := if r == Stepped then cxt.GenerateConnectData(clients, self) else None;
    }

    // The offer of the current step to `self`, without moving on.
    method CurrentCxt(id: u64, self: PeerId) returns (r: StepResult, offer: Option<Offer>)
      requires Valid()
      ensures id !in table ==> r == NoStep && offer == None
      ensures id in table ==>
                && (r == Stepped <==> table[id].state.Trying())
                && (r == End <==> table[id].state.Success? || table[id].state.Wait?)
                && offer == ConnectData(table[id], clients, self)
    {
      if id !in cxtMap {
        return NoStep, None;
      }
      var cxt := cxtMap[id];
      match cxt.state {
        case Idle | ChangeToExternal | Ready => return NoStep, None;
        case TryInternal | TryExternal => return Stepped, cxt.GenerateConnectData(clients, self);
        case Success | Wait => return End, None;
      }
    }

    method SubmitVerifyCode(id: u64, self: PeerId, msg: Submitted) returns (both: bool)
      requires Valid()
      modifies this`table, cxtMap.Values
      ensures Valid()
      ensures id !in old(table) ==> !both && table == old(table)
      ensures id in old(table) ==>
                && table == old(table)[id := Submit(old(table)[id], self, msg).0]
                && (both <==> table[id].state.Trying() && table[id].tag.a >= 0 && table[id].tag.b >= 0)
    {
      if id !in cxtMap {
        return false;
      }
      var cxt := cxtMap[id];
      SubmitKeepsEntry(table, id, self, msg);
      both := cxt.Submit(self, msg);
      table := table[id := cxt.value];
    }
  }
}
