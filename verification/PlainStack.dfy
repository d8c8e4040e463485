/** The specification of one protocol end: a plain stack of tags and a state.

    Requests push, refusals and quits pop, nothing else touches the stack. The lemmas show
    that the field-level endpoint is this machine, and what exactly goes wrong when a change
    request carries a tag its reader does not know. */
module PlainStack {
  import opened Bytes
  import opened Wrappers
  import opened VariantMsg
  import opened Endpoint

  datatype Plain = Plain(view: seq<u32>, state: State, faulted: bool)
  {
    function Top(): u32 { if view == [] then 0 else view[|view| - 1] }

    function Push(t: u32, s: State): Plain { this.(view := view + [t], state := s) }

    // Dropping the current stream: the paused one below it becomes active.
    function Drop(): Plain {
      if |view| <= 1 then this.(view := [], state := Idle)
      else this.(view := view[..|view| - 1], state := Active)
    }

    function Settle(): Plain { this.(state := if view == [] then Idle else Active) }

    function Fault(unless: bool): Plain { this.(faulted := faulted || !unless) }
  }

  function Tags<T>(frames: seq<Frame<T>>): (r: seq<u32>)
    ensures |r| == |frames| && forall i :: 0 <= i < |r| ==> r[i] == frames[i].tag
  {
    seq(|frames|, i requires 0 <= i < |frames| => frames[i].tag)
  }

  // Paused tags, then the current one.
  function View<T>(e: Endpoint<T>): seq<u32> {
    Tags(e.stack) + if e.tag == 0 then [] else [e.tag]
  }

  // At this level a stranded stream is a fault like a failed assertion.
  function Abs<T>(e: Endpoint<T>): Plain { Plain(View(e), e.state, e.faulted || Stranded(e)) }

  /* ---------- the plain machine ---------- */

  datatype PlainSent = PlainSent(p: Plain, out: seq<Msg>, ok: bool)

  // `reg` are the tags this end knows.
  function ChangeTo(reg: set<u32>, p: Plain, tag: u32, params: seq<u8>, verdict: u8, reply: seq<u8>): PlainSent {
    if |params| > EXTRA_PARAMS_MAX_SIZE || tag !in reg || !p.state.AtRest() then PlainSent(p, [], false)
    else if !LocalAccepts(verdict) then PlainSent(p.Settle(), [], false)
    else if verdict == SKIP_AND_MANUAL then PlainSent(p.Push(tag, HalfReq), [], true)
    else
      var extra := if reply == [] && verdict == NOT_SUPPORT then params else reply;
      PlainSent(p.Push(tag, ReqWaitAck), [ChangeRequest(tag, extra)], true)
  }

  function Quit(p: Plain, tag: u32, params: seq<u8>): PlainSent {
    if |params| > EXTRA_PARAMS_MAX_SIZE then PlainSent(p, [], false)
    else PlainSent(p.(state := QuitWaitAck), [QuitRequest(tag, params)], true)
  }

  function Receive(reg: set<u32>, p: Plain, m: Msg, verdict: u8, reply: seq<u8>): (Plain, seq<Msg>) {
    if m.cmd == REQ_USE_STREAM_TAG && m.IsAck() then
      (if m.errcode == OK then p.Fault(p.state.ReqWaitAck?).(state := Active)
       else p.Fault(p.state.ReqWaitAck?).Drop(), [])
    else if m.cmd == REQ_USE_STREAM_TAG then
      if !p.state.AtRest() then (p, [m.Answer(INCORRECT_STATE, [])])
      else if m.param1 !in reg then (p.Fault(p.view == []).(state := Active), [m.Answer(FAILED_NOT_FIND, [])])
      else if verdict == SKIP_AND_MANUAL then (p.Push(m.param1, HalfActive), [])
      else if verdict == OK then (p.Push(m.param1, Active), [m.Answer(OK, reply)])
      else (p.(state := Active), [m.Answer(verdict, reply)])
    else if m.cmd == REQ_QUIT_HOLD_STREAM && m.IsAck() then
      (if m.errcode == OK then p.Fault(p.state.QuitWaitAck?).Drop()
       else p.Fault(p.state.QuitWaitAck?).(state := Active), [])
    else if m.cmd == REQ_QUIT_HOLD_STREAM then
      if m.param1 != p.Top() then (p.(state := Idle), [m.Answer(TAG_NOT_EQ, [])])
      else if p.view == [] then (p.Drop(), [m.Answer(FAILED_NOT_FIND, [])])
      else if verdict == SKIP_AND_MANUAL then (p.(state := HalfQuit), [])
      else (p.Drop(), [m.Answer(verdict, reply)])
    else (p, [])
  }

  predicate MayAnswer(p: Plain, m: Msg) {
    && m.param1 == p.Top()
    && (m.cmd == REQ_USE_STREAM_TAG ==> p.state.HalfReq? || p.state.HalfActive?)
    && (m.cmd == REQ_QUIT_HOLD_STREAM ==> p.state.HalfQuit?)
  }

  function AnswerLater(p: Plain, m: Msg): PlainSent {
    if !MayAnswer(p, m) then PlainSent(p.Fault(false), [], false)
    else
      var next := match p.state
        case HalfActive => if m.errcode == OK then p.(state := Active) else p.Drop()
        case HalfReq => if m.errcode == OK then p.(state := ReqWaitAck) else p.Drop()
        case HalfQuit => if m.errcode == OK then p.Drop() else p.(state := Active)
        case _ => p;
      PlainSent(next, [m], true)
  }

  /* ---------- the endpoint refines it ---------- */

  // Dropping the current stream of a well-formed endpoint, or of one that has just
  // switched to a stream its handler then refused.
  lemma ClearDrops<T>(reg: set<u32>, e: Endpoint<T>)
    requires 0 !in reg && AllRegistered(reg, e.stack)
    requires e.tag == 0 <==> e.cur.None?
    requires e.tag == 0 ==> e.stack == []
    ensures Abs(Clear(reg, e.(state := Idle))) == Abs(e).Drop()
    ensures WellFormed(reg, Clear(reg, e.(state := Idle)))
  {
    if e.stack != [] {
      var n := |e.stack|;
      assert View(e)[..n] == Tags(e.stack) == Tags(e.stack[..n - 1]) + [e.stack[n - 1].tag];
    }
  }

  lemma TryPushKeepsTags<T>(reg: set<u32>, e: Endpoint<T>)
    requires WellFormed(reg, e) && e.state.AtRest()
    ensures var (p, code) := TryPush(reg, e);
      && code == OK
      && p.tag == 0 && p.cur.None? && p.state == e.state && p.faulted == e.faulted
      && Tags(p.stack) == View(e) && AllRegistered(reg, p.stack)
  {
  }

  predicate SameStreams<T(==)>(e: Endpoint<T>, e': Endpoint<T>) {
    e'.tag == e.tag && e'.cur == e.cur && e'.stack == e.stack
  }

  // Pausing the current stream, switching to a new one and clearing that one again brings
  // back the very stream and stack of before.
  lemma ClearUndoesSwitch<T>(reg: set<u32>, e: Endpoint<T>, tag: u32, made: T)
    requires WellFormed(reg, e) && e.state.AtRest() && tag in reg
    ensures var c := Clear(reg, Switch(TryPush(reg, e).0, tag, made));
      SameStreams(e, c) && c.faulted == e.faulted && c.state == if e.tag == 0 then Idle else Active
  {
    if e.tag != 0 {
      var pushed := TryPush(reg, e).0;
      assert pushed.stack[..|pushed.stack| - 1] == e.stack;
    }
  }

  lemma LocalSwitchRefines<T>(reg: set<u32>, e: Endpoint<T>, tag: u32, h: Handler<T>)
    requires WellFormed(reg, e) && tag in reg && e.state.AtRest()
    ensures var c := ChangeToLocal(reg, TryPush(reg, e).0, tag, h);
      && (!LocalAccepts(h.verdict) ==> Abs(c) == Abs(e).Settle() && WellFormed(reg, c))
      && (LocalAccepts(h.verdict) ==>
            && View(c) == View(e) + [tag] && c.faulted == e.faulted
            && WellFormed(reg, c.(state := HalfReq)) && WellFormed(reg, c.(state := ReqWaitAck)))
  {
    if LocalAccepts(h.verdict) {
      TryPushKeepsTags(reg, e);
    } else {
      ClearUndoesSwitch(reg, e, tag, h.made);
    }
  }

  lemma ChangeToRefines<T>(reg: set<u32>, e: Endpoint<T>, tag: u32, params: seq<u8>, h: Handler<T>)
    requires WellFormed(reg, e)
    ensures var s, p := ReqChangeTo(reg, e, tag, params, h), ChangeTo(reg, Abs(e), tag, params, h.verdict, h.reply);
      s.out == p.out && s.ok == p.ok && Abs(s.ep) == p.p && WellFormed(reg, s.ep)
  {
    if |params| <= EXTRA_PARAMS_MAX_SIZE && tag in reg && e.state.AtRest() {
      TryPushKeepsTags(reg, e);
      LocalSwitchRefines(reg, e, tag, h);
    }
  }

  lemma QuitRefines<T>(reg: set<u32>, e: Endpoint<T>, tag: u32, params: seq<u8>)
    requires WellFormed(reg, e) && e.tag != 0
    ensures var s, p := ReqQuit(e, tag, params), Quit(Abs(e), tag, params);
      s.out == p.out && s.ok == p.ok && Abs(s.ep) == p.p && WellFormed(reg, s.ep)
  {
  }

  lemma RefusedSwitch<T>(reg: set<u32>, e: Endpoint<T>, m: Msg, h: Handler<T>)
    requires WellFormed(reg, e) && m.param1 in reg && e.state.AtRest()
    ensures var c := Clear(reg, Switch(TryPush(reg, e).0, m.param1, h.made)).(state := Active);
      Abs(c) == Abs(e).(state := Active) && WellFormed(reg, c)
  {
    ClearUndoesSwitch(reg, e, m.param1, h.made);
  }

  lemma ChangeReqRefines<T>(reg: set<u32>, e: Endpoint<T>, m: Msg, h: Handler<T>)
    requires WellFormed(reg, e) && m.param1 in reg
    requires m.cmd == REQ_USE_STREAM_TAG && !m.IsAck()
    ensures var (e', out) := OnChangeReq(reg, e, m, h);
      (Abs(e'), out) == Receive(reg, Abs(e), m, h.verdict, h.reply) && WellFormed(reg, e')
  {
    if e.state.AtRest() {
      TryPushKeepsTags(reg, e);
      var switched := Switch(TryPush(reg, e).0, m.param1, h.made);
      assert View(switched) == View(e) + [m.param1];
      if !PeerAccepts(h.verdict) {
        RefusedSwitch(reg, e, m, h);
      } else if h.verdict == OK {
        assert Abs(switched.(state := Active)) == Abs(e).Push(m.param1, Active);
      } else {
        assert Abs(switched.(state := HalfActive)) == Abs(e).Push(m.param1, HalfActive);
      }
    }
  }

  lemma ChangeAckRefines<T>(reg: set<u32>, e: Endpoint<T>, m: Msg)
    requires WellFormed(reg, e)
    requires m.cmd == REQ_USE_STREAM_TAG && m.IsAck()
    ensures Abs(OnChangeAck(reg, e, m)) == Receive(reg, Abs(e), m, 0, []).0
    ensures WellFormed(reg, OnChangeAck(reg, e, m))
  {
    var e0 := e.(faulted := e.faulted || !e.state.ReqWaitAck?);
    assert Abs(e0) == Abs(e).Fault(e.state.ReqWaitAck?);
    if m.errcode != OK {
      ClearDrops(reg, e0);
    } else {
      var e1 := e0.(state := Active);
      assert SetWait(e1, false).stack == e.stack && SetWait(e1, false).tag == e.tag;
    }
  }

  lemma QuitAckRefines<T>(reg: set<u32>, e: Endpoint<T>, m: Msg)
    requires WellFormed(reg, e)
    requires m.cmd == REQ_QUIT_HOLD_STREAM && m.IsAck()
    ensures Abs(OnQuitAck(reg, e, m)) == Receive(reg, Abs(e), m, 0, []).0
    ensures WellFormed(reg, OnQuitAck(reg, e, m))
  {
    var e0 := e.(faulted := e.faulted || !e.state.QuitWaitAck?);
    assert Abs(e0) == Abs(e).Fault(e.state.QuitWaitAck?);
    if m.errcode == OK {
      ClearDrops(reg, e0);
      assert OnQuitAck(reg, e, m) == Clear(reg, e0.(state := Idle));
    } else {
      assert OnQuitAck(reg, e, m) == e0.(state := Active);
      assert Abs(e0.(state := Active)) == Abs(e0).(state := Active);
    }
  }

  // A quit request that takes nothing away: another tag, or put off.
  lemma QuitReqKeepsRefines<T>(reg: set<u32>, e: Endpoint<T>, m: Msg, h: Handler<T>)
    requires WellFormed(reg, e) && (m.param1 != e.tag || (e.tag != 0 && h.verdict == SKIP_AND_MANUAL))
    requires m.cmd == REQ_QUIT_HOLD_STREAM && !m.IsAck()
    ensures var (e', out) := OnQuitReq(reg, e, m, h);
      (Abs(e'), out) == Receive(reg, Abs(e), m, h.verdict, h.reply) && WellFormed(reg, e')
  {
    assert e.tag == Abs(e).Top() && (e.tag == 0 <==> Abs(e).view == []);
  }

  lemma QuitReqDropsRefines<T>(reg: set<u32>, e: Endpoint<T>, m: Msg, h: Handler<T>)
    requires WellFormed(reg, e) && m.param1 == e.tag && (e.tag == 0 || h.verdict != SKIP_AND_MANUAL)
    requires m.cmd == REQ_QUIT_HOLD_STREAM && !m.IsAck()
    ensures var (e', out) := OnQuitReq(reg, e, m, h);
      (Abs(e'), out) == Receive(reg, Abs(e), m, h.verdict, h.reply) && WellFormed(reg, e')
  {
    assert e.tag == Abs(e).Top() && (e.tag == 0 <==> Abs(e).view == []);
    ClearDrops(reg, e);
    assert OnQuitReq(reg, e, m, h).0 == Clear(reg, e.(state := Idle));
  }

  lemma QuitReqRefines<T>(reg: set<u32>, e: Endpoint<T>, m: Msg, h: Handler<T>)
    requires WellFormed(reg, e)
    requires m.cmd == REQ_QUIT_HOLD_STREAM && !m.IsAck()
    ensures var (e', out) := OnQuitReq(reg, e, m, h);
      (Abs(e'), out) == Receive(reg, Abs(e), m, h.verdict, h.reply) && WellFormed(reg, e')
  {
    if m.param1 != e.tag || (e.tag != 0 && h.verdict == SKIP_AND_MANUAL) {
      QuitReqKeepsRefines(reg, e, m, h);
    } else {
      QuitReqDropsRefines(reg, e, m, h);
    }
  }

  lemma UnknownTagRefines<T>(reg: set<u32>, e: Endpoint<T>, m: Msg, h: Handler<T>)
    requires WellFormed(reg, e) && m.param1 !in reg
    requires m.cmd == REQ_USE_STREAM_TAG && !m.IsAck()
    ensures var (e', out) := OnChangeReq(reg, e, m, h);
      (Abs(e'), out) == Receive(reg, Abs(e), m, h.verdict, h.reply)
      && (e.state.AtRest() && e.tag != 0 <==> Stranded(e')) && (!Stranded(e') ==> WellFormed(reg, e'))
  {
    if e.state.AtRest() {
      TryPushKeepsTags(reg, e);
      var pushed := TryPush(reg, e).0;
      assert View(pushed.(state := Active)) == Tags(pushed.stack);
      assert e.tag == 0 <==> View(e) == [];
    }
  }

  // Whatever an end reads: it acts on its plain stack and replies as specified, and it stays
  // well formed unless that was a change request that stranded its stream.
  lemma ReceiveRefines<T>(reg: set<u32>, e: Endpoint<T>, m: Msg, h: Handler<T>)
    requires WellFormed(reg, e)
    ensures var (e', out) := OnRead(reg, e, m, h);
      && (Abs(e'), out) == Receive(reg, Abs(e), m, h.verdict, h.reply)
      && (!Stranded(e') ==> WellFormed(reg, e'))
      && (Stranded(e') <==> m.cmd == REQ_USE_STREAM_TAG && !m.IsAck() && m.param1 !in reg
                            && e.state.AtRest() && e.tag != 0)
  {
    if m.cmd == REQ_USE_STREAM_TAG {
      if m.IsAck() { ChangeAckRefines(reg, e, m); }
      else if m.param1 in reg { ChangeReqRefines(reg, e, m, h); }
      else { UnknownTagRefines(reg, e, m, h); }
    } else if m.cmd == REQ_QUIT_HOLD_STREAM {
      if m.IsAck() { QuitAckRefines(reg, e, m); } else { QuitReqRefines(reg, e, m, h); }
    }
  }

  lemma OnSendRefines<T>(reg: set<u32>, e: Endpoint<T>, m: Msg)
    requires WellFormed(reg, e) && MayAnswer(Abs(e), m)
    ensures Abs(OnSend(reg, e, m)) == AnswerLater(Abs(e), m).p && WellFormed(reg, OnSend(reg, e, m))
  {
    match e.state
    case HalfActive => if m.errcode != OK { ClearDrops(reg, e); }
    case HalfReq => if m.errcode != OK { ClearDrops(reg, e); }
    case HalfQuit => if m.errcode == OK { ClearDrops(reg, e); }
    case _ =>
  }

  lemma AnswerLaterRefines<T>(reg: set<u32>, e: Endpoint<T>, m: Msg)
    requires WellFormed(reg, e)
    ensures var s, p := SendSvMsg(reg, e, m), AnswerLater(Abs(e), m);
      s.out == p.out && s.ok == p.ok && Abs(s.ep) == p.p && WellFormed(reg, s.ep)
  {
    assert e.tag == Abs(e).Top();
    if MayAnswer(Abs(e), m) {
      OnSendRefines(reg, e, m);
    }
  }

  /* ---------- which streams come back ---------- */

  // A change the local handler refuses restores the very stream and stack of before.
  lemma LocalRefusalRestores<T>(reg: set<u32>, e: Endpoint<T>, tag: u32, params: seq<u8>, h: Handler<T>)
    requires WellFormed(reg, e)
    ensures !ReqChangeTo(reg, e, tag, params, h).ok ==> SameStreams(e, ReqChangeTo(reg, e, tag, params, h).ep)
  {
  }

  // A change request of the peer that is not accepted restores them exactly when its tag is
  // registered or nothing was held: an unknown tag leaves the resident stream paused.
  lemma PeerRefusalRestoresIff<T>(reg: set<u32>, e: Endpoint<T>, m: Msg, h: Handler<T>)
    requires WellFormed(reg, e) && e.state.AtRest()
    requires m.cmd == REQ_USE_STREAM_TAG && !m.IsAck()
    requires m.param1 !in reg || !PeerAccepts(h.verdict)
    ensures SameStreams(e, OnRead(reg, e, m, h).0) <==> m.param1 in reg || e.tag == 0
  {
  }

  lemma UnknownTagStrandsResident()
    ensures var e := Endpoint(7, Some(Hold(1, false)), [], Active, false);
            var (e', out) := OnRead({7}, e, ChangeRequest(8, []), Handler(2, OK, []));
            && WellFormed({7}, e)
            && e'.tag == 0 && e'.stack == [Frame(7, Hold(1, false))]
            && out == [ChangeRequest(8, []).Answer(FAILED_NOT_FIND, [])]
  {
  }

  // Commands a waiting end may see before its own answer: change requests, all turned down.
  ghost predicate CrossingRequests(ms: seq<Msg>) {
    forall i :: 0 <= i < |ms| ==> ms[i].cmd == REQ_USE_STREAM_TAG && !ms[i].IsAck()
  }

  function ReadAll<T>(reg: set<u32>, e: Endpoint<T>, ms: seq<Msg>, h: Handler<T>): Endpoint<T> {
    if ms == [] then e else OnRead(reg, ReadAll(reg, e, ms[..|ms| - 1], h), ms[|ms| - 1], h).0
  }

  lemma {:induction false} CrossingRequestsChangeNothing<T>(
    reg: set<u32>, e: Endpoint<T>, ms: seq<Msg>, h: Handler<T>)
    requires e.state.Pending() && CrossingRequests(ms)
    ensures ReadAll(reg, e, ms, h) == e
  {
    if ms != [] {
      CrossingRequestsChangeNothing(reg, e, ms[..|ms| - 1], h);
    }
  }

  // The endpoint between a change request and its answer.
  function Requested<T>(e: Endpoint<T>, tag: u32, made: T, s: State): Endpoint<T> {
    Endpoint(tag, Some(Hold(made, true)),
             e.stack + if e.tag == 0 || e.cur.None? then [] else [Frame(e.tag, e.cur.value)], s, e.faulted)
  }

  lemma RequestedAfterReqChange<T>(reg: set<u32>, e: Endpoint<T>, tag: u32, params: seq<u8>, h: Handler<T>)
    requires WellFormed(reg, e) && tag in reg
    requires ReqChangeTo(reg, e, tag, params, h).ok
    ensures ReqChangeTo(reg, e, tag, params, h).ep
         == Requested(e, tag, h.made, if h.verdict == SKIP_AND_MANUAL then HalfReq else ReqWaitAck)
  {
    assert e.stack + [] == e.stack;
  }

  lemma AnswerToRequested<T>(reg: set<u32>, e: Endpoint<T>, tag: u32, made: T, ack: Msg)
    requires WellFormed(reg, e) && tag in reg
    ensures
      var done := OnChangeAck(reg, Requested(e, tag, made, ReqWaitAck), ack);
      && done.faulted == e.faulted
      && (ack.errcode != OK ==> SameStreams(e, done))
      && (ack.errcode == OK ==>
            && done.tag == tag && done.cur == Some(Hold(made, false)) && done.state == Active
            && done.stack == e.stack + if e.tag == 0 then [] else [Frame(e.tag, e.cur.value)])
  {
    var r := Requested(e, tag, made, ReqWaitAck);
    if e.tag != 0 {
      assert r.stack[..|r.stack| - 1] == e.stack;
    } else {
      assert r.stack == [];
    }
  }

  // From the request to the peer's answer, whatever crossing requests arrive in between and
  // whether the request went out at once or later: a refusal restores the former stream and
  // stack, an acceptance leaves them paused under the new stream, which then reads for itself.
  lemma AnsweredChange<T>(
    reg: set<u32>, e: Endpoint<T>, tag: u32, params: seq<u8>, h: Handler<T>,
    before: seq<Msg>, between: seq<Msg>, ack: Msg, peer: Handler<T>)
    requires WellFormed(reg, e) && tag in reg
    requires ReqChangeTo(reg, e, tag, params, h).ok
    requires CrossingRequests(before) && CrossingRequests(between)
    requires ack.cmd == REQ_USE_STREAM_TAG && ack.IsAck()
    ensures
      var half := ReadAll(reg, ReqChangeTo(reg, e, tag, params, h).ep, before, peer);
      var sent := if half.state.HalfReq? then SendSvMsg(reg, half, ChangeRequest(tag, params)).ep else half;
      var done := OnRead(reg, ReadAll(reg, sent, between, peer), ack, peer).0;
      && done.faulted == e.faulted
      && (ack.errcode != OK ==> SameStreams(e, done))
      && (ack.errcode == OK ==>
            && done.tag == tag && done.cur == Some(Hold(h.made, false)) && done.state == Active
            && done.stack == e.stack + if e.tag == 0 then [] else [Frame(e.tag, e.cur.value)])
  {
    var start := ReqChangeTo(reg, e, tag, params, h).ep;
    RequestedAfterReqChange(reg, e, tag, params, h);
    CrossingRequestsChangeNothing(reg, start, before, peer);
    var sent := Requested(e, tag, h.made, ReqWaitAck);
    assert start.state.HalfReq? ==> SendSvMsg(reg, start, ChangeRequest(tag, params)).ep == sent;
    CrossingRequestsChangeNothing(reg, sent, between, peer);
    AnswerToRequested(reg, e, tag, h.made, ack);
  }

  // Accepting a peer's change and later its quit is a round trip on streams and stack.
  lemma ChangeThenQuitRoundTrip<T>(
    reg: set<u32>, e: Endpoint<T>, change: Msg, h: Handler<T>, quit: Msg, q: Handler<T>)
    requires WellFormed(reg, e) && e.state.AtRest()
    requires change.cmd == REQ_USE_STREAM_TAG && !change.IsAck() && change.param1 in reg
    requires quit.cmd == REQ_QUIT_HOLD_STREAM && !quit.IsAck() && quit.param1 == change.param1
    requires h.verdict == OK && q.verdict == OK
    ensures SameStreams(e, OnRead(reg, OnRead(reg, e, change, h).0, quit, q).0)
  {
  }

  // A quit refused late leaves the requester's stream as it was but for one thing: its
  // wait flag stays up, so its reads keep going to the shell. After any other answer the
  // flag of the current stream is as it was before the request.
  lemma QuitAnswerAndWaitFlag<T>(
    reg: set<u32>, e: Endpoint<T>, tag: u32, params: seq<u8>, ack: Msg, h: Handler<T>)
    requires WellFormed(reg, e) && e.tag != 0 && |params| <= EXTRA_PARAMS_MAX_SIZE
    requires ack.cmd == REQ_QUIT_HOLD_STREAM && ack.IsAck()
    ensures var done := OnRead(reg, ReqQuit(e, tag, params).ep, ack, h).0;
      && (ack.errcode != OK ==> done.state == Active && done.tag == e.tag && done.stack == e.stack
                                && done.cur == Some(Hold(e.cur.value.id, true)))
      && (ack.errcode == OK && e.stack != [] ==>
            done.state == Active && done.cur == Some(e.stack[|e.stack| - 1].hold)
            && done.tag == e.stack[|e.stack| - 1].tag && done.stack == e.stack[..|e.stack| - 1])
      && (ack.errcode == OK && e.stack == [] ==> done.tag == 0 && done.cur == None && done.state == Idle)
  {
  }
}
