/** StreamVariant and its hold streams as objects, updated in place as in
    mqas/core/stream.impl.hpp. Every method is proved against the value it stands for in
    Endpoint: the streams themselves are part of that value, so what is paused and resumed
    is the same object. Codes and replies of the hold streams' handlers are parameters, and so
    is `up`, whether the transport takes what is written. */
module StreamVariant {
  import opened Bytes
  import opened Wrappers
  import opened VariantMsg
  import opened E = Endpoint

  // What reaches the transport.
  function Kept(out: seq<Msg>, up: bool): seq<Msg> { if up then out else [] }

  class HoldStream {
    var waitRet: bool
    var streamTag: u32

    constructor ()
      ensures !waitRet && streamTag == 0
    {
      waitRet, streamTag := false, 0;
    }
  }

  class Variant {
    const reg: set<u32>
    var tag: u32
    var cur: HoldStream?
    var stack: seq<(u32, HoldStream)>
    var state: State
    var written: seq<Msg>
    ghost var value: Endpoint<HoldStream?>  // what the fields, and the streams' wait flags, stand for

    // Streams are not shared between places, and each knows its own tag.
    ghost predicate Valid()
      reads this, cur, set i | 0 <= i < |stack| :: stack[i].1
    {
      && 0 !in reg
      && (tag == 0 <==> cur == null)
      && (tag != 0 ==> tag in reg && cur.streamTag == tag)
      && (forall i :: 0 <= i < |stack| ==> stack[i].1 != cur && stack[i].1.streamTag == stack[i].0 && stack[i].0 in reg)
      && (forall i, j :: 0 <= i < j < |stack| ==> stack[i].1 != stack[j].1)
      && value.tag == tag && value.state == state
      && value.cur == (if cur == null then None else Some(Hold(cur, cur.waitRet)))
      && |value.stack| == |stack|
      && (forall i :: 0 <= i < |stack| ==>
            value.stack[i] == Frame(stack[i].0, Hold(stack[i].1, stack[i].1.waitRet)))
    }

    constructor (reg: set<u32>)
      requires 0 !in reg
      ensures Valid() && this.reg == reg && written == []
      ensures value == Fresh()
    {
      this.reg := reg;
      tag, cur, stack, state, written := 0, null, [], Idle, [];
      value := Fresh();
    }

    method SetState(s: State)
      requires Valid()
      modifies this`state, this`value
      ensures Valid()
      ensures value == old(value).(state := s)
    {
      state := s;
      value := value.(state := s);
    }

    method Write(m: Msg, up: bool) returns (ok: bool)
      requires Valid()
      modifies this`written
      ensures Valid() && ok == up
      ensures written == old(written) + Kept([m], up)
    {
      if up {
        written := written + [m];
      }
      return up;
    }

    method PushStream()
      requires Valid() && tag != 0
      modifies this`stack, this`tag, this`cur, this`value
      ensures Valid()
      ensures value == old(value).(stack := old(value).stack + [Frame(old(tag), old(value).cur.value)],
                                       tag := 0, cur := None)
    {
      stack := stack + [(tag, cur)];
      tag := 0;
      cur := null;
      value := value.(stack := value.stack + [Frame(value.tag, value.cur.value)], tag := 0, cur := None);
    }

    method TryPushCurrStream() returns (code: u8)
      requires Valid()
      modifies this`stack, this`tag, this`cur, this`value
      ensures Valid()
      ensures (value, code) == TryPush(reg, old(value))
    {
      if !(state.Active? || state.Idle?) {
        return INCORRECT_STATE;
      }
      if tag == 0 {
        return OK;
      }
      if tag in reg {
        PushStream();
      }
      return OK;
    }

    // Called between the pop and the end of try_pop_stream, where Valid does not hold.
    method SetCurrStream(t: u32, stream: HoldStream)
      modifies this`tag, this`cur, this`state
      ensures tag == t && cur == stream && state == Active
    {
      tag := t;
      cur := stream;
      state := Active;
    }

    method TryPopStream() returns (popped: bool)
      requires Valid()
      modifies this`stack, this`tag, this`cur, this`state, this`value
      ensures Valid() && popped == (old(stack) != [])
      ensures value == if popped then Clear(reg, old(value)) else old(value)
    {
      if stack == [] {
        return false;
      }
      var top := stack[|stack| - 1];
      stack := stack[..|stack| - 1];
      if top.0 in reg {
        SetCurrStream(top.0, top.1);
      }
      value := Clear(reg, value);
      return true;
    }

    method ClearCurrStream()
      requires Valid()
      modifies this`stack, this`tag, this`cur, this`state, this`value
      ensures Valid()
      ensures value == Clear(reg, old(value))
    {
      var popped := TryPopStream();
      if !popped {
        if tag != 0 {
          tag := 0;
          cur := null;
          state := Idle;
        }
        value := Clear(reg, value);
      }
    }

    method SetIsWaitPeerChangeRet(v: bool)
      requires Valid()
      modifies this`value, cur
      ensures Valid()
      ensures value == SetWait(old(value), v)
    {
      if tag > 0 {
        cur.waitRet := v;
      }
      value := SetWait(value, v);
    }

    method ChangeToUncheck(t: u32, local: bool, verdict: u8, ghost reply: seq<u8>)
      returns (code: u8, made: HoldStream)
      requires Valid() && t in reg && tag == 0
      modifies this`stack, this`tag, this`cur, this`state, this`value
      ensures Valid() && fresh(made) && code == verdict
      ensures local ==> value == ChangeToLocal(reg, old(value), t, Handler(made, verdict, reply))
      ensures !local ==> (value, code) == ChangeToPeer(reg, old(value), t, Handler(made, verdict, reply))
    {
      tag := t;
      made := new HoldStream();
      cur := made;
      made.streamTag := tag;
      value := Switch(value, t, made);
      code := verdict;
      if !local {
        if code != OK && code != SKIP_AND_MANUAL {
          ClearCurrStream();
        }
      } else {
        if code != OK && code != SKIP_AND_MANUAL && code != NOT_SUPPORT {
          ClearCurrStream();
        } else {
          made.waitRet := true;
          value := SetWait(value, true);
        }
      }
    }

    method ChangeTo(t: u32, verdict: u8, ghost reply: seq<u8>) returns (code: u8, made: HoldStream?)
      requires Valid() && tag == 0
      modifies this`stack, this`tag, this`cur, this`state, this`value
      ensures Valid() && (made != null ==> fresh(made)) && (made == null <==> t !in reg)
      ensures (value, code) == ChangeToPeer(reg, old(value), t, Handler(made, verdict, reply))
    {
      code, made := FAILED_NOT_FIND, null;
      if t in reg {
        code, made := ChangeToUncheck(t, false, verdict, reply);
      }
    }

    // A request that cannot be written leaves the change made and the end waiting.
    method ReqChangeTo(t: u32, params: seq<u8>, verdict: u8, reply: seq<u8>, up: bool)
      returns (ok: bool, made: HoldStream?)
      requires Valid()
      modifies this
      ensures Valid() && (made != null ==> fresh(made))
      ensures var s := E.ReqChangeTo(reg, old(value), t, params, Handler(made, verdict, reply));
              && value == s.ep && written == old(written) + Kept(s.out, up)
              && ok == (s.ok && (s.out != [] ==> up))
    {
      made := null;
      if |params| > EXTRA_PARAMS_MAX_SIZE || t !in reg {
        return false, null;
      }
      var code := TryPushCurrStream();
      if code != OK {
        return false, null;
      }
      code, made := ChangeToUncheck(t, true, verdict, reply);
      if code != OK && code != SKIP_AND_MANUAL && code != NOT_SUPPORT {
        return false, made;
      }
      var useInputData := code == NOT_SUPPORT;
      SetState(ReqWaitAck);
      if code == SKIP_AND_MANUAL {
        SetState(HalfReq);
        return true, made;
      }
      var extra := [];
      if reply != [] {
        extra := reply;
      } else if useInputData {
        extra := params;
      }
      ok := Write(ChangeRequest(t, extra), up);
    }

    // `req_quit` of the current hold stream, under the tag its caller passes. A request that
    // cannot be written changes nothing.
    method ReqQuit(t: u32, params: seq<u8>, up: bool) returns (ok: bool)
      requires Valid() && cur != null
      modifies this`state, this`written, this`value, cur
      ensures Valid()
      ensures var s := E.ReqQuit(old(value), t, params);
              && ok == (s.ok && up)
              && value == (if ok then s.ep else old(value)) && written == old(written) + Kept(s.out, up)
    {
      if |params| > EXTRA_PARAMS_MAX_SIZE {
        return false;
      }
      ok := Write(QuitRequest(t, params), up);
      if ok {
        cur.waitRet := true;
        state := QuitWaitAck;
        value := SetWait(value, true).(state := state);
      }
    }

    method OnChangeAck(m: Msg)
      requires Valid()
      modifies this`stack, this`tag, this`cur, this`state, this`value, cur
      ensures Valid()
      ensures value == E.OnChangeAck(reg, old(value), m)
    {
      value := value.(faulted := value.faulted || state != ReqWaitAck);
      if m.errcode != OK {
        SetState(Idle);
        ClearCurrStream();
      } else {
        SetState(Active);
        SetIsWaitPeerChangeRet(false);
      }
    }

    method OnChangeReq(msg: Msg, verdict: u8, reply: seq<u8>, up: bool) returns (made: HoldStream?)
      requires Valid()
      modifies this
      ensures Valid() && (made != null ==> fresh(made))
      ensures var (e, out) := E.OnChangeReq(reg, old(value), msg, Handler(made, verdict, reply));
              value == e && written == old(written) + Kept(out, up)
    {
      made := null;
      var retBuf := [];
      var m := msg.(errcode := OK, param3 := 1);
      var changeRet := TryPushCurrStream();
      if changeRet != OK {
        m := m.(errcode := changeRet);
      } else {
        changeRet, made := ChangeTo(m.param1, verdict, reply);
        retBuf := if made != null then reply else [];
        if changeRet != OK && changeRet != SKIP_AND_MANUAL {
          m := m.(errcode := changeRet);
        }
        SetState(Active);
        if changeRet == SKIP_AND_MANUAL {
          SetState(HalfActive);
          return;
        }
      }
      m := m.(extra := retBuf);
      var _ := Write(m, up);
    }

    method OnQuitAck(m: Msg)
      requires Valid()
      modifies this`stack, this`tag, this`cur, this`state, this`value
      ensures Valid()
      ensures value == E.OnQuitAck(reg, old(value), m)
    {
      value := value.(faulted := value.faulted || state != QuitWaitAck);
      if m.errcode != OK {
        SetState(Active);
      } else {
        SetState(Idle);
        ClearCurrStream();
      }
    }

    method OnQuitReq(msg: Msg, verdict: u8, reply: seq<u8>, up: bool)
      requires Valid()
      modifies this`stack, this`tag, this`cur, this`state, this`value, this`written
      ensures Valid()
      ensures var (e, out) := E.OnQuitReq(reg, old(value), msg, Handler(null, verdict, reply));
              value == e && written == old(written) + Kept(out, up)
    {
      var retBuf := [];
      var m := msg.(errcode := OK, param3 := 1);
      if m.param1 != tag {
        m := m.(errcode := TAG_NOT_EQ);
      }
      SetState(Idle);
      if m.errcode == OK {
        var code := FAILED_NOT_FIND;
        if tag > 0 {
          code, retBuf := verdict, reply;
        }
        m := m.(errcode := code);
        if code == SKIP_AND_MANUAL {
          SetState(HalfQuit);
          return;
        }
        ClearCurrStream();
      }
      m := m.(extra := retBuf);
      var _ := Write(m, up);
    }

    // The command switch of `on_read`, one method a branch. A reply that cannot be written is
    // lost without a trace.
    method OnRead(m: Msg, verdict: u8, reply: seq<u8>, up: bool) returns (made: HoldStream?)
      requires Valid()
      modifies this, cur
      ensures Valid() && (made != null ==> fresh(made))
      ensures var (e, out) := E.OnRead(reg, old(value), m, Handler(made, verdict, reply));
              value == e && written == old(written) + Kept(out, up)
    {
      made := null;
      if m.cmd == REQ_USE_STREAM_TAG {
        if m.param3 == 1 {
          OnChangeAck(m);
        } else {
          made := OnChangeReq(m, verdict, reply, up);
        }
      } else if m.cmd == REQ_QUIT_HOLD_STREAM {
        if m.param3 == 1 {
          OnQuitAck(m);
        } else {
          OnQuitReq(m, verdict, reply, up);
        }
      }
    }

    // The state switch of `on_send_sv_msg`.
    method GiveAnswer(m: Msg) returns (needWrite: bool)
      requires Valid()
      modifies this`stack, this`tag, this`cur, this`state, this`value
      ensures Valid()
      ensures value == E.OnSend(reg, old(value), m) && needWrite == WrittenByOwner(old(value), m)
    {
      needWrite := false;
      var isOk := m.errcode == OK;
      if state == HalfActive || state == HalfReq {
        SetState(if !isOk then Idle else if state == HalfActive then Active else ReqWaitAck);
        needWrite := !isOk;
        if !isOk {
          ClearCurrStream();
        }
      } else if state == HalfQuit {
        SetState(if isOk then Idle else Active);
        needWrite := isOk;
        if isOk {
          ClearCurrStream();
        }
      }
    }

    // -1: rejected, 0: the caller still has to write, 1: written here, 2: lost here.
    method OnSendSvMsg(m: Msg, up: bool) returns (r: int)
      requires Valid()
      modifies this`stack, this`tag, this`cur, this`state, this`value, this`written
      ensures Valid()
      ensures r == if !SendAllowed(old(value), m) then -1
                   else if WrittenByOwner(old(value), m) then if up then 1 else 2
                   else 0
      ensures value == if r == -1 then old(value) else E.OnSend(reg, old(value), m)
      ensures written == old(written) + if r == 1 then [m] else []
    {
      if m.param1 != tag {
        return -1;
      }
      if m.cmd == REQ_USE_STREAM_TAG {
        if state != HalfReq && state != HalfActive {
          return -1;
        }
      }
      if m.cmd == REQ_QUIT_HOLD_STREAM && state != HalfQuit {
        return -1;
      }
      var needWrite := GiveAnswer(m);
      if needWrite {
        var ok := Write(m, up);
        return if ok then 1 else 2;
      }
      return 0;
    }

    // `send_sv_msg` of a hold stream: whatever the owner answers, a message let through is
    // written exactly once, or lost if the transport does not take it.
    method SendSvMsg(m: Msg, up: bool) returns (ok: bool)
      requires Valid()
      modifies this
      ensures Valid()
      ensures var s := E.SendSvMsg(reg, old(value), m);
              value == s.ep && ok == (s.ok && up) && written == old(written) + Kept(s.out, up)
    {
      var outerRet := OnSendSvMsg(m, up);
      if outerRet == -1 {
        value := value.(faulted := true);
        return false;
      }
      if outerRet == 1 || outerRet == 2 {
        return outerRet == 1;
      }
      ok := Write(m, up);
    }
  }
}
