/** One end of the stream-switching protocol as a value: what each operation of
    StreamVariant (mqas/core/stream.impl.hpp) does to the fields, branch by branch.

    `reg` is the set of registered STREAM_TAGs, T the identity of a hold stream.
    A failing C++ assert is recorded in `faulted`, and execution goes on as the
    release build does. */
module Endpoint {
  import opened Bytes
  import opened Wrappers
  import opened VariantMsg

  // enum class variant_stream_state; Idle is its `none`
  datatype State = Idle | ReqWaitAck | HalfReq | Active | HalfActive | QuitWaitAck | HalfQuit
  {
    predicate AtRest() { Idle? || Active? }
    // An own request is on its way; the hold stream's reads go to the shell.
    predicate Waiting() { ReqWaitAck? || QuitWaitAck? }
    predicate Pending() { !AtRest() }
  }

  datatype Hold<+T> = Hold(id: T, waitRet: bool)

  datatype Frame<+T> = Frame(tag: u32, hold: Hold<T>)

  datatype Endpoint<+T> = Endpoint(
    tag: u32, cur: Option<Hold<T>>, stack: seq<Frame<T>>, state: State, faulted: bool)

  // What the callbacks of the hold streams do during one step: the object made for a new
  // stream, the code the handler returns, and the bytes it leaves in its reply buffer.
  datatype Handler<+T> = Handler(made: T, verdict: u8, reply: seq<u8>)

  function Fresh<T>(): Endpoint<T> { Endpoint(0, None, [], Idle, false) }

  /* ---------- helpers of the source ---------- */

  function TryPush<T>(reg: set<u32>, e: Endpoint<T>): (Endpoint<T>, u8) {
    if !e.state.AtRest() then (e, INCORRECT_STATE)
    else if e.tag == 0 then (e, OK)
    else if e.tag in reg && e.cur.Some? then
      (e.(stack := e.stack + [Frame(e.tag, e.cur.value)], tag := 0, cur := None), OK)
    else (e, OK)
  }

  function Clear<T>(reg: set<u32>, e: Endpoint<T>): Endpoint<T> {
    if e.stack != [] then
      var top := e.stack[|e.stack| - 1];
      var popped := e.(stack := e.stack[..|e.stack| - 1]);
      if top.tag in reg then popped.(tag := top.tag, cur := Some(top.hold), state := Active) else popped
    else if e.tag != 0 then e.(tag := 0, cur := None, state := Idle)
    else e
  }

  function SetWait<T>(e: Endpoint<T>, v: bool): Endpoint<T> {
    if e.tag > 0 && e.cur.Some? then e.(cur := Some(e.cur.value.(waitRet := v))) else e
  }

  // A fresh hold stream becomes the current one.
  function Switch<T>(e: Endpoint<T>, tag: u32, id: T): Endpoint<T> {
    e.(tag := tag, cur := Some(Hold(id, false)), faulted := e.faulted || e.tag != 0)
  }

  predicate LocalAccepts(code: u8) { code == OK || code == SKIP_AND_MANUAL || code == NOT_SUPPORT }

  predicate PeerAccepts(code: u8) { code == OK || code == SKIP_AND_MANUAL }

  function ChangeToLocal<T>(reg: set<u32>, e: Endpoint<T>, tag: u32, h: Handler<T>): Endpoint<T> {
    if LocalAccepts(h.verdict) then SetWait(Switch(e, tag, h.made), true)
    else Clear(reg, Switch(e, tag, h.made))
  }

  function ChangeToPeer<T>(reg: set<u32>, e: Endpoint<T>, tag: u32, h: Handler<T>): (Endpoint<T>, u8) {
    if tag !in reg then (e, FAILED_NOT_FIND)
    else if PeerAccepts(h.verdict) then (Switch(e, tag, h.made), h.verdict)
    else (Clear(reg, Switch(e, tag, h.made)), h.verdict)
  }

  /* ---------- requests ---------- */

  datatype Sent<T> = Sent(ep: Endpoint<T>, out: seq<Msg>, ok: bool)

  function ReqChangeTo<T>(reg: set<u32>, e: Endpoint<T>, tag: u32, params: seq<u8>, h: Handler<T>): Sent<T> {
    if |params| > EXTRA_PARAMS_MAX_SIZE then Sent(e, [], false)
    else if tag !in reg then Sent(e, [], false)
    else
      var (pushed, code) := TryPush(reg, e);
      if code != OK then Sent(pushed, [], false)
      else
        var changed := ChangeToLocal(reg, pushed, tag, h);
        if !LocalAccepts(h.verdict) then Sent(changed, [], false)
        else if h.verdict == SKIP_AND_MANUAL then Sent(changed.(state := HalfReq), [], true)
        else
          var extra := if h.reply != [] then h.reply else if h.verdict == NOT_SUPPORT then params else [];
          Sent(changed.(state := ReqWaitAck), [ChangeRequest(tag, extra)], true)
  }

  // `req_quit` of the current hold stream, followed by the `on_req_quit` of its owner; the
  // tag is whatever the caller passes.
  function ReqQuit<T>(e: Endpoint<T>, tag: u32, params: seq<u8>): Sent<T> {
    if |params| > EXTRA_PARAMS_MAX_SIZE then Sent(e, [], false)
    else Sent(SetWait(e, true).(state := QuitWaitAck), [QuitRequest(tag, params)], true)
  }

  /* ---------- incoming commands ---------- */

  function OnChangeAck<T>(reg: set<u32>, e: Endpoint<T>, m: Msg): Endpoint<T> {
    var e0 := e.(faulted := e.faulted || !e.state.ReqWaitAck?);
    if m.errcode != OK then Clear(reg, e0.(state := Idle))
    else SetWait(e0.(state := Active), false)
  }

  function OnChangeReq<T>(reg: set<u32>, e: Endpoint<T>, m: Msg, h: Handler<T>): (Endpoint<T>, seq<Msg>) {
    var (pushed, pushCode) := TryPush(reg, e);
    if pushCode != OK then (pushed, [m.Answer(pushCode, [])])
    else
      var (changed, code) := ChangeToPeer(reg, pushed, m.param1, h);
      if code == SKIP_AND_MANUAL then (changed.(state := HalfActive), [])
      else (changed.(state := Active), [m.Answer(code, if m.param1 in reg then h.reply else [])])
  }

  function OnQuitAck<T>(reg: set<u32>, e: Endpoint<T>, m: Msg): Endpoint<T> {
    var e0 := e.(faulted := e.faulted || !e.state.QuitWaitAck?);
    if m.errcode != OK then e0.(state := Active)
    else Clear(reg, e0.(state := Idle))
  }

  function OnQuitReq<T>(reg: set<u32>, e: Endpoint<T>, m: Msg, h: Handler<T>): (Endpoint<T>, seq<Msg>) {
    if m.param1 != e.tag then (e.(state := Idle), [m.Answer(TAG_NOT_EQ, [])])
    else
      var code := if e.tag > 0 then h.verdict else FAILED_NOT_FIND;
      if code == SKIP_AND_MANUAL then (e.(state := HalfQuit), [])
      else (Clear(reg, e.(state := Idle)), [m.Answer(code, if e.tag > 0 then h.reply else [])])
  }

  function OnRead<T>(reg: set<u32>, e: Endpoint<T>, m: Msg, h: Handler<T>): (Endpoint<T>, seq<Msg>) {
    if m.cmd == REQ_USE_STREAM_TAG then
      if m.IsAck() then (OnChangeAck(reg, e, m), []) else OnChangeReq(reg, e, m, h)
    else if m.cmd == REQ_QUIT_HOLD_STREAM then
      if m.IsAck() then (OnQuitAck(reg, e, m), []) else OnQuitReq(reg, e, m, h)
    else (e, [])
  }

  /* ---------- answers given later ---------- */

  // Whether on_send_sv_msg lets the message through (it returns -1 otherwise).
  predicate SendAllowed<T>(e: Endpoint<T>, m: Msg) {
    && m.param1 == e.tag
    && (m.cmd == REQ_USE_STREAM_TAG ==> e.state.HalfReq? || e.state.HalfActive?)
    && (m.cmd == REQ_QUIT_HOLD_STREAM ==> e.state.HalfQuit?)
  }

  function OnSend<T>(reg: set<u32>, e: Endpoint<T>, m: Msg): Endpoint<T> {
    match e.state
    case HalfActive => if m.errcode == OK then e.(state := Active) else Clear(reg, e.(state := Idle))
    case HalfReq => if m.errcode == OK then e.(state := ReqWaitAck) else Clear(reg, e.(state := Idle))
    case HalfQuit => if m.errcode == OK then Clear(reg, e.(state := Idle)) else e.(state := Active)
    case _ => e
  }

  // Whether on_send_sv_msg writes the message itself, before the caller can.
  predicate WrittenByOwner<T>(e: Endpoint<T>, m: Msg) {
    match e.state
    case HalfActive | HalfReq => m.errcode != OK
    case HalfQuit => m.errcode == OK
    case _ => false
  }

  // send_sv_msg: on_send_sv_msg, then the caller writes unless the owner already did.
  // A rejected message is an assertion failure of the caller.
  function SendSvMsg<T>(reg: set<u32>, e: Endpoint<T>, m: Msg): Sent<T> {
    if SendAllowed(e, m) then Sent(OnSend(reg, e, m), [m], true)
    else Sent(e.(faulted := true), [], false)
  }

  /* ---------- the structural invariant ---------- */

  predicate AllRegistered<T>(reg: set<u32>, frames: seq<Frame<T>>) {
    forall i :: 0 <= i < |frames| ==> frames[i].tag in reg
  }

  // A stream is paused with nothing current.
  predicate Stranded<T>(e: Endpoint<T>) { e.tag == 0 && e.stack != [] }

  // Tag 0 exactly when no stream is held; then nothing is paused and nothing is pending.
  // While an own request is out, the current stream's reads are routed to the shell.
  ghost predicate WellFormed<T>(reg: set<u32>, e: Endpoint<T>) {
    && 0 !in reg
    && (e.tag == 0 <==> e.cur.None?)
    && (e.tag == 0 ==> e.state.AtRest())
    && !Stranded(e)
    && (e.tag != 0 ==> e.tag in reg)
    && AllRegistered(reg, e.stack)
    && (e.state.Waiting() || e.state.HalfReq? ==> e.cur.Some? && e.cur.value.waitRet)
  }
}
