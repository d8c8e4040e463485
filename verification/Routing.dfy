/** Who reads: a hold stream whose wait flag is up leaves its bytes to the shell. In runs in
    which no quit is refused, exactly the streams with an own request out do so. */
module Routing {
  import opened Bytes
  import opened Wrappers
  import opened VariantMsg
  import opened Endpoint
  import opened PlainStack
  import opened TwoEnds

  predicate AllDown<T>(frames: seq<Frame<T>>) {
    forall i :: 0 <= i < |frames| ==> !frames[i].hold.waitRet
  }

  // The current stream's flag is up exactly while its own request is out; paused streams
  // have theirs down.
  predicate FlagsExact<T>(e: Endpoint<T>) {
    && AllDown(e.stack)
    && (e.cur.Some? ==> (e.cur.value.waitRet <==> e.state.Waiting() || e.state.HalfReq?))
  }

  // The answer that leaves a flag up: a quit refused.
  predicate RefusesQuit(m: Msg) { m.IsAck() && m.cmd == REQ_QUIT_HOLD_STREAM && m.errcode != OK }

  lemma ClearKeepsFlags<T>(reg: set<u32>, e: Endpoint<T>)
    requires AllDown(e.stack) && AllRegistered(reg, e.stack)
    requires e.tag == 0 <==> e.cur.None?
    requires e.tag == 0 ==> e.stack == []
    ensures FlagsExact(Clear(reg, e.(state := Idle)))
  {
  }

  lemma AskChangeKeepsFlags<T>(reg: set<u32>, e: Endpoint<T>, tag: u32, params: seq<u8>, h: Handler<T>)
    requires WellFormed(reg, e) && FlagsExact(e)
    ensures FlagsExact(ReqChangeTo(reg, e, tag, params, h).ep)
  {
    if |params| <= EXTRA_PARAMS_MAX_SIZE && tag in reg && e.state.AtRest() {
      if LocalAccepts(h.verdict) {
        RequestedAfterReqChange(reg, e, tag, params, h);
      } else {
        ClearUndoesSwitch(reg, e, tag, h.made);
      }
    }
  }

  lemma AckKeepsFlags<T>(reg: set<u32>, e: Endpoint<T>, m: Msg, h: Handler<T>)
    requires WellFormed(reg, e) && FlagsExact(e) && !RefusesQuit(m) && m.IsAck()
    ensures FlagsExact(OnRead(reg, e, m, h).0)
  {
    ClearKeepsFlags(reg, e.(faulted := e.faulted || !e.state.ReqWaitAck?));
    ClearKeepsFlags(reg, e.(faulted := e.faulted || !e.state.QuitWaitAck?));
  }

  lemma ChangeReqKeepsFlags<T>(reg: set<u32>, e: Endpoint<T>, m: Msg, h: Handler<T>)
    requires WellFormed(reg, e) && FlagsExact(e)
    requires m.param1 in reg || e.tag == 0 || e.state.Pending()
    ensures FlagsExact(OnChangeReq(reg, e, m, h).0)
  {
    if e.state.AtRest() && m.param1 in reg && !PeerAccepts(h.verdict) {
      ClearUndoesSwitch(reg, e, m.param1, h.made);
    }
  }

  lemma QuitReqKeepsFlags<T>(reg: set<u32>, e: Endpoint<T>, m: Msg, h: Handler<T>)
    requires WellFormed(reg, e) && FlagsExact(e) && e.state.AtRest()
    ensures FlagsExact(OnQuitReq(reg, e, m, h).0)
  {
    ClearKeepsFlags(reg, e);
  }

  lemma AnswerKeepsFlags<T>(reg: set<u32>, e: Endpoint<T>, m: Msg)
    requires WellFormed(reg, e) && FlagsExact(e) && SendAllowed(e, m)
    requires e.state.HalfActive? || e.state.HalfReq? || e.state.HalfQuit?
    ensures FlagsExact(SendSvMsg(reg, e, m).ep)
  {
    ClearKeepsFlags(reg, e);
  }

  lemma DeliverKeepsFlags(w: World<Endpoint<nat>>, h: Handler<nat>)
    requires WellFormed(w.regA, w.a) && Core(AbsWorld(w)) && Allowed(AbsWorld(w), Deliver(h))
    requires FlagsExact(w.a) && !RefusesQuit(w.ba[0])
    ensures FlagsExact(OnRead(w.regA, w.a, w.ba[0], h).0)
  {
    var m := w.ba[0];
    if m.IsAck() {
      AckKeepsFlags(w.regA, w.a, m, h);
    } else if m.cmd == REQ_USE_STREAM_TAG {
      ChangeFindsItsTag(AbsWorld(w));
      assert w.a.tag == 0 <==> View(w.a) == [];
      ChangeReqKeepsFlags(w.regA, w.a, m, h);
    } else if m.cmd == REQ_QUIT_HOLD_STREAM {
      QuitMeetsItsTag(AbsWorld(w));
      QuitReqKeepsFlags(w.regA, w.a, m, h);
    }
  }

  lemma ActKeepsFlags(w: World<Endpoint<nat>>, action: Action)
    requires WellFormed(w.regA, w.a) && Core(AbsWorld(w)) && Allowed(AbsWorld(w), action)
    requires FlagsExact(w.a)
    requires action.Deliver? ==> !RefusesQuit(w.ba[0])
    ensures FlagsExact(Act(w, action).a)
  {
    match action
    case AskChange(tag, params, h) => AskChangeKeepsFlags(w.regA, w.a, tag, params, h);
    case AskQuit(_, _) =>
    case Deliver(h) => DeliverKeepsFlags(w, h);
    case Answer(m) =>
      assert w.a.tag == Abs(w.a).Top();
      AnswerKeepsFlags(w.regA, w.a, m);
  }

  // No event of the run delivers the refusal of a quit.
  predicate NoQuitRefused(w: World<Endpoint<nat>>, evs: seq<Event>) {
    evs == [] ||
    (NoQuitRefused(w, evs[..|evs| - 1]) &&
     var v := Run(w, evs[..|evs| - 1]);
     var inn := if evs[|evs| - 1].byA then v.ba else v.ab;
     (evs[|evs| - 1].action.Deliver? && inn != [] ==> !RefusesQuit(inn[0])))
  }

  // In every run without a refused quit: reads go to the shell exactly while the current
  // stream's own request is out, and every other stream reads for itself when its turn comes.
  lemma {:induction false} RoutingIsExact(regA: set<u32>, regB: set<u32>, evs: seq<Event>)
    requires 0 !in regA + regB && Legal(Start(regA, regB), evs) && NoQuitRefused(Start(regA, regB), evs)
    ensures FlagsExact(Run(Start(regA, regB), evs).a) && FlagsExact(Run(Start(regA, regB), evs).b)
  {
    if evs != [] {
      var init, ev := evs[..|evs| - 1], evs[|evs| - 1];
      RoutingIsExact(regA, regB, init);
      RunsAreGood(regA, regB, init);
      var v := Run(Start(regA, regB), init);
      ActKeepsFlags(if ev.byA then v else v.Flip(), ev.action);
    }
  }
}
