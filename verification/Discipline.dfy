/** What TwoEnds.Allowed asks of the hold streams is exact: break any rule at any point of any
    run, and some way of going on that keeps all of them fails an assertion, strands a stream,
    lets a quit meet another tag, or comes to rest in disagreement or with a request never
    answered; keep it, and none does. */
module Discipline {
  import opened Bytes
  import opened VariantMsg
  import opened Endpoint
  import opened PlainStack
  import opened TwoEnds

  function RunFrom(w: World<Plain>, evs: seq<Event>): World<Plain>
    decreases evs
  {
    if evs == [] then w else RunFrom(PlainStep(w, evs[0]), evs[1..])
  }

  predicate LegalFrom(w: World<Plain>, evs: seq<Event>)
    decreases evs
  {
    evs == [] || (EventAllowed(w, evs[0]) && LegalFrom(PlainStep(w, evs[0]), evs[1..]))
  }

  // A failed assertion or a stranded stream; a quit about to meet another tag; two ends at
  // rest that hold different tags, or with a request never answered.
  predicate Wrong(w: World<Plain>) {
    || w.a.faulted || w.b.faulted
    || !QuitsMeetTheirTag(w, w.a.Top(), w.b.Top())
    || (Quiet(w, w.a.state, w.b.state) && (w.a.view != w.b.view || !AllAnswered(w)))
  }

  ghost predicate MayGoWrong(w: World<Plain>) {
    exists evs :: LegalFrom(w, evs) && Wrong(RunFrom(w, evs))
  }

  lemma RightNow(w: World<Plain>)
    requires Inv(w)
    ensures !Wrong(w)
  {
    if w.ba != [] && IsQuitRequest(w.ba[0]) { QuitMeetsItsTag(w); }
    if w.ab != [] && IsQuitRequest(w.ab[0]) { QuitMeetsItsTag(w.Flip()); }
  }

  lemma {:induction false} StaysRight(w: World<Plain>, evs: seq<Event>)
    requires Inv(w) && LegalFrom(w, evs)
    ensures !Wrong(RunFrom(w, evs))
    decreases evs
  {
    if evs == [] {
      RightNow(w);
    } else {
      StepKeepsInv(w, evs[0]);
      StaysRight(PlainStep(w, evs[0]), evs[1..]);
    }
  }

  lemma NeverWrong(w: World<Plain>)
    requires Inv(w)
    ensures !MayGoWrong(w)
  {
    forall evs | LegalFrom(w, evs) ensures !Wrong(RunFrom(w, evs)) {
      StaysRight(w, evs);
    }
  }

  lemma WrongNow(w: World<Plain>)
    requires Wrong(w)
    ensures MayGoWrong(w)
  {
    assert LegalFrom(w, []) && RunFrom(w, []) == w;
  }

  lemma WrongAfter(w: World<Plain>, ev: Event)
    requires EventAllowed(w, ev) && MayGoWrong(PlainStep(w, ev))
    ensures MayGoWrong(w)
  {
    var evs :| LegalFrom(PlainStep(w, ev), evs) && Wrong(RunFrom(PlainStep(w, ev), evs));
    assert ([ev] + evs)[1..] == evs;
    assert LegalFrom(w, [ev] + evs) && RunFrom(w, [ev] + evs) == RunFrom(PlainStep(w, ev), evs);
  }

  const GRANT := Deliver(Handler(0, OK, []))
  const READS_A := Event(true, GRANT)
  const READS_B := Event(false, GRANT)

  /* ---------- worlds in which something goes wrong ---------- */

  // A command as the program writes them, and one that asks.
  predicate Known(m: Msg) { m.cmd == REQ_USE_STREAM_TAG || m.cmd == REQ_QUIT_HOLD_STREAM }

  predicate Asks(m: Msg) { Known(m) && !m.IsAck() }

  // An answer its reader does not wait for.
  predicate Stray(x: Plain, m: Msg) {
    && m.IsAck() && Known(m)
    && !(if m.cmd == REQ_USE_STREAM_TAG then x.state.ReqWaitAck? else x.state.QuitWaitAck?)
  }

  lemma StrayToA(w: World<Plain>)
    requires w.ba != [] && Stray(w.a, w.ba[0])
    ensures MayGoWrong(w)
  {
    WrongNow(PlainStep(w, READS_A));
    WrongAfter(w, READS_A);
  }

  lemma StrayToB(w: World<Plain>)
    requires w.ab != [] && Stray(w.b, w.ab[0])
    ensures MayGoWrong(w)
  {
    WrongNow(PlainStep(w, READS_B));
    WrongAfter(w, READS_B);
  }

  // The request that b reads next is answered there and then.
  lemma BReplies(w: World<Plain>)
    requires w.ab != [] && Asks(w.ab[0])
    ensures var v := PlainStep(w, READS_B);
      && v.a == w.a && v.ab == w.ab[1..] && EventAllowed(w, READS_B)
      && |v.ba| == |w.ba| + 1 && v.ba[..|w.ba|] == w.ba && v.sentB == w.sentB + [v.ba[|w.ba|]]
      && v.ba[|w.ba|].IsAck() && v.ba[|w.ba|].cmd == w.ab[0].cmd
      && v.sentA == w.sentA && v.regA == w.regA && v.regB == w.regB
  {
  }

  // A request of a whose answer a does not wait for.
  lemma Orphan(w: World<Plain>)
    requires w.a.state.AtRest() && w.ab != [] && Asks(w.ab[0])
    requires |w.ba| <= 1 && (w.ba != [] ==> Asks(w.ba[0]))
    ensures MayGoWrong(w)
  {
    BReplies(w);
    var w1 := PlainStep(w, READS_B);
    if w.ba == [] {
      StrayToA(w1);
    } else {
      assert w1.ba[0] == w.ba[0];
      var w2 := PlainStep(w1, READS_A);
      assert w2.a.state.AtRest() && w2.ba == [w1.ba[1]];
      StrayToA(w2);
      WrongAfter(w1, READS_A);
    }
    WrongAfter(w, READS_B);
  }

  // The answer to a change reaches a after it has asked for a quit instead.
  lemma ChangeAnswerMeetsQuit(w: World<Plain>)
    requires w.a.state.QuitWaitAck? && 1 <= |w.ba| <= 2
    requires forall i :: 0 <= i < |w.ba| ==> w.ba[i].cmd == REQ_USE_STREAM_TAG
    requires w.ba[|w.ba| - 1].IsAck() && (|w.ba| == 2 ==> !w.ba[0].IsAck())
    ensures MayGoWrong(w)
  {
    if |w.ba| == 1 {
      StrayToA(w);
    } else {
      var w1 := PlainStep(w, READS_A);
      assert w1.a == w.a && w1.ba == [w.ba[1]];
      StrayToA(w1);
      WrongAfter(w, READS_A);
    }
  }

  // A quit of a meets a change that b still has open.
  lemma QuitMeetsChange(w: World<Plain>)
    requires w.a.state.QuitWaitAck? && w.b.state.ReqWaitAck?
    requires |w.ab| == 1 && IsQuitRequest(w.ab[0])
    requires |w.ba| == 1 && w.ba[0].cmd == REQ_USE_STREAM_TAG && !w.ba[0].IsAck()
    ensures MayGoWrong(w)
  {
    BReplies(w);
    var w1 := PlainStep(w, READS_B);
    assert w1.b.state.AtRest() && w1.ab == [] && w1.ba[0] == w.ba[0];
    var w2 := PlainStep(w1, READS_A);
    assert w2.ab == [w.ba[0].Answer(INCORRECT_STATE, [])] && w2.b == w1.b;
    StrayToB(w2);
    WrongAfter(w1, READS_A);
    WrongAfter(w, READS_B);
  }

  // A quit of a meets an end at rest that holds one stream less.
  lemma QuitMeetsShorter(w: World<Plain>)
    requires w.a.state.QuitWaitAck? && w.b.state.AtRest() && w.a.view != [] && w.b.view == Init(w.a.view)
    requires |w.ab| == 1 && IsQuitRequest(w.ab[0]) && w.ba == []
    ensures MayGoWrong(w)
  {
    if w.ab[0].param1 != w.b.Top() {
      WrongNow(w);
    } else {
      var w1 := PlainStep(w, READS_B);
      assert w1.ab == [] && |w1.ba| == 1 && w1.ba[0].errcode == if w.b.view == [] then FAILED_NOT_FIND else OK;
      var w2 := PlainStep(w1, READS_A);
      assert |w2.a.view| != |w2.b.view|;
      WrongNow(w2);
      WrongAfter(w1, READS_A);
      WrongAfter(w, READS_B);
    }
  }

  // One request too many or one answer too few, and both ends about to rest.
  lemma NeverAnswered(w: World<Plain>)
    requires w.a.state.QuitWaitAck? && w.b.state.AtRest() && w.ab == []
    requires |w.ba| == 1 && w.ba[0].IsAck() && w.ba[0].cmd == REQ_QUIT_HOLD_STREAM
    requires !AllAnswered(w)
    ensures MayGoWrong(w)
  {
    var v := PlainStep(w, READS_A);
    NothingSent(w.sentA);
    assert Quiet(v, v.a.state, v.b.state) && v.sentA == w.sentA && v.sentB == w.sentB;
    WrongNow(v);
    WrongAfter(w, READS_A);
  }

  lemma CountsAfterReply(w: World<Plain>)
    requires w.ab != [] && Asks(w.ab[0])
    ensures var v := PlainStep(w, READS_B);
      && v.sentA == w.sentA && |Select(v.sentB, false)| == |Select(w.sentB, false)|
      && |Select(v.sentB, true)| == |Select(w.sentB, true)| + 1
  {
    BReplies(w);
    var ack := PlainStep(w, READS_B).ba[|w.ba|];
    SelectAppend(w.sentB, [ack], false);
    SelectAppend(w.sentB, [ack], true);
  }

  // A quit of a meets an end that already waits for, or owes, the answer to another request:
  // both drop their stream, and one of the requests is never answered.
  lemma QuitEatsRequest(w: World<Plain>)
    requires w.a.state.QuitWaitAck? && (w.b.state.Waiting() || w.b.state.HalfQuit?) && w.b.view != []
    requires |w.ab| == 1 && IsQuitRequest(w.ab[0]) && w.ba == []
    requires |Select(w.sentB, false)| != |Select(w.sentA, true)|
          || |Select(w.sentA, false)| != |Select(w.sentB, true)| + 1
    ensures MayGoWrong(w)
  {
    if w.ab[0].param1 != w.b.Top() {
      WrongNow(w);
    } else {
      BReplies(w);
      CountsAfterReply(w);
      var v := PlainStep(w, READS_B);
      assert v.b.state.AtRest() && v.ab == [];
      NeverAnswered(v);
      WrongAfter(w, READS_B);
    }
  }

  /* ---------- the rule for a quit ---------- */

  lemma QuitWithOtherTag(w: World<Plain>, tag: u32, params: seq<u8>)
    requires Inv(w) && w.a.state.AtRest() && w.a.view != [] && |params| <= EXTRA_PARAMS_MAX_SIZE
    requires !Unanswered(w.b, w.ab) && tag != w.a.Top()
    ensures MayGoWrong(PlainAct(w, AskQuit(tag, params)))
  {
    var w1 := PlainAct(w, AskQuit(tag, params));
    if w.ab == [] {
      assert w.b.view == w.a.view;
      WrongNow(w1);
    } else {
      assert |w.ab| == 1 && w.ab[0].IsAck() && w1.ab[0] == w.ab[0];
      var w2 := PlainStep(w1, READS_B);
      assert w2.ab == [QuitRequest(tag, params)] && w2.b.view == w.a.view;
      WrongNow(w2);
      WrongAfter(w1, READS_B);
    }
  }

  lemma QuitOverRequest(w: World<Plain>, tag: u32, params: seq<u8>)
    requires Inv(w) && w.a.state.AtRest() && w.a.view != [] && |params| <= EXTRA_PARAMS_MAX_SIZE
    requires Unanswered(w.b, w.ab)
    ensures MayGoWrong(PlainAct(w, AskQuit(tag, params)))
  {
    assert w.ab == [];
    var w1 := PlainAct(w, AskQuit(tag, params));
    assert w1.ab == [QuitRequest(tag, params)];
    if w.b.state.ReqWaitAck? {
      QuitMeetsChange(w1);
    } else if w.b.state.HalfReq? {
      var later := Event(false, Answer(ChangeRequest(w.b.Top(), [])));
      QuitMeetsChange(PlainStep(w1, later));
      WrongAfter(w1, later);
    } else {
      assert |w.ba| == 1 && IsQuitRequest(w.ba[0]);
      BReplies(w1);
      var w2 := PlainStep(w1, READS_B);
      assert w2.ba[0] == w.ba[0];
      var w3 := PlainStep(w2, READS_A);
      assert w3.a.state.AtRest() && w3.ba == [w2.ba[1]];
      StrayToA(w3);
      WrongAfter(w2, READS_A);
      WrongAfter(w1, READS_B);
    }
  }

  lemma QuitWhileOwing(w: World<Plain>, tag: u32, params: seq<u8>)
    requires Inv(w) && Owes(w.a) && |params| <= EXTRA_PARAMS_MAX_SIZE
    ensures MayGoWrong(PlainAct(w, AskQuit(tag, params)))
  {
    assert w.ab == [] && w.ba == [] && w.b.state.Waiting() && w.b.view != [];
    SelectAppend(w.sentA, [QuitRequest(tag, params)], true);
    QuitEatsRequest(PlainAct(w, AskQuit(tag, params)));
  }

  lemma QuitOverOwnHalfRequest(w: World<Plain>, tag: u32, params: seq<u8>)
    requires Inv(w) && w.a.state.HalfReq? && |params| <= EXTRA_PARAMS_MAX_SIZE
    ensures MayGoWrong(PlainAct(w, AskQuit(tag, params)))
  {
    var w1 := PlainAct(w, AskQuit(tag, params));
    if w.ab != [] {
      assert |w.ab| == 1 && w.ab[0].IsAck() && w.ba == [] && w1.ab[0] == w.ab[0];
      var w2 := PlainStep(w1, READS_B);
      assert w2.ab == [QuitRequest(tag, params)] && w2.ba == [] && w2.b.view == Init(w.a.view);
      QuitMeetsShorter(w2);
      WrongAfter(w1, READS_B);
    } else if w.b.state.AtRest() {
      QuitMeetsShorter(w1);
    } else if w.b.state.HalfReq? {
      var later := Event(false, Answer(ChangeRequest(w.b.Top(), [])));
      QuitMeetsChange(PlainStep(w1, later));
      WrongAfter(w1, later);
    } else {
      assert w.b.state.ReqWaitAck? && |w.ba| == 1;
      QuitMeetsChange(w1);
    }
  }

  lemma QuitWhileChangeOwed(w: World<Plain>, tag: u32, params: seq<u8>)
    requires Inv(w) && w.a.state.ReqWaitAck? && Owes(w.b) && |params| <= EXTRA_PARAMS_MAX_SIZE
    ensures MayGoWrong(PlainAct(w, AskQuit(tag, params)))
  {
    var w1 := PlainAct(w, AskQuit(tag, params));
    var later := Event(false, Answer(ChangeRequest(w.b.Top(), []).Answer(OK, [])));
    assert w.ba == [] && EventAllowed(w1, later);
    ChangeAnswerMeetsQuit(PlainStep(w1, later));
    WrongAfter(w1, later);
  }

  lemma QuitOverAnsweredChange(w: World<Plain>, tag: u32, params: seq<u8>)
    requires Inv(w) && w.a.state.ReqWaitAck? && HasAck(w.ba) && |params| <= EXTRA_PARAMS_MAX_SIZE
    ensures MayGoWrong(PlainAct(w, AskQuit(tag, params)))
  {
    var w1 := PlainAct(w, AskQuit(tag, params));
    if w.ba[0].IsAck() { StrayToA(w1); } else { ChangeAnswerMeetsQuit(w1); }
  }

  // The change request of a is the next command b reads.
  lemma QuitBehindChange(w: World<Plain>)
    requires w.a.state.QuitWaitAck? && w.ab != [] && w.ab[0].cmd == REQ_USE_STREAM_TAG && !w.ab[0].IsAck()
    requires |w.ba| <= 1 && (w.ba != [] ==> w.ba[0].cmd == REQ_USE_STREAM_TAG && !w.ba[0].IsAck())
    ensures MayGoWrong(w)
  {
    BReplies(w);
    var v := PlainStep(w, READS_B);
    assert |w.ba| == 1 ==> v.ba[0] == w.ba[0];
    ChangeAnswerMeetsQuit(v);
    WrongAfter(w, READS_B);
  }

  lemma QuitOverUnreadChange(w: World<Plain>, tag: u32, params: seq<u8>)
    requires Inv(w) && w.a.state.ReqWaitAck? && HasReq(w.ab) && |params| <= EXTRA_PARAMS_MAX_SIZE
    ensures MayGoWrong(PlainAct(w, AskQuit(tag, params)))
  {
    var w1 := PlainAct(w, AskQuit(tag, params));
    assert w1.ab[0] == w.ab[0];
    if w.ab[0].IsAck() {
      assert w.ba == [] && w1.ab[1] == w.ab[1];
      var w2 := PlainStep(w1, READS_B);
      assert w2.ab[0] == w.ab[1] && w2.a == w1.a && w2.ba == [];
      QuitBehindChange(w2);
      WrongAfter(w1, READS_B);
    } else {
      assert w.ba == [] || w.ba == [ReqIn(w.ba)];
      QuitBehindChange(w1);
    }
  }

  // The first quit is still under way to b.
  lemma SecondQuitBehindFirst(w: World<Plain>)
    requires w.a.state.QuitWaitAck? && w.ba == []
    requires |w.ab| == 2 && IsQuitRequest(w.ab[0]) && IsQuitRequest(w.ab[1])
    ensures MayGoWrong(w)
  {
    BReplies(w);
    var w1 := PlainStep(w, READS_B);
    var w2 := PlainStep(w1, READS_A);
    assert w2.a.state.AtRest() && w2.ab == [w.ab[1]] && w2.ba == [];
    Orphan(w2);
    WrongAfter(w1, READS_A);
    WrongAfter(w, READS_B);
  }

  lemma SecondQuitUnread(w: World<Plain>, tag: u32, params: seq<u8>)
    requires Inv(w) && w.a.state.QuitWaitAck? && HasReq(w.ab) && |params| <= EXTRA_PARAMS_MAX_SIZE
    ensures MayGoWrong(PlainAct(w, AskQuit(tag, params)))
  {
    assert w.ba == [];
    var w1 := PlainAct(w, AskQuit(tag, params));
    if |w.ab| == 1 {
      SecondQuitBehindFirst(w1);
    } else {
      assert w.ab[0].IsAck() && w1.ab == [w.ab[0], w.ab[1], QuitRequest(tag, params)];
      var w2 := PlainStep(w1, READS_B);
      assert w2.ab == [w.ab[1], QuitRequest(tag, params)] && w2.a == w1.a && w2.ba == [];
      SecondQuitBehindFirst(w2);
      WrongAfter(w1, READS_B);
    }
  }

  lemma SecondQuitAnswered(w: World<Plain>, tag: u32, params: seq<u8>)
    requires Inv(w) && w.a.state.QuitWaitAck? && HasAck(w.ba) && |params| <= EXTRA_PARAMS_MAX_SIZE
    ensures MayGoWrong(PlainAct(w, AskQuit(tag, params)))
  {
    var quit := QuitRequest(tag, params);
    var w1 := PlainAct(w, AskQuit(tag, params));
    var w2 := PlainStep(w1, READS_A);
    if w.ba[0].IsAck() {
      assert w2.a.state.AtRest() && w2.ba == w.ba[1..] && w2.ab == w.ab + [quit];
      if w.ab == [] {
        Orphan(w2);
      } else {
        assert |w.ab| == 1 && w.ab[0].IsAck() && w2.ab[0] == w.ab[0] && w2.ba == [];
        var w3 := PlainStep(w2, READS_B);
        assert w3.ab == [quit] && w3.a == w2.a && w3.ba == [];
        Orphan(w3);
        WrongAfter(w2, READS_B);
      }
    } else {
      assert w.ab == [] && |w.ba| == 2 && w2.ab[0] == quit && w2.ba == [w.ba[1]];
      var w3 := PlainStep(w2, READS_A);
      assert w3.a.state.AtRest() && w3.ab[0] == quit && w3.ba == [];
      Orphan(w3);
      WrongAfter(w2, READS_A);
    }
    WrongAfter(w1, READS_A);
  }

  lemma SecondQuit(w: World<Plain>, tag: u32, params: seq<u8>)
    requires Inv(w) && w.a.state.QuitWaitAck? && |params| <= EXTRA_PARAMS_MAX_SIZE
    ensures MayGoWrong(PlainAct(w, AskQuit(tag, params)))
  {
    if HasReq(w.ab) {
      SecondQuitUnread(w, tag, params);
    } else if HasAck(w.ba) {
      SecondQuitAnswered(w, tag, params);
    } else {
      assert w.b.state.HalfQuit? && w.ab == [] && w.ba == [];
      SelectAppend(w.sentA, [QuitRequest(tag, params)], false);
      QuitEatsRequest(PlainAct(w, AskQuit(tag, params)));
    }
  }

  // The current stream may ask for a quit exactly when it is at rest, names its own tag, and
  // the peer has no request of its own, sent or put off, that is still unanswered.
  lemma QuitRuleIsExact(w: World<Plain>, tag: u32, params: seq<u8>)
    requires Inv(w) && w.a.view != [] && |params| <= EXTRA_PARAMS_MAX_SIZE
    ensures MayGoWrong(PlainAct(w, AskQuit(tag, params)))
        <==> !(w.a.state.AtRest() && tag == w.a.Top() && !Unanswered(w.b, w.ab))
  {
    if Allowed(w, AskQuit(tag, params)) {
      AskQuitKeepsLedgers(w, AskQuit(tag, params));
      NeverWrong(PlainAct(w, AskQuit(tag, params)));
    } else {
      match w.a.state
      case Idle | Active =>
        if Unanswered(w.b, w.ab) { QuitOverRequest(w, tag, params); } else { QuitWithOtherTag(w, tag, params); }
      case ReqWaitAck =>
        if Owes(w.b) { QuitWhileChangeOwed(w, tag, params); }
        else if HasAck(w.ba) { QuitOverAnsweredChange(w, tag, params); }
        else { QuitOverUnreadChange(w, tag, params); }
      case HalfReq => QuitOverOwnHalfRequest(w, tag, params);
      case QuitWaitAck => SecondQuit(w, tag, params);
      case HalfActive | HalfQuit => QuitWhileOwing(w, tag, params);
    }
  }

  /* ---------- the rule for a change ---------- */

  lemma ChangeMeetsQuit(w: World<Plain>)
    requires w.a.state.ReqWaitAck? && w.b.state.QuitWaitAck?
    requires |w.ab| == 1 && w.ab[0].cmd == REQ_USE_STREAM_TAG && !w.ab[0].IsAck()
    requires |w.ba| == 1 && IsQuitRequest(w.ba[0])
    ensures MayGoWrong(w)
  {
    BReplies(w);
    var w1 := PlainStep(w, READS_B);
    assert w1.ba[0] == w.ba[0];
    var w2 := PlainStep(w1, READS_A);
    assert w2.a.state.AtRest() && w2.ba == [w1.ba[1]];
    StrayToA(w2);
    WrongAfter(w1, READS_A);
    WrongAfter(w, READS_B);
  }

  lemma ChangeUnderQuit(w: World<Plain>, tag: u32, params: seq<u8>, h: Handler<nat>)
    requires Inv(w) && ChangeTo(w.regA, w.a, tag, params, h.verdict, h.reply).ok
    requires w.b.state.QuitWaitAck? && Unanswered(w.b, w.ab)
    ensures MayGoWrong(PlainAct(w, AskChange(tag, params, h)))
  {
    assert w.ab == [] && |w.ba| == 1 && IsQuitRequest(w.ba[0]);
    var w1 := PlainAct(w, AskChange(tag, params, h));
    if h.verdict == SKIP_AND_MANUAL {
      var later := Event(true, Answer(ChangeRequest(tag, [])));
      ChangeMeetsQuit(PlainStep(w1, later));
      WrongAfter(w1, later);
    } else {
      ChangeMeetsQuit(w1);
    }
  }

  // The request of a finds b at rest, holding a stream and not knowing the tag.
  lemma UnknownTagMeetsRest(w: World<Plain>)
    requires w.b.state.AtRest() && w.b.view != []
    requires |w.ab| == 1 && w.ab[0].cmd == REQ_USE_STREAM_TAG && !w.ab[0].IsAck() && w.ab[0].param1 !in w.regB
    ensures MayGoWrong(w)
  {
    WrongNow(PlainStep(w, READS_B));
    WrongAfter(w, READS_B);
  }

  lemma UnknownTagSentLater(w: World<Plain>)
    requires w.a.state.HalfReq? && w.a.Top() !in w.regB && w.ab == []
    requires w.b.state.AtRest() && w.b.view != []
    ensures MayGoWrong(w)
  {
    var later := Event(true, Answer(ChangeRequest(w.a.Top(), [])));
    UnknownTagMeetsRest(PlainStep(w, later));
    WrongAfter(w, later);
  }

  // b's own change is turned down before a sends the one it has put off.
  lemma UnknownTagAfterCrossing(w: World<Plain>)
    requires w.a.state.HalfReq? && w.a.Top() !in w.regB && w.ab == []
    requires w.b.state.ReqWaitAck? && |w.b.view| > 1
    requires |w.ba| == 1 && w.ba[0].cmd == REQ_USE_STREAM_TAG && !w.ba[0].IsAck()
    ensures MayGoWrong(w)
  {
    var w1 := PlainStep(w, READS_A);
    assert w1.a == w.a && w1.ab == [w.ba[0].Answer(INCORRECT_STATE, [])];
    UnknownTagSentLater(PlainStep(w1, READS_B));
    WrongAfter(w1, READS_B);
    WrongAfter(w, READS_A);
  }

  lemma UnknownTagPutOff(w: World<Plain>, tag: u32, params: seq<u8>, h: Handler<nat>)
    requires Inv(w) && ChangeTo(w.regA, w.a, tag, params, h.verdict, h.reply).ok && h.verdict == SKIP_AND_MANUAL
    requires tag !in w.regB && w.a.view != [] && !(w.b.state.QuitWaitAck? && Unanswered(w.b, w.ab))
    ensures MayGoWrong(PlainAct(w, AskChange(tag, params, h)))
  {
    var w1 := PlainAct(w, AskChange(tag, params, h));
    NothingSent(w.ab);
    assert w1.ab == w.ab && w1.ba == w.ba && w1.b == w.b;
    if w.b.state.AtRest() {
      assert w.ab == [] && w.b.view == w.a.view;
      UnknownTagSentLater(w1);
    } else if HasAck(w.ab) {
      var w2 := PlainStep(w1, READS_B);
      assert w2.ab == [] && w2.b.state.AtRest() && w2.b.view == w.a.view;
      UnknownTagSentLater(w2);
      WrongAfter(w1, READS_B);
    } else if w.b.state.ReqWaitAck? {
      assert |w.b.view| == |w.a.view| + 1;
      UnknownTagAfterCrossing(w1);
    } else {
      assert w.b.state.HalfReq? && |w.b.view| == |w.a.view| + 1 && w.ba == [];
      var later := Event(false, Answer(ChangeRequest(w.b.Top(), [])));
      UnknownTagAfterCrossing(PlainStep(w1, later));
      WrongAfter(w1, later);
    }
  }

  lemma UnknownTagSentNow(w: World<Plain>, tag: u32, params: seq<u8>, h: Handler<nat>)
    requires Inv(w) && ChangeTo(w.regA, w.a, tag, params, h.verdict, h.reply).ok && h.verdict != SKIP_AND_MANUAL
    requires tag !in w.regB && w.a.view != [] && !Unanswered(w.b, w.ab)
    ensures MayGoWrong(PlainAct(w, AskChange(tag, params, h)))
  {
    var w1 := PlainAct(w, AskChange(tag, params, h));
    if w.ab == [] {
      assert w.b.view == w.a.view;
      UnknownTagMeetsRest(w1);
    } else {
      assert |w.ab| == 1 && w.ab[0].IsAck() && w1.ab[0] == w.ab[0];
      var w2 := PlainStep(w1, READS_B);
      assert w2.b.view == w.a.view;
      UnknownTagMeetsRest(w2);
      WrongAfter(w1, READS_B);
    }
  }

  // A change that takes its stream up, now or to ask for it later, is safe exactly under the
  // rule; one that is not made is always safe, and crossing changes are fine.
  lemma ChangeRuleIsExact(w: World<Plain>, tag: u32, params: seq<u8>, h: Handler<nat>)
    requires Inv(w)
    ensures MayGoWrong(PlainAct(w, AskChange(tag, params, h)))
        <==> ChangeTo(w.regA, w.a, tag, params, h.verdict, h.reply).ok
             && !MayAskChange(w, tag, h.verdict == SKIP_AND_MANUAL)
  {
    if Allowed(w, AskChange(tag, params, h)) {
      AskChangeKeepsLedgers(w, AskChange(tag, params, h));
      NeverWrong(PlainAct(w, AskChange(tag, params, h)));
    } else if w.b.state.QuitWaitAck? && Unanswered(w.b, w.ab) {
      ChangeUnderQuit(w, tag, params, h);
    } else if h.verdict == SKIP_AND_MANUAL {
      UnknownTagPutOff(w, tag, params, h);
    } else {
      UnknownTagSentNow(w, tag, params, h);
    }
  }

  /* ---------- the rule for reading ---------- */

  // Reading is safe exactly if it is not a quit request whose handler neither grants it nor
  // puts it off: any other code clears the responder while the requester keeps its stream.
  lemma QuitReplyRuleIsExact(w: World<Plain>, h: Handler<nat>)
    requires Inv(w) && w.ba != []
    ensures MayGoWrong(PlainAct(w, Deliver(h))) <==> IsQuitRequest(w.ba[0]) && !PeerAccepts(h.verdict)
  {
    if Allowed(w, Deliver(h)) {
      StepKeepsInv(w, Event(true, Deliver(h)));
      NeverWrong(PlainAct(w, Deliver(h)));
    } else {
      QuitMeetsItsTag(w);
      assert |w.ba| == 1 && w.ab == [] && w.a.view == w.b.view;
      var w1 := PlainAct(w, Deliver(h));
      assert w1.a.view == Init(w.a.view) && |w1.ab| == 1 && w1.ab[0].errcode == h.verdict;
      var w2 := PlainStep(w1, READS_B);
      assert w2.b.view == w.b.view && w2.a.view != w2.b.view;
      WrongNow(w2);
      WrongAfter(w1, READS_B);
    }
  }

  /* ---------- the rule for answers given later ---------- */

  lemma OwedAnswerAsRequest(w: World<Plain>, m: Msg)
    requires Inv(w) && Owes(w.a) && MayAnswer(w.a, m) && Asks(m)
    ensures MayGoWrong(PlainAct(w, Answer(m)))
  {
    assert w.ab == [] && w.ba == [];
    Orphan(PlainAct(w, Answer(m)));
  }

  lemma HalfRequestCalledOff(w: World<Plain>, m: Msg)
    requires Inv(w) && w.a.state.HalfReq? && MayAnswer(w.a, m) && Asks(m) && m.errcode != OK
    ensures MayGoWrong(PlainAct(w, Answer(m)))
  {
    var w1 := PlainAct(w, Answer(m));
    if w.ab == [] {
      Orphan(w1);
    } else {
      assert |w.ab| == 1 && w.ab[0].IsAck() && w.ba == [] && w1.ab[0] == w.ab[0];
      var w2 := PlainStep(w1, READS_B);
      assert w2.ab == [m] && w2.ba == [] && w2.a == w1.a;
      Orphan(w2);
      WrongAfter(w1, READS_B);
    }
  }

  lemma HalfRequestAsAnswer(w: World<Plain>, m: Msg)
    requires Inv(w) && w.a.state.HalfReq? && MayAnswer(w.a, m) && m.IsAck() && m.cmd == REQ_USE_STREAM_TAG
    ensures MayGoWrong(PlainAct(w, Answer(m)))
  {
    var w1 := PlainAct(w, Answer(m));
    if w.ab != [] {
      assert |w.ab| == 1 && w.ab[0].IsAck() && w1.ab[0] == w.ab[0];
      var w2 := PlainStep(w1, READS_B);
      assert w2.ab == [m] && w2.b.state.AtRest();
      StrayToB(w2);
      WrongAfter(w1, READS_B);
    } else if !w.b.state.ReqWaitAck? {
      StrayToB(w1);
    } else {
      assert |w.ba| == 1 && w.ba[0].cmd == REQ_USE_STREAM_TAG && !w.ba[0].IsAck();
      var w2 := PlainStep(w1, READS_B);
      assert w2.b.state.AtRest() && w2.ab == [] && w2.ba == w.ba;
      var w3 := PlainStep(w2, READS_A);
      assert |w3.ab| == 1 && w3.b == w2.b;
      StrayToB(w3);
      WrongAfter(w2, READS_A);
      WrongAfter(w1, READS_B);
    }
  }

  // An answer given later is safe exactly if it names the current tag and the command it
  // answers, as an answer; a change put off is sent as the request it is, without an error.
  lemma AnswerRuleIsExact(w: World<Plain>, m: Msg)
    requires Inv(w) && Known(m)
    ensures MayGoWrong(PlainAct(w, Answer(m))) <==> !Allowed(w, Answer(m))
  {
    if Allowed(w, Answer(m)) {
      AnswerKeepsLedgers(w, Answer(m));
      NeverWrong(PlainAct(w, Answer(m)));
    } else if !MayAnswer(w.a, m) {
      WrongNow(PlainAct(w, Answer(m)));
    } else if Owes(w.a) {
      OwedAnswerAsRequest(w, m);
    } else if m.IsAck() {
      HalfRequestAsAnswer(w, m);
    } else {
      HalfRequestCalledOff(w, m);
    }
  }
}
