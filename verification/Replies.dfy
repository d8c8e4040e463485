/** What the messages carry: an end writes for a request what its hold stream's handler gave,
    and nothing else, and over whole runs the n-th answer carries what was given for the n-th
    request. Nothing here speaks of how the messages are put together. */
module Replies {
  import opened Bytes
  import opened Wrappers
  import opened VariantMsg
  import opened Endpoint
  import opened PlainStack
  import opened TwoEnds

  // The handler of a hold stream sees the request: the new stream's for a change the end can
  // take up, the current stream's for a quit that names it.
  predicate HandlerRuns<T>(reg: set<u32>, e: Endpoint<T>, m: Msg) {
    && m.param3 != 1
    && ((m.cmd == 1 && (e.state.Idle? || e.state.Active?) && m.param1 in reg)
        || (m.cmd == 2 && m.param1 == e.tag && e.tag > 0))
  }

  // A request is answered on the spot unless its handler puts it off, under its own command
  // and parameters, with the handler's code and bytes; if no handler sees it, with the code
  // that says why and without bytes. Nothing else is ever written on reading.
  lemma ReplyIsExact<T>(reg: set<u32>, e: Endpoint<T>, m: Msg, h: Handler<T>)
    ensures
      var (out, ran) := (OnRead(reg, e, m, h).1, HandlerRuns(reg, e, m));
      && (out == [] <==> m.param3 == 1 || (m.cmd != 1 && m.cmd != 2) || (ran && h.verdict == SKIP_AND_MANUAL))
      && (out != [] ==>
            && |out| == 1
            && out[0].cmd == m.cmd && out[0].param1 == m.param1 && out[0].param2 == m.param2 && out[0].param3 == 1
            && out[0].extra == (if ran then h.reply else [])
            && out[0].errcode == (if ran then h.verdict
                                  else if m.cmd == 1 then
                                    if e.state.Idle? || e.state.Active? then FAILED_NOT_FIND else INCORRECT_STATE
                                  else if m.param1 != e.tag then TAG_NOT_EQ
                                  else FAILED_NOT_FIND))
  {
  }

  // A change is asked for at once exactly if it can be made and its local handler neither
  // refuses it nor puts it off; the request carries the handler's bytes, or the caller's if
  // the handler has none and does not support local changes.
  lemma ChangeRequestIsExact<T>(reg: set<u32>, e: Endpoint<T>, tag: u32, params: seq<u8>, h: Handler<T>)
    ensures
      var out := ReqChangeTo(reg, e, tag, params, h).out;
      && (out != [] <==>
            && |params| <= EXTRA_PARAMS_MAX_SIZE && tag in reg && (e.state.Idle? || e.state.Active?)
            && (h.verdict == OK || h.verdict == NOT_SUPPORT))
      && (out != [] ==>
            && |out| == 1
            && out[0].cmd == 1 && out[0].param1 == tag && out[0].param2 == 0 && out[0].param3 == 0
            && out[0].errcode == OK
            && out[0].extra == if h.reply != [] then h.reply else if h.verdict == NOT_SUPPORT then params else [])
  {
  }

  lemma QuitRequestIsExact<T>(e: Endpoint<T>, tag: u32, params: seq<u8>)
    ensures
      var out := ReqQuit(e, tag, params).out;
      && (out != [] <==> |params| <= EXTRA_PARAMS_MAX_SIZE)
      && (out != [] ==>
            && |out| == 1
            && out[0].cmd == 2 && out[0].param1 == tag && out[0].param2 == 0 && out[0].param3 == 0
            && out[0].errcode == OK && out[0].extra == params)
  {
  }

  // The state an end is in once its current stream is gone, or its change is undone.
  function Resting<T>(paused: seq<Frame<T>>): State { if paused == [] then Idle else Active }

  // Reading a request: nothing changes while something is pending and a change is asked for;
  // an answer put off is owed; a quit under another tag leaves the end in none, whatever it
  // holds; a change that is answered leaves it active, one that nobody took up included.
  lemma RequestEndsIn<T>(reg: set<u32>, e: Endpoint<T>, m: Msg, h: Handler<T>)
    requires WellFormed(reg, e) && m.param3 != 1 && (m.cmd == 1 || m.cmd == 2)
    ensures
      var (state, ran) := (OnRead(reg, e, m, h).0.state, HandlerRuns(reg, e, m));
      state == if m.cmd == 1 then
                 if e.state.Pending() then e.state
                 else if ran && h.verdict == SKIP_AND_MANUAL then HalfActive
                 else Active
               else
                 if m.param1 != e.tag then Idle
                 else if ran && h.verdict == SKIP_AND_MANUAL then HalfQuit
                 else Resting(e.stack)
  {
  }

  // Reading an answer: a change granted and a quit refused leave the stream active; a change
  // refused and a quit granted take it away.
  lemma AnswerEndsIn<T>(reg: set<u32>, e: Endpoint<T>, m: Msg, h: Handler<T>)
    requires WellFormed(reg, e) && m.param3 == 1 && (m.cmd == 1 || m.cmd == 2)
    ensures
      var (done, out) := OnRead(reg, e, m, h);
      && out == []
      && done.faulted == (e.faulted || (if m.cmd == 1 then !e.state.ReqWaitAck? else !e.state.QuitWaitAck?))
      && (if m.cmd == 1 <==> m.errcode == OK then
            done.state == Active && done.tag == e.tag && done.stack == e.stack
          else
            && done.state == Resting(e.stack)
            && done.tag == (if e.stack == [] then 0 else e.stack[|e.stack| - 1].tag)
            && done.stack == if e.stack == [] then [] else e.stack[..|e.stack| - 1])
  {
  }

  // Asking for a change, and sending what was put off.
  lemma AskingEndsIn<T>(reg: set<u32>, e: Endpoint<T>, tag: u32, params: seq<u8>, h: Handler<T>)
    requires WellFormed(reg, e)
    ensures
      var s := ReqChangeTo(reg, e, tag, params, h);
      && (s.ok <==> && |params| <= EXTRA_PARAMS_MAX_SIZE && tag in reg && (e.state.Idle? || e.state.Active?)
                    && (h.verdict == OK || h.verdict == NOT_SUPPORT || h.verdict == SKIP_AND_MANUAL))
      && (s.ok ==> s.ep.state == if h.verdict == SKIP_AND_MANUAL then HalfReq else ReqWaitAck)
      && (!s.ok ==> s.ep.state == if |params| > EXTRA_PARAMS_MAX_SIZE || tag !in reg || e.state.Pending() then e.state
                                  else if e.tag == 0 then Idle
                                  else Active)
  {
  }

  lemma SendingEndsIn<T>(reg: set<u32>, e: Endpoint<T>, m: Msg)
    requires WellFormed(reg, e) && (m.cmd == 1 || m.cmd == 2)
    ensures
      var s := SendSvMsg(reg, e, m);
      && (s.ok <==> m.param1 == e.tag
                    && if m.cmd == 1 then e.state.HalfReq? || e.state.HalfActive? else e.state.HalfQuit?)
      && (!s.ok ==> s.out == [] && s.ep == e.(faulted := true))
      && (s.ok ==>
            && s.out == [m] && s.ep.faulted == e.faulted
            && (s.ep.state == if m.errcode != OK <==> e.state.HalfQuit? then
                                if e.state.HalfReq? then ReqWaitAck else Active
                              else Resting(e.stack)))
  {
  }

  // A quit request takes the current stream away exactly if it names it and the handler does
  // not put it off; whatever the handler says, it is then gone.
  lemma QuitTakesAwayIff<T>(reg: set<u32>, e: Endpoint<T>, m: Msg, h: Handler<T>)
    requires WellFormed(reg, e) && m.cmd == 2 && m.param3 != 1
    ensures SameStreams(e, OnRead(reg, e, m, h).0)
       <==> m.param1 != e.tag || e.tag == 0 || h.verdict == SKIP_AND_MANUAL
  {
  }

  // The owner writes a late answer itself exactly if the answer takes the current stream away,
  // whose own write the caller could not use any more.
  lemma OwnerWritesIffDropped<T>(reg: set<u32>, e: Endpoint<T>, m: Msg)
    requires WellFormed(reg, e) && SendAllowed(e, m) && (m.cmd == 1 || m.cmd == 2)
    ensures WrittenByOwner(e, m) <==> !SameStreams(e, OnSend(reg, e, m))
  {
  }

  /* ---------- over whole runs ---------- */

  // The world with the end in question first.
  function Seen(w: World<Endpoint<nat>>, byA: bool): World<Endpoint<nat>> { if byA then w else w.Flip() }

  // What end a reads, and the bytes its hold streams give in answer to a request.
  function ReadBy(w: World<Endpoint<nat>>, action: Action): seq<Msg> {
    if action.Deliver? && w.ba != [] then [w.ba[0]] else []
  }

  function GivenBy(w: World<Endpoint<nat>>, action: Action): seq<seq<u8>> {
    match action
    case Deliver(h) =>
      if w.ba == [] || w.ba[0].param3 == 1 then []
      else if !HandlerRuns(w.regA, w.a, w.ba[0]) then [[]]
      else if h.verdict == SKIP_AND_MANUAL then []
      else [h.reply]
    case Answer(m) => if OwesAnswer(w.a) then [m.extra] else []
    case _ => []
  }

  function AllRead(start: World<Endpoint<nat>>, evs: seq<Event>, byA: bool): seq<Msg> {
    if evs == [] then []
    else
      var init, last := evs[..|evs| - 1], evs[|evs| - 1];
      AllRead(start, init, byA)
      + if last.byA == byA then ReadBy(Seen(Run(start, init), byA), last.action) else []
  }

  function AllGiven(start: World<Endpoint<nat>>, evs: seq<Event>, byA: bool): seq<seq<u8>> {
    if evs == [] then []
    else
      var init, last := evs[..|evs| - 1], evs[|evs| - 1];
      AllGiven(start, init, byA)
      + if last.byA == byA then GivenBy(Seen(Run(start, init), byA), last.action) else []
  }

  function Extras(ms: seq<Msg>): (r: seq<seq<u8>>)
    ensures |r| == |ms| && forall i :: 0 <= i < |r| ==> r[i] == ms[i].extra
  {
    seq(|ms|, i requires 0 <= i < |ms| => ms[i].extra)
  }

  predicate OwesAnswer<T>(e: Endpoint<T>) { e.state.HalfActive? || e.state.HalfQuit? }

  // End a has read b's messages in order and whole, its answers carry what was given, and
  // what was given is one for each request read, but for one put off.
  predicate Delivered(w: World<Endpoint<nat>>, read: seq<Msg>, given: seq<seq<u8>>) {
    && w.sentB == read + w.ba
    && Extras(Select(w.sentA, true)) == given
    && |Select(read, false)| == |given| + if OwesAnswer(w.a) then 1 else 0
  }

  lemma SelectOne(m: Msg, acks: bool)
    ensures Select([m], acks) == if m.IsAck() == acks then [m] else []
  {
    assert [m][..0] == [];
  }

  lemma ExtrasAppend(ms: seq<Msg>, m: Msg)
    ensures Extras(ms + [m]) == Extras(ms) + [m.extra]
  {
  }

  // The messages written and read in one step of end a, with its books.
  lemma BooksKept(w: World<Endpoint<nat>>, read: seq<Msg>, given: seq<seq<u8>>, v: World<Endpoint<nat>>,
                  r: seq<Msg>, out: seq<Msg>, g: seq<seq<u8>>)
    requires Delivered(w, read, given)
    requires v.sentB == w.sentB && v.sentA == w.sentA + out && w.ba == r + v.ba && |r| <= 1 && |out| <= 1
    requires g == if out != [] && out[0].IsAck() then [out[0].extra] else []
    requires |Select(r, false)| + (if OwesAnswer(w.a) then 1 else 0)
          == |g| + if OwesAnswer(v.a) then 1 else 0
    ensures Delivered(v, read + r, given + g)
  {
    assert read + (r + v.ba) == (read + r) + v.ba;
    SelectAppend(w.sentA, out, true);
    SelectAppend(read, r, false);
    if r != [] { SelectOne(r[0], false); }
    if g != [] { ExtrasAppend(Select(w.sentA, true), out[0]); } else { assert given + g == given; }
  }

  // Reading leaves an answer owed exactly if a handler puts it off.
  lemma OwesAfterReading<T>(reg: set<u32>, e: Endpoint<T>, m: Msg, h: Handler<T>)
    requires WellFormed(reg, e) && !OwesAnswer(e)
    ensures OwesAnswer(OnRead(reg, e, m, h).0) <==> HandlerRuns(reg, e, m) && h.verdict == SKIP_AND_MANUAL
  {
  }

  lemma ReaderOwesNothing(w: World<Plain>)
    requires Core(w) && w.ba != []
    ensures !Owes(w.a) && (!w.ba[0].IsAck() ==> w.ba[0].cmd == 1 || w.ba[0].cmd == 2)
  {
    Taken(w.ba);
  }

  lemma GivenIsWritten(w: World<Endpoint<nat>>, h: Handler<nat>)
    requires w.ba != [] && (w.ba[0].param3 != 1 ==> w.ba[0].cmd == 1 || w.ba[0].cmd == 2)
    ensures var out := OnRead(w.regA, w.a, w.ba[0], h).1;
      |out| <= 1 && GivenBy(w, Deliver(h)) == if out != [] && out[0].IsAck() then [out[0].extra] else []
    ensures |GivenBy(w, Deliver(h))|
         == if w.ba[0].param3 == 1 || (HandlerRuns(w.regA, w.a, w.ba[0]) && h.verdict == SKIP_AND_MANUAL) then 0 else 1
  {
    ReplyIsExact(w.regA, w.a, w.ba[0], h);
  }

  lemma DeliverMoves(w: World<Endpoint<nat>>, h: Handler<nat>)
    requires w.ba != []
    ensures var v, read := Act(w, Deliver(h)), OnRead(w.regA, w.a, w.ba[0], h);
      && v.a == read.0 && v.sentA == w.sentA + read.1 && v.sentB == w.sentB
      && w.ba == [w.ba[0]] + v.ba && ReadBy(w, Deliver(h)) == [w.ba[0]]
  {
  }

  lemma DeliverKeepsBooks(w: World<Endpoint<nat>>, h: Handler<nat>, read: seq<Msg>, given: seq<seq<u8>>)
    requires WellFormed(w.regA, w.a) && !OwesAnswer(w.a) && Delivered(w, read, given)
    requires w.ba != [] && (w.ba[0].param3 != 1 ==> w.ba[0].cmd == 1 || w.ba[0].cmd == 2)
    ensures Delivered(Act(w, Deliver(h)), read + ReadBy(w, Deliver(h)), given + GivenBy(w, Deliver(h)))
  {
    var m := w.ba[0];
    var out, g, v := OnRead(w.regA, w.a, m, h).1, GivenBy(w, Deliver(h)), Act(w, Deliver(h));
    OwesAfterReading(w.regA, w.a, m, h);
    GivenIsWritten(w, h);
    DeliverMoves(w, h);
    SelectOne(m, false);
    assert HandlerRuns(w.regA, w.a, m) ==> m.param3 != 1;
    BooksKept(w, read, given, v, [m], out, g);
  }

  lemma AskChangeKeepsBooks(w: World<Endpoint<nat>>, action: Action, read: seq<Msg>, given: seq<seq<u8>>)
    requires action.AskChange? && WellFormed(w.regA, w.a) && Delivered(w, read, given)
    ensures Delivered(Act(w, action), read + [], given + [])
  {
    var s := ReqChangeTo(w.regA, w.a, action.tag, action.params, action.asker);
    ChangeRequestIsExact(w.regA, w.a, action.tag, action.params, action.asker);
    ChangeToRefines(w.regA, w.a, action.tag, action.params, action.asker);
    assert OwesAnswer(s.ep) <==> OwesAnswer(w.a);
    BooksKept(w, read, given, Act(w, action), [], s.out, []);
  }

  lemma AskQuitKeepsBooks(w: World<Endpoint<nat>>, action: Action, read: seq<Msg>, given: seq<seq<u8>>)
    requires action.AskQuit? && Allowed(AbsWorld(w), action) && Delivered(w, read, given)
    ensures Delivered(Act(w, action), read + [], given + [])
  {
    var s := ReqQuit(w.a, action.quitTag, action.params);
    QuitRequestIsExact(w.a, action.quitTag, action.params);
    assert OwesAnswer(s.ep) <==> OwesAnswer(w.a);
    BooksKept(w, read, given, Act(w, action), [], s.out, []);
  }

  lemma AnswerKeepsBooks(w: World<Endpoint<nat>>, m: Msg, read: seq<Msg>, given: seq<seq<u8>>)
    requires WellFormed(w.regA, w.a) && Allowed(AbsWorld(w), Answer(m)) && Delivered(w, read, given)
    ensures Delivered(Act(w, Answer(m)), read + [], given + GivenBy(w, Answer(m)))
  {
    var s := SendSvMsg(w.regA, w.a, m);
    AnswerLaterRefines(w.regA, w.a, m);
    assert s.out == [m] && !OwesAnswer(s.ep);
    BooksKept(w, read, given, Act(w, Answer(m)), [], s.out, GivenBy(w, Answer(m)));
  }

  lemma ActKeepsBooks(w: World<Endpoint<nat>>, action: Action, read: seq<Msg>, given: seq<seq<u8>>)
    requires Good(w) && Allowed(AbsWorld(w), action) && Delivered(w, read, given)
    ensures Delivered(Act(w, action), read + ReadBy(w, action), given + GivenBy(w, action))
  {
    match action
    case AskChange(_, _, _) => AskChangeKeepsBooks(w, action, read, given);
    case AskQuit(_, _) => AskQuitKeepsBooks(w, action, read, given);
    case Deliver(h) =>
      ReaderOwesNothing(AbsWorld(w));
      DeliverKeepsBooks(w, h, read, given);
    case Answer(m) => AnswerKeepsBooks(w, m, read, given);
  }

  // The other end's step.
  lemma OtherKeepsBooks(w: World<Endpoint<nat>>, action: Action, read: seq<Msg>, given: seq<seq<u8>>)
    requires Delivered(w, read, given)
    ensures Delivered(Act(w.Flip(), action).Flip(), read, given)
  {
    var v := Act(w.Flip(), action).Flip();
    var out := v.sentB[|w.sentB|..];
    assert v.sentB == w.sentB + out && v.ba == w.ba + out;
    assert read + (w.ba + out) == (read + w.ba) + out;
  }

  lemma {:induction false} BooksOfRun(regA: set<u32>, regB: set<u32>, evs: seq<Event>, byA: bool)
    requires 0 !in regA + regB && Legal(Start(regA, regB), evs)
    ensures var start := Start(regA, regB);
      Delivered(Seen(Run(start, evs), byA), AllRead(start, evs, byA), AllGiven(start, evs, byA))
  {
    var start := Start(regA, regB);
    if evs != [] {
      var init, last := evs[..|evs| - 1], evs[|evs| - 1];
      var w := Run(start, init);
      var read, given := AllRead(start, init, byA), AllGiven(start, init, byA);
      BooksOfRun(regA, regB, init, byA);
      RunsAreGood(regA, regB, init);
      if last.byA == byA {
        ActKeepsBooks(Seen(w, byA), last.action, read, given);
      } else {
        OtherKeepsBooks(Seen(w, byA), last.action, read, given);
        assert read + [] == read && given + [] == given;
      }
    }
  }

  lemma {:induction false} SelectOfConcat(s: seq<Msg>, t: seq<Msg>, acks: bool)
    ensures Select(s + t, acks) == Select(s, acks) + Select(t, acks)
    decreases |t|
  {
    if t == [] {
      assert s + t == s;
    } else {
      var init, last := t[..|t| - 1], t[|t| - 1];
      assert s + t == (s + init) + [last] && t == init + [last];
      SelectOfConcat(s, init, acks);
      SelectAppend(s + init, [last], acks);
    }
  }

  // For end a as the one that asks, and what b has read and given: the requests read are a's
  // own, whole and in order; the n-th answer names the n-th request's command and tag and
  // carries exactly the bytes given for it; and only an answer put off is outstanding among
  // the requests read.
  predicate Carried(v: World<Endpoint<nat>>, read: seq<Msg>, given: seq<seq<u8>>) {
    var requests, answers, seen := Select(v.sentA, false), Select(v.sentB, true), Select(read, false);
    && seen <= requests
    && |answers| == |given| && |seen| == |given| + (if OwesAnswer(v.b) then 1 else 0)
    && forall n :: 0 <= n < |answers| ==>
         answers[n].extra == given[n] && answers[n].cmd == seen[n].cmd && answers[n].param1 == seen[n].param1
  }

  lemma AnswersFromBooks(v: World<Endpoint<nat>>, read: seq<Msg>, given: seq<seq<u8>>)
    requires Delivered(v.Flip(), read, given) && Answers(Select(v.sentA, false), Select(v.sentB, true))
    ensures Carried(v, read, given)
  {
    SelectOfConcat(read, v.ab, false);
    var requests, answers, seen := Select(v.sentA, false), Select(v.sentB, true), Select(read, false);
    assert requests == seen + Select(v.ab, false);
    forall n | 0 <= n < |answers|
      ensures answers[n].extra == given[n] && answers[n].cmd == seen[n].cmd && answers[n].param1 == seen[n].param1
    {
      assert Extras(answers)[n] == answers[n].extra && requests[n] == seen[n];
    }
  }

  // In every run, for either end as the one that asks, the answers carry the replies.
  lemma AnswersCarryReplies(regA: set<u32>, regB: set<u32>, evs: seq<Event>, byA: bool)
    requires 0 !in regA + regB && Legal(Start(regA, regB), evs)
    ensures var start := Start(regA, regB);
      Carried(Seen(Run(start, evs), byA), AllRead(start, evs, !byA), AllGiven(start, evs, !byA))
  {
    var start := Start(regA, regB);
    var w := Run(start, evs);
    BooksOfRun(regA, regB, evs, !byA);
    RunsAreGood(regA, regB, evs);
    assert Seen(w, !byA) == Seen(w, byA).Flip();
    AnswersFromBooks(Seen(w, byA), AllRead(start, evs, !byA), AllGiven(start, evs, !byA));
  }
}
