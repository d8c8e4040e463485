/** Two protocol ends, each with its own registry of tags, joined by two reliable FIFO
    message channels.

    Either end may ask for a change at almost any time, so change requests can cross; the
    answers of the hold streams are arbitrary, and may come at once or later. `Allowed`
    lists what the hold streams must respect; Discipline shows that it asks no more than
    it has to. */
module TwoEnds {
  import opened Bytes
  import opened VariantMsg
  import opened Endpoint
  import opened PlainStack

  // The two ends, the messages in flight, all messages each end ever sent, and the tags
  // registered at each end.
  datatype World<E> = World(
    a: E, b: E, ab: seq<Msg>, ba: seq<Msg>, sentA: seq<Msg>, sentB: seq<Msg>, regA: set<u32>, regB: set<u32>)
  {
    function Flip(): World<E> { World(b, a, ba, ab, sentB, sentA, regB, regA) }

    // End a moves to `next` and writes `out`.
    function Moved(next: E, out: seq<Msg>): World<E> {
      this.(a := next, ab := ab + out, sentA := sentA + out)
    }
  }

  // What one end does: its program asks for a change or its current stream for a quit, it
  // reads the next message, or a hold stream gives an answer it has put off.
  datatype Action =
    | AskChange(tag: u32, params: seq<u8>, asker: Handler<nat>)
    | AskQuit(quitTag: u32, params: seq<u8>)
    | Deliver(h: Handler<nat>)
    | Answer(m: Msg)

  datatype Event = Event(byA: bool, action: Action)

  /* ---------- the run on endpoints, and on plain stacks ---------- */

  function Act(w: World<Endpoint<nat>>, action: Action): World<Endpoint<nat>> {
    match action
    case AskChange(tag, params, h) => var s := ReqChangeTo(w.regA, w.a, tag, params, h); w.Moved(s.ep, s.out)
    case AskQuit(tag, params) => var s := ReqQuit(w.a, tag, params); w.Moved(s.ep, s.out)
    case Deliver(h) =>
      if w.ba == [] then w
      else var (next, out) := OnRead(w.regA, w.a, w.ba[0], h); w.(ba := w.ba[1..]).Moved(next, out)
    case Answer(m) => var s := SendSvMsg(w.regA, w.a, m); w.Moved(s.ep, s.out)
  }

  function PlainAct(w: World<Plain>, action: Action): World<Plain> {
    match action
    case AskChange(tag, params, h) =>
      var s := ChangeTo(w.regA, w.a, tag, params, h.verdict, h.reply); w.Moved(s.p, s.out)
    case AskQuit(tag, params) => var s := Quit(w.a, tag, params); w.Moved(s.p, s.out)
    case Deliver(h) =>
      if w.ba == [] then w
      else var (next, out) := Receive(w.regA, w.a, w.ba[0], h.verdict, h.reply); w.(ba := w.ba[1..]).Moved(next, out)
    case Answer(m) => var s := AnswerLater(w.a, m); w.Moved(s.p, s.out)
  }

  function Step(w: World<Endpoint<nat>>, ev: Event): World<Endpoint<nat>> {
    if ev.byA then Act(w, ev.action) else Act(w.Flip(), ev.action).Flip()
  }

  function PlainStep(w: World<Plain>, ev: Event): World<Plain> {
    if ev.byA then PlainAct(w, ev.action) else PlainAct(w.Flip(), ev.action).Flip()
  }

  function AbsWorld(w: World<Endpoint<nat>>): World<Plain> {
    World(Abs(w.a), Abs(w.b), w.ab, w.ba, w.sentA, w.sentB, w.regA, w.regB)
  }

  function Start(regA: set<u32>, regB: set<u32>): World<Endpoint<nat>> {
    World(Fresh(), Fresh(), [], [], [], [], regA, regB)
  }

  /* ---------- what the hold streams must respect ---------- */

  predicate IsQuitRequest(m: Msg) { m.cmd == REQ_QUIT_HOLD_STREAM && !m.IsAck() }

  predicate HasReq(ch: seq<Msg>) {
    (|ch| > 0 && !ch[0].IsAck()) || (|ch| > 1 && !ch[1].IsAck())
  }

  predicate HasAck(ch: seq<Msg>) {
    (|ch| > 0 && ch[0].IsAck()) || (|ch| > 1 && ch[1].IsAck())
  }

  function ReqIn(ch: seq<Msg>): Msg
    requires HasReq(ch)
  {
    if !ch[0].IsAck() then ch[0] else ch[1]
  }

  function AckIn(ch: seq<Msg>): Msg
    requires HasAck(ch)
  {
    if ch[0].IsAck() then ch[0] else ch[1]
  }

  // End x has a request that the other end has not answered; `inn` leads to x.
  predicate Unanswered(x: Plain, inn: seq<Msg>) {
    x.state.HalfReq? || (x.state.Waiting() && !HasAck(inn))
  }

  // A change that takes a new stream up does not start under an unanswered quit of the peer.
  // The peer knows its tag; or nothing is held, so that a refusal finds nothing to strand;
  // or the request goes out at once and meets the peer waiting for an answer of its own.
  predicate MayAskChange(w: World<Plain>, tag: u32, putOff: bool) {
    && !(w.b.state.QuitWaitAck? && Unanswered(w.b, w.ab))
    && (tag in w.regB || w.a.view == [] || (!putOff && Unanswered(w.b, w.ab)))
  }

  // A quit names its stream's own tag and comes from a stream at rest, with no unanswered
  // request of the peer. A quit request is granted or put off, never refused on the spot.
  // Answers put off name the current tag and the command they answer; a put-off request is
  // not called off.
  predicate Allowed(w: World<Plain>, action: Action) {
    match action
    case AskChange(tag, params, h) =>
      ChangeTo(w.regA, w.a, tag, params, h.verdict, h.reply).ok ==> MayAskChange(w, tag, h.verdict == SKIP_AND_MANUAL)
    case AskQuit(tag, params) =>
      && w.a.view != []
      && (|params| <= EXTRA_PARAMS_MAX_SIZE ==>
            w.a.state.AtRest() && tag == w.a.Top() && !Unanswered(w.b, w.ab))
    case Deliver(h) =>
      && w.ba != []
      && (IsQuitRequest(w.ba[0]) ==> PeerAccepts(h.verdict))
    case Answer(m) =>
      && m.param1 == w.a.Top()
      && match w.a.state
         case HalfActive => m.cmd == REQ_USE_STREAM_TAG && m.IsAck()
         case HalfQuit => m.cmd == REQ_QUIT_HOLD_STREAM && m.IsAck()
         case HalfReq => m.cmd == REQ_USE_STREAM_TAG && !m.IsAck() && m.errcode == OK
         case _ => false
  }

  predicate EventAllowed(w: World<Plain>, ev: Event) {
    Allowed(if ev.byA then w else w.Flip(), ev.action)
  }

  /* ---------- the invariant ---------- */

  // An end that put off an answer.
  predicate Owes(y: Plain) { y.state.HalfActive? || y.state.HalfQuit? }

  // The message is about x's own request.
  predicate Fits(x: Plain, m: Msg) {
    m.param1 == x.Top() && m.cmd == if x.state.ReqWaitAck? then REQ_USE_STREAM_TAG else REQ_QUIT_HOLD_STREAM
  }

  // At most one request and one answer each way; an answer behind a request is a refusal
  // given while that change request was out.
  predicate Shape(ch: seq<Msg>) {
    && |ch| <= 2
    && (|ch| == 2 ==> ch[0].IsAck() != ch[1].IsAck())
    && (|ch| == 2 && !ch[0].IsAck() ==> ch[0].cmd == REQ_USE_STREAM_TAG && ch[1].errcode != OK)
  }

  // The change x asks for does no harm even if it is refused.
  predicate Welcome(regY: set<u32>, x: Plain) { x.Top() in regY || |x.view| == 1 }

  // End y will still have a change of its own open when it reads the request in `ch`.
  predicate Busy(y: Plain, ch: seq<Msg>) {
    y.state.HalfReq? || (y.state.ReqWaitAck? && (ch != [] ==> !ch[0].IsAck()))
  }

  // The request of end x is in exactly one place: in the channel `out`, put off at y, or
  // answered in the channel `inn`. An unanswered quit has the line to itself.
  predicate SideInv(regY: set<u32>, x: Plain, y: Plain, out: seq<Msg>, inn: seq<Msg>) {
    && !x.faulted
    && (x.state.Pending() ==> x.view != [])
    && (x.state.Idle? ==> x.view == [])
    && (x.state.HalfReq? ==> Welcome(regY, x))
    && Shape(out)
    && (HasReq(out) ==> x.state.Waiting() && !HasAck(inn) && !Owes(y) && Fits(x, ReqIn(out)))
    && (HasReq(out) && x.state.ReqWaitAck? ==> Welcome(regY, x) || Busy(y, out))
    && (HasAck(inn) ==> x.state.Waiting() && !Owes(y) && Fits(x, AckIn(inn)))
    && (Owes(y) ==> x.state.Waiting() && x.Top() == y.Top() && (y.state.HalfActive? <==> x.state.ReqWaitAck?))
    && (x.state.Waiting() ==> HasReq(out) || HasAck(inn) || Owes(y))
    && (x.state.QuitWaitAck? && !HasAck(inn) ==> !y.state.HalfReq? && !y.state.HalfActive? && !HasReq(inn))
  }

  function Init(view: seq<u32>): seq<u32> { if view == [] then [] else view[..|view| - 1] }

  // The tags end x will hold once the answer on its way to it, if any, has arrived; a
  // change not yet answered does not count.
  function Settled(x: Plain, inn: seq<Msg>): seq<u32> {
    if HasAck(inn) && AckIn(inn).errcode == OK then if x.state.QuitWaitAck? then Init(x.view) else x.view
    else if x.state.ReqWaitAck? || x.state.HalfReq? || x.state.HalfActive? then Init(x.view)
    else x.view
  }

  // The requests, or the answers, among the messages an end sent.
  function Select(sent: seq<Msg>, acks: bool): seq<Msg> {
    if sent == [] then []
    else
      var last := sent[|sent| - 1];
      Select(sent[..|sent| - 1], acks) + if last.IsAck() == acks then [last] else []
  }

  predicate Answers(reqs: seq<Msg>, acks: seq<Msg>) {
    |acks| <= |reqs| && forall i :: 0 <= i < |acks| ==> acks[i].cmd == reqs[i].cmd && acks[i].param1 == reqs[i].param1
  }

  // Every request of x but an open one has its own answer of the same command and tag, in order.
  predicate Ledger(x: Plain, inn: seq<Msg>, sentX: seq<Msg>, sentY: seq<Msg>) {
    var reqs, acks := Select(sentX, false), Select(sentY, true);
    && Answers(reqs, acks)
    && |reqs| == |acks| + (if x.state.Waiting() && !HasAck(inn) then 1 else 0)
    && (x.state.Waiting() && !HasAck(inn) ==> Fits(x, reqs[|reqs| - 1]))
  }

  predicate Joint(regX: set<u32>, regY: set<u32>, x: Plain, y: Plain, out: seq<Msg>, inn: seq<Msg>) {
    && SideInv(regY, x, y, out, inn)
    && SideInv(regX, y, x, inn, out)
    && Settled(x, inn) == Settled(y, out)
  }

  predicate Core(w: World<Plain>) { Joint(w.regA, w.regB, w.a, w.b, w.ab, w.ba) }

  predicate Inv(w: World<Plain>) {
    && Core(w)
    && Ledger(w.a, w.ba, w.sentA, w.sentB)
    && Ledger(w.b, w.ab, w.sentB, w.sentA)
  }

  lemma SelectAppend(sent: seq<Msg>, out: seq<Msg>, acks: bool)
    requires |out| <= 1
    ensures out == [] ==> Select(sent + out, acks) == Select(sent, acks)
    ensures out != [] && out[0].IsAck() == acks ==> Select(sent + out, acks) == Select(sent, acks) + [out[0]]
    ensures out != [] && out[0].IsAck() != acks ==> Select(sent + out, acks) == Select(sent, acks)
  {
    if out == [] {
      assert sent + out == sent;
    } else {
      assert (sent + out)[..|sent|] == sent;
    }
  }

  // Nothing written: the channel is unchanged.
  lemma NothingSent(ch: seq<Msg>)
    ensures ch + [] == ch
  {
  }

  // A message written behind at most one message of the other kind.
  lemma Written(ch: seq<Msg>, m: Msg)
    requires |ch| <= 1 && (|ch| == 1 ==> ch[0].IsAck() != m.IsAck())
    ensures ch + [m] == if ch == [] then [m] else [ch[0], m]
    ensures HasReq(ch + [m]) == (HasReq(ch) || !m.IsAck()) && HasAck(ch + [m]) == (HasAck(ch) || m.IsAck())
    ensures !m.IsAck() ==> ReqIn(ch + [m]) == m
    ensures m.IsAck() ==> AckIn(ch + [m]) == m
    ensures HasReq(ch) ==> ReqIn(ch + [m]) == ReqIn(ch)
    ensures HasAck(ch) ==> AckIn(ch + [m]) == AckIn(ch)
  {
  }

  // The front message read from a well-shaped channel.
  lemma Taken(ch: seq<Msg>)
    requires Shape(ch) && ch != []
    ensures Shape(ch[1..]) && |ch[1..]| <= 1
    ensures ch[0].IsAck() ==> !HasAck(ch[1..]) && HasReq(ch[1..]) == HasReq(ch) && AckIn(ch) == ch[0]
    ensures !ch[0].IsAck() ==> !HasReq(ch[1..]) && HasAck(ch[1..]) == HasAck(ch) && ReqIn(ch) == ch[0]
    ensures HasReq(ch[1..]) ==> ReqIn(ch[1..]) == ReqIn(ch)
    ensures HasAck(ch[1..]) ==> AckIn(ch[1..]) == AckIn(ch)
  {
  }

  // End x, at rest, takes up a new stream for a change it will ask for later, or now.
  lemma PreparesChange(regX: set<u32>, regY: set<u32>, x: Plain, y: Plain, out: seq<Msg>, inn: seq<Msg>, t: u32)
    requires Joint(regX, regY, x, y, out, inn) && x.state.AtRest() && (t in regY || x.view == [])
    requires !(y.state.QuitWaitAck? && Unanswered(y, out))
    ensures Joint(regX, regY, x.Push(t, HalfReq), y, out, inn)
  {
    assert Init(x.view + [t]) == x.view;
  }

  lemma SendsChange(regX: set<u32>, regY: set<u32>, x: Plain, y: Plain, out: seq<Msg>, inn: seq<Msg>, m: Msg)
    requires Joint(regX, regY, x, y, out, inn) && x.state.HalfReq?
    requires !m.IsAck() && m.cmd == REQ_USE_STREAM_TAG && m.param1 == x.Top()
    ensures Joint(regX, regY, x.(state := ReqWaitAck), y, out + [m], inn)
  {
    assert !HasReq(out) && !HasAck(inn) && !Owes(y);
    Written(out, m);
  }

  // The same in one go, which also does no harm while the peer waits for an answer.
  lemma AsksAtOnce(regX: set<u32>, regY: set<u32>, x: Plain, y: Plain, out: seq<Msg>, inn: seq<Msg>, m: Msg)
    requires Joint(regX, regY, x, y, out, inn) && x.state.AtRest()
    requires !(y.state.QuitWaitAck? && Unanswered(y, out))
    requires m.param1 in regY || x.view == [] || Unanswered(y, out)
    requires !m.IsAck() && m.cmd == REQ_USE_STREAM_TAG
    ensures Joint(regX, regY, x.Push(m.param1, ReqWaitAck), y, out + [m], inn)
  {
    assert Init(x.view + [m.param1]) == x.view;
    assert !HasReq(out) && !HasAck(inn) && !Owes(y);
    Written(out, m);
  }

  lemma AskChangeKeepsCore(w: World<Plain>, action: Action)
    requires Core(w) && action.AskChange? && Allowed(w, action)
    ensures Core(PlainAct(w, action))
  {
    var s := ChangeTo(w.regA, w.a, action.tag, action.params, action.asker.verdict, action.asker.reply);
    NothingSent(w.ab);
    if s.ok {
      if s.out == [] {
        PreparesChange(w.regA, w.regB, w.a, w.b, w.ab, w.ba, action.tag);
      } else {
        AsksAtOnce(w.regA, w.regB, w.a, w.b, w.ab, w.ba, s.out[0]);
      }
    }
  }

  lemma AskQuitKeepsCore(w: World<Plain>, action: Action)
    requires Core(w) && action.AskQuit? && Allowed(w, action)
    ensures Core(PlainAct(w, action))
  {
    NothingSent(w.ab);
    if |action.params| <= EXTRA_PARAMS_MAX_SIZE {
      assert w.ba == [] && !Owes(w.b) && !w.b.state.HalfReq?;
      assert w.ab == [] || w.ab == [AckIn(w.ab)];
    }
  }

  lemma SameView(p: Plain, q: Plain)
    requires p.view != [] && q.view != []
    requires Init(p.view) == Init(q.view) && p.Top() == q.Top()
    ensures p.view == q.view
  {
    assert p.view == Init(p.view) + [p.Top()] && q.view == Init(q.view) + [q.Top()];
  }

  // A put-off answer to the peer's change goes out.
  lemma GrantsChange(regX: set<u32>, regY: set<u32>, x: Plain, y: Plain, out: seq<Msg>, inn: seq<Msg>, m: Msg)
    requires Joint(regX, regY, x, y, out, inn) && x.state.HalfActive?
    requires m.IsAck() && m.cmd == REQ_USE_STREAM_TAG && m.param1 == x.Top() && m.errcode == OK
    ensures Joint(regX, regY, x.(state := Active), y, out + [m], inn)
  {
    assert out == [] && inn == [] && !Owes(y) && y.state.ReqWaitAck?;
    Written(out, m);
    SameView(x, y);
  }

  lemma RefusesChange(regX: set<u32>, regY: set<u32>, x: Plain, y: Plain, out: seq<Msg>, inn: seq<Msg>, m: Msg)
    requires Joint(regX, regY, x, y, out, inn) && x.state.HalfActive?
    requires m.IsAck() && m.cmd == REQ_USE_STREAM_TAG && m.param1 == x.Top() && m.errcode != OK
    ensures Joint(regX, regY, x.Drop(), y, out + [m], inn)
  {
    assert out == [] && inn == [] && !Owes(y) && y.state.ReqWaitAck?;
    Written(out, m);
    assert x.Drop().view == Init(x.view);
  }

  // A put-off answer to the peer's quit goes out.
  lemma AnswersQuit(regX: set<u32>, regY: set<u32>, x: Plain, y: Plain, out: seq<Msg>, inn: seq<Msg>, m: Msg)
    requires Joint(regX, regY, x, y, out, inn) && x.state.HalfQuit?
    requires m.IsAck() && m.cmd == REQ_QUIT_HOLD_STREAM && m.param1 == x.Top()
    ensures m.errcode == OK ==> Joint(regX, regY, x.Drop(), y, out + [m], inn)
    ensures m.errcode != OK ==> Joint(regX, regY, x.(state := Active), y, out + [m], inn)
  {
    assert !HasReq(out) && !HasAck(out) && !HasReq(inn) && !HasAck(inn) && !Owes(y) && y.state.QuitWaitAck?;
    Written(out, m);
  }

  lemma AnswerKeepsCore(w: World<Plain>, action: Action)
    requires Core(w) && action.Answer? && Allowed(w, action)
    ensures Core(PlainAct(w, action))
  {
    match w.a.state
    case HalfActive =>
      if action.m.errcode == OK { GrantsChange(w.regA, w.regB, w.a, w.b, w.ab, w.ba, action.m); }
      else { RefusesChange(w.regA, w.regB, w.a, w.b, w.ab, w.ba, action.m); }
    case HalfQuit => AnswersQuit(w.regA, w.regB, w.a, w.b, w.ab, w.ba, action.m);
    case HalfReq => SendsChange(w.regA, w.regB, w.a, w.b, w.ab, w.ba, action.m);
  }

  // The answer to an own change request arrives.
  lemma ReadsChangeAck(regX: set<u32>, regY: set<u32>, x: Plain, y: Plain, out: seq<Msg>, inn: seq<Msg>)
    requires Joint(regX, regY, x, y, out, inn) && inn != [] && inn[0].IsAck() && inn[0].cmd == REQ_USE_STREAM_TAG
    ensures x.state.ReqWaitAck?
    ensures inn[0].errcode == OK ==> Joint(regX, regY, x.(state := Active), y, out, inn[1..])
    ensures inn[0].errcode != OK ==> Joint(regX, regY, x.Drop(), y, out, inn[1..])
  {
    Taken(inn);
    assert x.state.ReqWaitAck? && !HasReq(out) && !Owes(y);
  }

  lemma DeliverChangeAckKeepsCore(w: World<Plain>, h: Handler<nat>)
    requires Core(w) && w.ba != []
    requires w.ba[0].IsAck() && w.ba[0].cmd == REQ_USE_STREAM_TAG
    ensures Core(PlainAct(w, Deliver(h)))
  {
    NothingSent(w.ab);
    ReadsChangeAck(w.regA, w.regB, w.a, w.b, w.ab, w.ba);
  }

  // The answer to an own quit request arrives.
  lemma ReadsQuitAck(regX: set<u32>, regY: set<u32>, x: Plain, y: Plain, out: seq<Msg>, inn: seq<Msg>)
    requires Joint(regX, regY, x, y, out, inn) && inn != [] && inn[0].IsAck() && inn[0].cmd == REQ_QUIT_HOLD_STREAM
    ensures x.state.QuitWaitAck?
    ensures inn[0].errcode != OK ==> Joint(regX, regY, x.(state := Active), y, out, inn[1..])
    ensures inn[0].errcode == OK ==> Joint(regX, regY, x.Drop(), y, out, inn[1..])
  {
    Taken(inn);
    assert x.state.QuitWaitAck? && !HasReq(out) && !Owes(y);
  }

  lemma DeliverQuitAckKeepsCore(w: World<Plain>, h: Handler<nat>)
    requires Core(w) && w.ba != []
    requires w.ba[0].IsAck() && w.ba[0].cmd == REQ_QUIT_HOLD_STREAM
    ensures Core(PlainAct(w, Deliver(h)))
  {
    NothingSent(w.ab);
    ReadsQuitAck(w.regA, w.regB, w.a, w.b, w.ab, w.ba);
  }

  // A change request of the peer arrives while something is pending.
  lemma TurnsChangeDown(regX: set<u32>, regY: set<u32>, x: Plain, y: Plain, out: seq<Msg>, inn: seq<Msg>)
    requires Joint(regX, regY, x, y, out, inn) && x.state.Pending()
    requires inn != [] && !inn[0].IsAck() && inn[0].cmd == REQ_USE_STREAM_TAG
    ensures Joint(regX, regY, x, y, out + [inn[0].Answer(INCORRECT_STATE, [])], inn[1..])
  {
    Taken(inn);
    assert y.state.ReqWaitAck? && !HasAck(out) && |out| <= 1;
    Written(out, inn[0].Answer(INCORRECT_STATE, []));
  }

  // It arrives at rest.
  lemma MeetsChangeAtRest(regX: set<u32>, regY: set<u32>, x: Plain, y: Plain, out: seq<Msg>, inn: seq<Msg>,
                          verdict: u8, reply: seq<u8>)
    requires Joint(regX, regY, x, y, out, inn) && x.state.AtRest()
    requires inn != [] && !inn[0].IsAck() && inn[0].cmd == REQ_USE_STREAM_TAG
    ensures var (next, sent) := Receive(regX, x, inn[0], verdict, reply);
      Joint(regX, regY, next, y, out + sent, inn[1..])
  {
    Taken(inn);
    NothingSent(out);
    assert out == [] && inn == [inn[0]] && y.state.ReqWaitAck? && x.view == Init(y.view);
    assert inn[0].param1 in regX || x.view == [];
    assert x.view + [inn[0].param1] == y.view;
  }

  lemma DeliverChangeReqKeepsCore(w: World<Plain>, h: Handler<nat>)
    requires Core(w) && w.ba != []
    requires !w.ba[0].IsAck() && w.ba[0].cmd == REQ_USE_STREAM_TAG
    ensures Core(PlainAct(w, Deliver(h)))
  {
    if w.a.state.AtRest() {
      MeetsChangeAtRest(w.regA, w.regB, w.a, w.b, w.ab, w.ba, h.verdict, h.reply);
    } else {
      TurnsChangeDown(w.regA, w.regB, w.a, w.b, w.ab, w.ba);
    }
  }

  lemma DeliverQuitReqKeepsCore(w: World<Plain>, h: Handler<nat>)
    requires Core(w) && w.ba != []
    requires !w.ba[0].IsAck() && w.ba[0].cmd == REQ_QUIT_HOLD_STREAM && PeerAccepts(h.verdict)
    ensures Core(PlainAct(w, Deliver(h)))
  {
  }

  lemma DeliverKeepsCore(w: World<Plain>, h: Handler<nat>)
    requires Core(w) && Allowed(w, Deliver(h))
    ensures Core(PlainAct(w, Deliver(h)))
  {
    Taken(w.ba);
    if w.ba[0].IsAck() {
      if w.ba[0].cmd == REQ_USE_STREAM_TAG { DeliverChangeAckKeepsCore(w, h); }
      else { DeliverQuitAckKeepsCore(w, h); }
    } else {
      if w.ba[0].cmd == REQ_USE_STREAM_TAG { DeliverChangeReqKeepsCore(w, h); }
      else { DeliverQuitReqKeepsCore(w, h); }
    }
  }

  lemma ActKeepsCore(w: World<Plain>, action: Action)
    requires Core(w) && Allowed(w, action)
    ensures Core(PlainAct(w, action))
  {
    match action
    case AskChange(_, _, _) => AskChangeKeepsCore(w, action);
    case AskQuit(_, _) => AskQuitKeepsCore(w, action);
    case Deliver(h) => DeliverKeepsCore(w, h);
    case Answer(_) => AnswerKeepsCore(w, action);
  }

  /* ---------- the ledger of requests and answers ---------- */

  // x's own ledger, when x writes `out` and its state or the channel to it changes.
  lemma LedgerOfWriter(x: Plain, inn: seq<Msg>, sentX: seq<Msg>, sentY: seq<Msg>,
                       x': Plain, inn': seq<Msg>, out: seq<Msg>)
    requires Ledger(x, inn, sentX, sentY) && |out| <= 1
    requires (out == [] || out[0].IsAck()) ==>
               (x'.state.Waiting() && !HasAck(inn') <==> x.state.Waiting() && !HasAck(inn))
               && (x'.state.Waiting() && !HasAck(inn') ==> x'.state == x.state && x'.Top() == x.Top())
    requires out != [] && !out[0].IsAck() ==>
               !(x.state.Waiting() && !HasAck(inn)) && x'.state.Waiting() && !HasAck(inn') && Fits(x', out[0])
    ensures Ledger(x', inn', sentX + out, sentY)
  {
    SelectAppend(sentX, out, false);
  }

  // The ledger of y, when x writes `out`, which holds the answer to y's request or no answer.
  lemma LedgerOfReader(y: Plain, ch: seq<Msg>, sentY: seq<Msg>, sentX: seq<Msg>, out: seq<Msg>)
    requires Ledger(y, ch, sentY, sentX) && |out| <= 1
    requires out == [] || !out[0].IsAck() ==> HasAck(ch + out) == HasAck(ch)
    requires out != [] && out[0].IsAck() ==>
               y.state.Waiting() && !HasAck(ch) && HasAck(ch + out) && Fits(y, out[0])
    ensures Ledger(y, ch + out, sentY, sentX + out)
  {
    SelectAppend(sentX, out, true);
  }

  // End a moves on its own, with nothing to do with an own request on the wire.
  lemma MoveKeepsLedgers(w: World<Plain>, next: Plain, out: seq<Msg>)
    requires Inv(w) && |out| <= 1 && !w.a.state.Waiting()
    requires !next.state.Waiting() <==> out == [] || out[0].IsAck()
    requires out != [] && !out[0].IsAck() ==> Fits(next, out[0])
    requires out != [] && out[0].IsAck() ==>
               w.b.state.Waiting() && !HasAck(w.ab) && Fits(w.b, out[0])
    ensures Ledger(next, w.ba, w.sentA + out, w.sentB)
    ensures Ledger(w.b, w.ab + out, w.sentB, w.sentA + out)
  {
    NothingSent(w.ab);
    assert !HasReq(w.ab) && !HasAck(w.ba);
    if out != [] {
      Written(w.ab, out[0]);
    }
    LedgerOfWriter(w.a, w.ba, w.sentA, w.sentB, next, w.ba, out);
    LedgerOfReader(w.b, w.ab, w.sentB, w.sentA, out);
  }

  lemma AskChangeKeepsLedgers(w: World<Plain>, action: Action)
    requires Inv(w) && action.AskChange? && Allowed(w, action)
    ensures Inv(PlainAct(w, action))
  {
    ActKeepsCore(w, action);
    var s := ChangeTo(w.regA, w.a, action.tag, action.params, action.asker.verdict, action.asker.reply);
    if w.a.state.Waiting() {
      NothingSent(w.ab);
      NothingSent(w.sentA);
    } else {
      MoveKeepsLedgers(w, s.p, s.out);
    }
  }

  lemma AskQuitKeepsLedgers(w: World<Plain>, action: Action)
    requires Inv(w) && action.AskQuit? && Allowed(w, action)
    ensures Inv(PlainAct(w, action))
  {
    ActKeepsCore(w, action);
    var s := Quit(w.a, action.quitTag, action.params);
    if s.ok {
      MoveKeepsLedgers(w, s.p, s.out);
    } else {
      NothingSent(w.ab);
      NothingSent(w.sentA);
    }
  }

  lemma AnswerKeepsLedgers(w: World<Plain>, action: Action)
    requires Inv(w) && action.Answer? && Allowed(w, action)
    ensures Inv(PlainAct(w, action))
  {
    ActKeepsCore(w, action);
    assert Owes(w.a) ==> w.b.state.Waiting() && !HasAck(w.ab) && Fits(w.b, action.m);
    MoveKeepsLedgers(w, AnswerLater(w.a, action.m).p, [action.m]);
  }

  lemma DeliverAckKeepsLedgers(w: World<Plain>, h: Handler<nat>)
    requires Inv(w) && Allowed(w, Deliver(h)) && w.ba[0].IsAck()
    ensures Inv(PlainAct(w, Deliver(h)))
  {
    DeliverKeepsCore(w, h);
    Taken(w.ba);
    NothingSent(w.ab);
    NothingSent(w.sentA);
    assert HasAck(w.ba) && w.a.state.Waiting();
    assert !Receive(w.regA, w.a, w.ba[0], h.verdict, h.reply).0.state.Waiting();
  }

  lemma DeliverReqKeepsLedgers(w: World<Plain>, h: Handler<nat>)
    requires Inv(w) && Allowed(w, Deliver(h)) && !w.ba[0].IsAck()
    ensures Inv(PlainAct(w, Deliver(h)))
  {
    DeliverKeepsCore(w, h);
    Taken(w.ba);
    NothingSent(w.ab);
    var m := w.ba[0];
    var (next, out) := Receive(w.regA, w.a, m, h.verdict, h.reply);
    assert w.b.state.Waiting() && !HasAck(w.ab) && Fits(w.b, m) && |w.ab| <= 1;
    if out != [] {
      Written(w.ab, out[0]);
    }
    LedgerOfWriter(w.a, w.ba, w.sentA, w.sentB, next, w.ba[1..], out);
    LedgerOfReader(w.b, w.ab, w.sentB, w.sentA, out);
  }

  /* ---------- whole runs ---------- */

  lemma StepKeepsInv(w: World<Plain>, ev: Event)
    requires Inv(w) && EventAllowed(w, ev)
    ensures Inv(PlainStep(w, ev))
  {
    var v := if ev.byA then w else w.Flip();
    match ev.action
    case AskChange(_, _, _) => AskChangeKeepsLedgers(v, ev.action);
    case AskQuit(_, _) => AskQuitKeepsLedgers(v, ev.action);
    case Deliver(h) => if v.ba[0].IsAck() { DeliverAckKeepsLedgers(v, h); } else { DeliverReqKeepsLedgers(v, h); }
    case Answer(_) => AnswerKeepsLedgers(v, ev.action);
  }

  // The endpoints step as the plain stacks do, whether the step is allowed or not.
  lemma ActRefines(w: World<Endpoint<nat>>, action: Action)
    requires WellFormed(w.regA, w.a) && (action.AskQuit? ==> w.a.tag != 0)
    ensures AbsWorld(Act(w, action)) == PlainAct(AbsWorld(w), action)
    ensures !Stranded(Act(w, action).a) ==> WellFormed(w.regA, Act(w, action).a)
    ensures Act(w, action).b == w.b
  {
    match action
    case AskChange(tag, params, h) => ChangeToRefines(w.regA, w.a, tag, params, h);
    case AskQuit(tag, params) => QuitRefines(w.regA, w.a, tag, params);
    case Deliver(h) => if w.ba != [] { ReceiveRefines(w.regA, w.a, w.ba[0], h); }
    case Answer(m) => AnswerLaterRefines(w.regA, w.a, m);
  }

  function Run(w: World<Endpoint<nat>>, evs: seq<Event>): World<Endpoint<nat>> {
    if evs == [] then w else Step(Run(w, evs[..|evs| - 1]), evs[|evs| - 1])
  }

  predicate Legal(w: World<Endpoint<nat>>, evs: seq<Event>) {
    evs == [] ||
    (Legal(w, evs[..|evs| - 1]) && EventAllowed(AbsWorld(Run(w, evs[..|evs| - 1])), evs[|evs| - 1]))
  }

  ghost predicate Good(w: World<Endpoint<nat>>) {
    WellFormed(w.regA, w.a) && WellFormed(w.regB, w.b) && Inv(AbsWorld(w))
  }

  lemma StepKeepsGood(w: World<Endpoint<nat>>, ev: Event)
    requires Good(w) && EventAllowed(AbsWorld(w), ev)
    ensures Good(Step(w, ev)) && AbsWorld(Step(w, ev)) == PlainStep(AbsWorld(w), ev)
  {
    StepKeepsInv(AbsWorld(w), ev);
    ActRefines(if ev.byA then w else w.Flip(), ev.action);
  }

  lemma {:induction false} RunsAreGood(regA: set<u32>, regB: set<u32>, evs: seq<Event>)
    requires 0 !in regA + regB && Legal(Start(regA, regB), evs)
    ensures Good(Run(Start(regA, regB), evs))
  {
    if evs != [] {
      RunsAreGood(regA, regB, evs[..|evs| - 1]);
      StepKeepsGood(Run(Start(regA, regB), evs[..|evs| - 1]), evs[|evs| - 1]);
    }
  }

  // Nothing in flight, and neither end waits or owes.
  predicate Quiet<E>(w: World<E>, stateA: State, stateB: State) {
    w.ab == [] && w.ba == [] && stateA.AtRest() && stateB.AtRest()
  }

  lemma ViewDetermines<T>(e: Endpoint<T>, f: Endpoint<T>)
    requires !Stranded(e) && !Stranded(f)
    ensures View(e) == View(f) <==> e.tag == f.tag && Tags(e.stack) == Tags(f.stack)
  {
    assert e.tag != 0 ==> View(e)[|View(e)| - 1] == e.tag && View(e)[..|View(e)| - 1] == Tags(e.stack);
    assert f.tag != 0 ==> View(f)[|View(f)| - 1] == f.tag && View(f)[..|View(f)| - 1] == Tags(f.stack);
  }

  // Every request either end ever sent has had its own answer.
  predicate AllAnswered<E>(w: World<E>) {
    && |Select(w.sentA, false)| == |Select(w.sentB, true)|
    && |Select(w.sentB, false)| == |Select(w.sentA, true)|
  }

  // Answers come in the order of the requests and name their command and tag.
  predicate AnswersMatch<E>(w: World<E>) {
    && Answers(Select(w.sentA, false), Select(w.sentB, true))
    && Answers(Select(w.sentB, false), Select(w.sentA, true))
  }

  // Agreement: whenever a run comes to rest, both ends hold the same current tag over the
  // same paused tags, and every request either end ever sent has had its one answer.
  lemma Agreement(regA: set<u32>, regB: set<u32>, evs: seq<Event>)
    requires 0 !in regA + regB && Legal(Start(regA, regB), evs)
    ensures var w := Run(Start(regA, regB), evs);
      Quiet(w, w.a.state, w.b.state) ==>
        && w.a.tag == w.b.tag && Tags(w.a.stack) == Tags(w.b.stack)
        && AnswersMatch(w) && AllAnswered(w)
  {
    RunsAreGood(regA, regB, evs);
    var w := Run(Start(regA, regB), evs);
    if Quiet(w, w.a.state, w.b.state) {
      ViewDetermines(w.a, w.b);
    }
  }

  // A quit request about to be read names the reader's current tag.
  predicate QuitsMeetTheirTag<E>(w: World<E>, tagA: u32, tagB: u32) {
    && (w.ba != [] && IsQuitRequest(w.ba[0]) ==> w.ba[0].param1 == tagA)
    && (w.ab != [] && IsQuitRequest(w.ab[0]) ==> w.ab[0].param1 == tagB)
  }

  lemma {:induction false} RegistriesStay(w: World<Endpoint<nat>>, evs: seq<Event>)
    ensures Run(w, evs).regA == w.regA && Run(w, evs).regB == w.regB
  {
    if evs != [] {
      RegistriesStay(w, evs[..|evs| - 1]);
    }
  }

  // A change request about to be read strands nothing: its tag is known to the reader, or
  // the reader holds nothing or turns it down unread.
  lemma ChangeFindsItsTag(w: World<Plain>)
    requires Core(w) && w.ba != [] && !w.ba[0].IsAck() && w.ba[0].cmd == REQ_USE_STREAM_TAG
    ensures w.ba[0].param1 in w.regA || w.a.view == [] || w.a.state.Pending()
  {
    Taken(w.ba);
    if w.a.state.AtRest() {
      assert HasReq(w.ba) && w.b.state.ReqWaitAck? && !HasAck(w.ab) && !HasAck(w.ba);
      assert w.a.view == Init(w.b.view);
    }
  }

  lemma QuitMeetsItsTag(w: World<Plain>)
    requires Core(w) && w.ba != [] && IsQuitRequest(w.ba[0])
    ensures w.ba[0].param1 == w.a.Top() && w.a.state.AtRest()
  {
    Taken(w.ba);
    assert w.b.state.QuitWaitAck? && !HasAck(w.ab) && w.a.state.AtRest();
  }

  // Safety: in every run no assertion fails; both ends are well formed, and in state none only
  // without a stream; every answer matches its request in order and at most one request of an
  // end is unanswered; a quit request never meets another tag.
  lemma Safety(regA: set<u32>, regB: set<u32>, evs: seq<Event>)
    requires 0 !in regA + regB && Legal(Start(regA, regB), evs)
    ensures var w := Run(Start(regA, regB), evs);
      && !w.a.faulted && !w.b.faulted
      && WellFormed(regA, w.a) && WellFormed(regB, w.b)
      && (w.a.state.Idle? ==> w.a.tag == 0) && (w.b.state.Idle? ==> w.b.tag == 0)
      && AnswersMatch(w)
      && |Select(w.sentA, false)| <= |Select(w.sentB, true)| + 1
      && |Select(w.sentB, false)| <= |Select(w.sentA, true)| + 1
      && QuitsMeetTheirTag(w, w.a.tag, w.b.tag)
  {
    RegistriesStay(Start(regA, regB), evs);
    RunsAreGood(regA, regB, evs);
    var w := Run(Start(regA, regB), evs);
    var p := AbsWorld(w);
    assert p.a.Top() == w.a.tag && p.b.Top() == w.b.tag;
    if w.ba != [] && IsQuitRequest(w.ba[0]) { QuitMeetsItsTag(p); }
    if w.ab != [] && IsQuitRequest(w.ab[0]) { QuitMeetsItsTag(p.Flip()); }
  }
}
