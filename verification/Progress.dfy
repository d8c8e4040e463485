/** Runs come to rest: without new requests, at most eight deliveries and put-off answers
    lead every reachable world to the agreement of TwoEnds. */
module Progress {
  import opened Bytes
  import opened VariantMsg
  import opened Endpoint
  import opened PlainStack
  import opened TwoEnds

  // The steps the request of end x still needs: to be sent, read, answered, and the answer read.
  function Debt(x: Plain, y: Plain, inn: seq<Msg>): nat {
    if x.state.HalfReq? then 4
    else if !x.state.Waiting() then 0
    else if HasAck(inn) then 1
    else if Owes(y) then 2
    else 3
  }

  function TotalDebt(w: World<Plain>): (d: nat)
    ensures d <= 8
  {
    Debt(w.a, w.b, w.ba) + Debt(w.b, w.a, w.ab)
  }

  predicate Settling(action: Action) { action.Deliver? || action.Answer? }

  lemma AckPays(w: World<Plain>, h: Handler<nat>)
    requires Core(w) && Allowed(w, Deliver(h)) && w.ba[0].IsAck()
    ensures TotalDebt(PlainAct(w, Deliver(h))) < TotalDebt(w)
  {
    NothingSent(w.ab);
    var next := Receive(w.regA, w.a, w.ba[0], h.verdict, h.reply).0;
    assert Debt(w.a, w.b, w.ba) == 1 && Debt(next, w.b, w.ba[1..]) == 0;
    assert !Owes(w.a) && !Owes(next);
  }

  lemma RequestPays(w: World<Plain>, h: Handler<nat>)
    requires Core(w) && Allowed(w, Deliver(h)) && !w.ba[0].IsAck()
    ensures TotalDebt(PlainAct(w, Deliver(h))) < TotalDebt(w)
  {
    Taken(w.ba);
    NothingSent(w.ab);
    var (next, out) := Receive(w.regA, w.a, w.ba[0], h.verdict, h.reply);
    assert w.b.state.Waiting() && !HasAck(w.ab) && !Owes(w.a) && |w.ab| <= 1;
    if out != [] {
      Written(w.ab, out[0]);
    }
    assert Debt(next, w.b, w.ba[1..]) == Debt(w.a, w.b, w.ba);
  }

  lemma AnswerPays(w: World<Plain>, m: Msg)
    requires Core(w) && Allowed(w, Answer(m))
    ensures TotalDebt(PlainAct(w, Answer(m))) < TotalDebt(w)
  {
    assert !HasReq(w.ab) && !HasAck(w.ba);
    assert Owes(w.a) ==> w.ab == [] && w.b.state.Waiting();
    Written(w.ab, m);
  }

  lemma SettlingPays(w: World<Plain>, ev: Event)
    requires Core(w) && EventAllowed(w, ev) && Settling(ev.action)
    ensures TotalDebt(PlainStep(w, ev)) < TotalDebt(w)
  {
    var v := if ev.byA then w else w.Flip();
    match ev.action
    case Deliver(h) => if v.ba[0].IsAck() { AckPays(v, h); } else { RequestPays(v, h); }
    case Answer(m) => AnswerPays(v, m);
  }

  // Not a next step.
  predicate AtEnd(w: World<Plain>, ev: Event) {
    Settling(ev.action) ==> !EventAllowed(w, ev)
  }

  predicate QuitFirst(ch: seq<Msg>) { ch != [] && IsQuitRequest(ch[0]) }

  // A world not at rest has a next step: deliver a message, or give a put-off answer. The
  // handler may give any code it wants, but for a quit request read now, where the code
  // must be one that grants it or puts it off.
  lemma NeverStuck(w: World<Plain>, code: u8) returns (ev: Event)
    requires Core(w) && !Quiet(w, w.a.state, w.b.state)
    requires QuitFirst(w.ba) || QuitFirst(w.ab) ==> PeerAccepts(code)
    ensures !AtEnd(w, ev)
    ensures ev.action.Deliver? ==> ev.action.h.verdict == code
    ensures ev.action.Answer? && ev.action.m.IsAck() ==> ev.action.m.errcode == code
  {
    if w.ba != [] {
      ev := Event(true, Deliver(Handler(0, code, [])));
    } else if w.ab != [] {
      ev := Event(false, Deliver(Handler(0, code, [])));
    } else {
      var byA := w.a.state.HalfReq? || Owes(w.a);
      var x := if byA then w.a else w.b;
      assert x.state.HalfReq? || Owes(x);
      ev := Event(byA, Answer(match x.state
                              case HalfReq => ChangeRequest(x.Top(), [])
                              case HalfQuit => QuitRequest(x.Top(), []).Answer(code, [])
                              case _ => ChangeRequest(x.Top(), []).Answer(code, [])));
    }
  }

  lemma {:induction false} SettlingRun(w: World<Endpoint<nat>>, evs: seq<Event>)
    requires Good(w) && Legal(w, evs)
    requires forall i :: 0 <= i < |evs| ==> Settling(evs[i].action)
    ensures Good(Run(w, evs))
    ensures TotalDebt(AbsWorld(Run(w, evs))) + |evs| <= TotalDebt(AbsWorld(w))
  {
    if evs != [] {
      var n := |evs| - 1;
      var v := Run(w, evs[..n]);
      SettlingRun(w, evs[..n]);
      StepKeepsGood(v, evs[n]);
      SettlingPays(AbsWorld(v), evs[n]);
    }
  }

  lemma EndIsAgreement(w: World<Endpoint<nat>>)
    requires Good(w)
    requires forall ev: Event :: AtEnd(AbsWorld(w), ev)
    ensures Quiet(w, w.a.state, w.b.state) && w.a.tag == w.b.tag && Tags(w.a.stack) == Tags(w.b.stack)
  {
    if Quiet(w, w.a.state, w.b.state) {
      ViewDetermines(w.a, w.b);
    } else {
      var ev := NeverStuck(AbsWorld(w), OK);
    }
  }

  // From any reachable world: a run of deliveries and put-off answers has at most eight
  // steps, and one that cannot go on has both ends at rest on the same tags.
  lemma ComesToRest(regA: set<u32>, regB: set<u32>, before: seq<Event>, evs: seq<Event>)
    requires 0 !in regA + regB && Legal(Start(regA, regB), before)
    requires Legal(Run(Start(regA, regB), before), evs)
    requires forall i :: 0 <= i < |evs| ==> Settling(evs[i].action)
    ensures |evs| <= 8
    ensures var w := Run(Run(Start(regA, regB), before), evs);
      (forall ev: Event :: AtEnd(AbsWorld(w), ev)) ==>
        Quiet(w, w.a.state, w.b.state) && w.a.tag == w.b.tag && Tags(w.a.stack) == Tags(w.b.stack)
  {
    RunsAreGood(regA, regB, before);
    var v := Run(Start(regA, regB), before);
    SettlingRun(v, evs);
    var w := Run(v, evs);
    if forall ev: Event :: AtEnd(AbsWorld(w), ev) {
      EndIsAgreement(w);
    }
  }
}
