/** The rules of TwoEnds.Allowed are exact on the field-level ends themselves: after any run
    that keeps them, the next event keeps them if and only if no way of going on that keeps
    them goes bad. Concrete runs show that each rule can be broken. */
module Exactness {
  import opened Bytes
  import opened Wrappers
  import opened VariantMsg
  import opened Endpoint
  import opened PlainStack
  import opened TwoEnds
  import opened Discipline

  /* ---------- either end ---------- */

  function FlipEvent(ev: Event): Event { ev.(byA := !ev.byA) }

  lemma {:induction false} WrongFlipped(w: World<Plain>, evs: seq<Event>)
    requires LegalFrom(w, evs) && Wrong(RunFrom(w, evs))
    ensures MayGoWrong(w.Flip())
    decreases evs
  {
    if evs == [] {
      WrongNow(w.Flip());
    } else {
      WrongFlipped(PlainStep(w, evs[0]), evs[1..]);
      assert PlainStep(w.Flip(), FlipEvent(evs[0])) == PlainStep(w, evs[0]).Flip();
      WrongAfter(w.Flip(), FlipEvent(evs[0]));
    }
  }

  lemma FlipChangesNothing(w: World<Plain>)
    ensures MayGoWrong(w) <==> MayGoWrong(w.Flip())
  {
    if MayGoWrong(w) {
      var evs :| LegalFrom(w, evs) && Wrong(RunFrom(w, evs));
      WrongFlipped(w, evs);
    }
    if MayGoWrong(w.Flip()) {
      var evs :| LegalFrom(w.Flip(), evs) && Wrong(RunFrom(w.Flip(), evs));
      WrongFlipped(w.Flip(), evs);
    }
  }

  // What the program can do at all: a quit comes from a current stream, something is read
  // when there is something, and the commands are those of the enumeration.
  predicate Possible(w: World<Plain>, action: Action) {
    match action
    case AskChange(_, _, _) => true
    case AskQuit(_, _) => w.a.view != []
    case Deliver(_) => w.ba != []
    case Answer(m) => Known(m)
  }

  predicate EventPossible(w: World<Plain>, ev: Event) {
    Possible(if ev.byA then w else w.Flip(), ev.action)
  }

  lemma OversizedQuitChangesNothing(w: World<Plain>, tag: u32, params: seq<u8>)
    requires |params| > EXTRA_PARAMS_MAX_SIZE
    ensures PlainAct(w, AskQuit(tag, params)) == w
  {
    NothingSent(w.ab);
    NothingSent(w.sentA);
  }

  lemma ActionRulesAreExact(w: World<Plain>, action: Action)
    requires Inv(w) && Possible(w, action)
    ensures Allowed(w, action) <==> !MayGoWrong(PlainAct(w, action))
  {
    match action
    case AskChange(tag, params, h) => ChangeRuleIsExact(w, tag, params, h);
    case AskQuit(tag, params) =>
      if |params| <= EXTRA_PARAMS_MAX_SIZE {
        QuitRuleIsExact(w, tag, params);
      } else {
        OversizedQuitChangesNothing(w, tag, params);
        NeverWrong(w);
      }
    case Deliver(h) => QuitReplyRuleIsExact(w, h);
    case Answer(m) => AnswerRuleIsExact(w, m);
  }

  lemma EventRulesAreExact(w: World<Plain>, ev: Event)
    requires Inv(w) && EventPossible(w, ev)
    ensures EventAllowed(w, ev) <==> !MayGoWrong(PlainStep(w, ev))
  {
    if ev.byA {
      ActionRulesAreExact(w, ev.action);
    } else {
      ActionRulesAreExact(w.Flip(), ev.action);
      FlipChangesNothing(PlainAct(w.Flip(), ev.action));
    }
  }

  /* ---------- on the field-level ends ---------- */

  // A failed assertion; a stream paused with nothing current; a quit about to meet another
  // tag; two ends at rest that hold different tags, or with a request never answered.
  predicate Bad(w: World<Endpoint<nat>>) {
    || w.a.faulted || w.b.faulted || Stranded(w.a) || Stranded(w.b)
    || !QuitsMeetTheirTag(w, w.a.tag, w.b.tag)
    || (Quiet(w, w.a.state, w.b.state)
        && !(w.a.tag == w.b.tag && Tags(w.a.stack) == Tags(w.b.stack) && AllAnswered(w)))
  }

  ghost predicate MayGoBad(w: World<Endpoint<nat>>) {
    exists evs :: Legal(w, evs) && Bad(Run(w, evs))
  }

  ghost predicate BothWellFormed(w: World<Endpoint<nat>>) {
    WellFormed(w.regA, w.a) && WellFormed(w.regB, w.b)
  }

  lemma BadIsWrong(w: World<Endpoint<nat>>)
    requires BothWellFormed(w) || Stranded(w.a) || Stranded(w.b)
    ensures Bad(w) <==> Wrong(AbsWorld(w))
  {
    if BothWellFormed(w) {
      assert Abs(w.a).Top() == w.a.tag && Abs(w.b).Top() == w.b.tag;
      ViewDetermines(w.a, w.b);
    }
  }

  lemma {:induction false} RunFirst(w: World<Endpoint<nat>>, ev: Event, evs: seq<Event>)
    ensures Run(w, [ev] + evs) == Run(Step(w, ev), evs)
    ensures Legal(w, [ev] + evs) <==> EventAllowed(AbsWorld(w), ev) && Legal(Step(w, ev), evs)
  {
    var all := [ev] + evs;
    if evs == [] {
      assert all[..|all| - 1] == [];
      assert all[|all| - 1] == ev;
    } else {
      RunFirst(w, ev, evs[..|evs| - 1]);
      assert all[..|all| - 1] == [ev] + evs[..|evs| - 1];
    }
  }

  // One step of well-formed ends: the plain worlds take it too, and the ends stay well formed
  // unless a stream was stranded.
  lemma StepRefines(w: World<Endpoint<nat>>, ev: Event)
    requires BothWellFormed(w) && EventPossible(AbsWorld(w), ev)
    ensures AbsWorld(Step(w, ev)) == PlainStep(AbsWorld(w), ev)
    ensures BothWellFormed(Step(w, ev)) || Stranded(Step(w, ev).a) || Stranded(Step(w, ev).b)
  {
    ActRefines(if ev.byA then w else w.Flip(), ev.action);
  }

  lemma AllowedIsPossible(w: World<Plain>, ev: Event)
    requires EventAllowed(w, ev)
    ensures EventPossible(w, ev)
  {
  }

  lemma BadAfter(w: World<Endpoint<nat>>, ev: Event)
    requires EventAllowed(AbsWorld(w), ev) && MayGoBad(Step(w, ev))
    ensures MayGoBad(w)
  {
    var evs :| Legal(Step(w, ev), evs) && Bad(Run(Step(w, ev), evs));
    RunFirst(w, ev, evs);
  }

  lemma {:induction false} BadFromWrong(w: World<Endpoint<nat>>, evs: seq<Event>)
    requires BothWellFormed(w) || Stranded(w.a) || Stranded(w.b)
    requires LegalFrom(AbsWorld(w), evs) && Wrong(RunFrom(AbsWorld(w), evs))
    ensures MayGoBad(w)
    decreases evs
  {
    BadIsWrong(w);
    if Bad(w) {
      assert Legal(w, []) && Run(w, []) == w;
    } else {
      AllowedIsPossible(AbsWorld(w), evs[0]);
      StepRefines(w, evs[0]);
      BadFromWrong(Step(w, evs[0]), evs[1..]);
      BadAfter(w, evs[0]);
    }
  }

  lemma {:induction false} WrongFromBad(w: World<Endpoint<nat>>, evs: seq<Event>)
    requires BothWellFormed(w) || Stranded(w.a) || Stranded(w.b)
    requires Legal(w, evs) && Bad(Run(w, evs))
    ensures MayGoWrong(AbsWorld(w))
    decreases |evs|
  {
    BadIsWrong(w);
    if Bad(w) {
      WrongNow(AbsWorld(w));
    } else {
      assert evs == [evs[0]] + evs[1..];
      RunFirst(w, evs[0], evs[1..]);
      AllowedIsPossible(AbsWorld(w), evs[0]);
      StepRefines(w, evs[0]);
      WrongFromBad(Step(w, evs[0]), evs[1..]);
      WrongAfter(AbsWorld(w), evs[0]);
    }
  }

  lemma BadIffWrong(w: World<Endpoint<nat>>)
    requires BothWellFormed(w) || Stranded(w.a) || Stranded(w.b)
    ensures MayGoBad(w) <==> MayGoWrong(AbsWorld(w))
  {
    if MayGoBad(w) {
      var evs :| Legal(w, evs) && Bad(Run(w, evs));
      WrongFromBad(w, evs);
    }
    if MayGoWrong(AbsWorld(w)) {
      var evs :| LegalFrom(AbsWorld(w), evs) && Wrong(RunFrom(AbsWorld(w), evs));
      BadFromWrong(w, evs);
    }
  }

  // Some run that kept the rules leads to w.
  ghost predicate Reached(w: World<Endpoint<nat>>, evs: seq<Event>) {
    var start := Start(w.regA, w.regB);
    0 !in w.regA + w.regB && Legal(start, evs) && Run(start, evs) == w
  }

  predicate CanHappen(w: World<Endpoint<nat>>, ev: Event) { EventPossible(AbsWorld(w), ev) }

  predicate KeepsTheRules(w: World<Endpoint<nat>>, ev: Event) { EventAllowed(AbsWorld(w), ev) }

  // The rules are exact: after any run that kept them, an event the program can take keeps
  // them if and only if no continuation that keeps them goes bad.
  lemma RulesAreExact(w: World<Endpoint<nat>>, evs: seq<Event>, ev: Event)
    requires Reached(w, evs) && CanHappen(w, ev)
    ensures KeepsTheRules(w, ev) <==> !MayGoBad(Step(w, ev))
  {
    RunsAreGood(w.regA, w.regB, evs);
    StepRefines(w, ev);
    EventRulesAreExact(AbsWorld(w), ev);
    BadIffWrong(Step(w, ev));
  }

  /* ---------- each rule can be broken ---------- */

  // A run that keeps the rules, and an event that breaks them and may lead to harm.
  ghost predicate Breaks(regA: set<u32>, regB: set<u32>, evs: seq<Event>, ev: Event) {
    var w := Run(Start(regA, regB), evs);
    Legal(Start(regA, regB), evs) && !KeepsTheRules(w, ev) && MayGoBad(Step(w, ev))
  }

  lemma BreaksAfter(regA: set<u32>, regB: set<u32>, evs: seq<Event>, ev: Event)
    requires 0 !in regA + regB && Legal(Start(regA, regB), evs)
    requires var w := Run(Start(regA, regB), evs); CanHappen(w, ev) && !KeepsTheRules(w, ev)
    ensures Breaks(regA, regB, evs, ev)
  {
    RegistriesStay(Start(regA, regB), evs);
    RulesAreExact(Run(Start(regA, regB), evs), evs, ev);
  }

  lemma RunLast(w: World<Endpoint<nat>>, evs: seq<Event>, ev: Event)
    ensures Run(w, evs + [ev]) == Step(Run(w, evs), ev)
    ensures Legal(w, evs + [ev]) <==> Legal(w, evs) && EventAllowed(AbsWorld(Run(w, evs)), ev)
  {
    assert (evs + [ev])[..|evs|] == evs;
  }

  const SAYS_OK := Handler(1, OK, [])
  const PUTS_OFF := Handler(1, SKIP_AND_MANUAL, [])
  const REFUSES := Handler(1, FAILED, [])
  const A_CHANGES := [Event(true, AskChange(7, [], SAYS_OK))]
  const BOTH_ON_SEVEN := A_CHANGES + [Event(false, Deliver(SAYS_OK))] + [Event(true, Deliver(SAYS_OK))]

  // Stream 7 of object 1.
  function OnSeven(waitRet: bool, s: State): Endpoint<nat> { Endpoint(7, Some(Hold(1, waitRet)), [], s, false) }

  lemma AChanges(regA: set<u32>, regB: set<u32>)
    requires 7 in regA && 7 in regB
    ensures Legal(Start(regA, regB), A_CHANGES)
    ensures Run(Start(regA, regB), A_CHANGES)
         == World(OnSeven(true, ReqWaitAck), Fresh(), [ChangeRequest(7, [])], [],
                  [ChangeRequest(7, [])], [], regA, regB)
  {
    var w := Start(regA, regB);
    RunLast(w, [], A_CHANGES[0]);
    assert [] + A_CHANGES == A_CHANGES;
    assert AbsWorld(w).a == Plain([], Idle, false);
  }

  // Both ends agree on tag 7, and nothing is open.
  lemma BothOnSeven(regA: set<u32>, regB: set<u32>)
    requires 7 in regA && 7 in regB
    ensures Legal(Start(regA, regB), BOTH_ON_SEVEN)
    ensures var ask := ChangeRequest(7, []);
      Run(Start(regA, regB), BOTH_ON_SEVEN)
      == World(OnSeven(false, Active), OnSeven(false, Active), [], [], [ask], [ask.Answer(OK, [])], regA, regB)
  {
    var w, ask := Start(regA, regB), ChangeRequest(7, []);
    AChanges(regA, regB);
    RunLast(w, A_CHANGES, Event(false, Deliver(SAYS_OK)));
    var v := Run(w, A_CHANGES + [Event(false, Deliver(SAYS_OK))]);
    assert v == World(OnSeven(true, ReqWaitAck), OnSeven(false, Active), [], [ask.Answer(OK, [])],
                      [ask], [ask.Answer(OK, [])], regA, regB);
    RunLast(w, A_CHANGES + [Event(false, Deliver(SAYS_OK))], Event(true, Deliver(SAYS_OK)));
  }

  // A change to a tag the peer does not know, while both hold a stream.
  lemma UnknownTagCanBreak()
    ensures Breaks({7, 8}, {7}, BOTH_ON_SEVEN, Event(true, AskChange(8, [], SAYS_OK)))
  {
    BothOnSeven({7, 8}, {7});
    BreaksAfter({7, 8}, {7}, BOTH_ON_SEVEN, Event(true, AskChange(8, [], SAYS_OK)));
  }

  // A quit that names another tag than its stream's.
  lemma OtherTagCanBreak()
    ensures Breaks({7}, {7}, BOTH_ON_SEVEN, Event(true, AskQuit(9, [])))
  {
    BothOnSeven({7}, {7});
    BreaksAfter({7}, {7}, BOTH_ON_SEVEN, Event(true, AskQuit(9, [])));
  }

  // A quit while the own change is still open.
  lemma QuitNotAtRestCanBreak()
    ensures Breaks({7}, {7}, A_CHANGES, Event(true, AskQuit(7, [])))
  {
    AChanges({7}, {7});
    BreaksAfter({7}, {7}, A_CHANGES, Event(true, AskQuit(7, [])));
  }

  // A quit against an open change of the peer.
  lemma QuitOverChangeCanBreak()
    ensures Breaks({7}, {7}, BOTH_ON_SEVEN + [Event(false, AskChange(7, [], SAYS_OK))], Event(true, AskQuit(7, [])))
  {
    var change := Event(false, AskChange(7, [], SAYS_OK));
    BothOnSeven({7}, {7});
    RunLast(Start({7}, {7}), BOTH_ON_SEVEN, change);
    BreaksAfter({7}, {7}, BOTH_ON_SEVEN + [change], Event(true, AskQuit(7, [])));
  }

  // Under an open quit of the peer: a change, a quit, and the quit refused on the spot.
  lemma OpenQuitCanBreak(ev: Event)
    requires ev == Event(true, AskChange(7, [], SAYS_OK)) || ev == Event(true, AskChange(7, [], PUTS_OFF))
          || ev == Event(true, AskQuit(7, [])) || ev == Event(true, Deliver(REFUSES))
    ensures Breaks({7}, {7}, BOTH_ON_SEVEN + [Event(false, AskQuit(7, []))], ev)
  {
    var quit := Event(false, AskQuit(7, []));
    var w := Start({7}, {7});
    BothOnSeven({7}, {7});
    assert View(OnSeven(false, Active)) == [7];
    RunLast(w, BOTH_ON_SEVEN, quit);
    assert Run(w, BOTH_ON_SEVEN + [quit]).ba == [QuitRequest(7, [])];
    BreaksAfter({7}, {7}, BOTH_ON_SEVEN + [quit], ev);
  }

  // A put-off change is called off, or sent as an answer.
  lemma HalfRequestCanBreak(m: Msg)
    requires m == ChangeRequest(7, []).(errcode := FAILED) || m == ChangeRequest(7, []).Answer(OK, [])
    ensures Breaks({7}, {7}, [Event(true, AskChange(7, [], PUTS_OFF))], Event(true, Answer(m)))
  {
    var change := Event(true, AskChange(7, [], PUTS_OFF));
    RunLast(Start({7}, {7}), [], change);
    assert [] + [change] == [change];
    BreaksAfter({7}, {7}, [change], Event(true, Answer(m)));
  }

  // An owed answer names another tag or another command, or is not given as an answer.
  lemma OwedAnswerCanBreak(m: Msg)
    requires m in {ChangeRequest(9, []).Answer(OK, []), QuitRequest(7, []).Answer(OK, []), ChangeRequest(7, [])}
    ensures Breaks({7}, {7}, A_CHANGES + [Event(false, Deliver(PUTS_OFF))], Event(false, Answer(m)))
  {
    var read := Event(false, Deliver(PUTS_OFF));
    AChanges({7}, {7});
    RunLast(Start({7}, {7}), A_CHANGES, read);
    assert Run(Start({7}, {7}), A_CHANGES + [read]).b == OnSeven(false, HalfActive);
    assert View(OnSeven(false, HalfActive)) == [7];
    BreaksAfter({7}, {7}, A_CHANGES + [read], Event(false, Answer(m)));
  }
}
