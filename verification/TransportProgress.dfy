/** Progress of the cached transport factory (pkg/mcpclient/channel_transport_factory.go): every step that has an
    effect moves one call forward, and a flight nests once, so the calls begun bound the steps that can follow.
 */
module TransportProgress {
  import opened Wrappers
  import opened TransportCache

  /** Steps that a call has left, at most; a transport call before its nested call also has those of that one. */
  function Weight(call: Call): nat {
    var ahead := if call.key.Transport? then 11 else 0;
    match call.pc
    case FastLock => 9 + ahead
    case FastHeld => 8 + ahead
    case Join => 7 + ahead
    case CheckLock(_) => 6 + ahead
    case CheckHeld(_) => 5 + ahead
    case Preparing(_) => 15
    case Calling(_) => 5
    case Building(_, _) => 4
    case StoreLock(_, _) => 3
    case StoreHeld(_, _) => 2
    case Finish(_, _) => 1
    case Waiting(_) => 1
    case Done(_) => 0
  }

  // ----- Sums over the calls --------------------------------------------------------------------

  ghost function Pick(calls: map<Id, Call>): (c: Id)
    requires calls != map[]
    ensures c in calls
  {
    var c :| c in calls;
    c
  }

  ghost function Remaining(calls: map<Id, Call>): nat
    decreases calls.Keys
  {
    if calls == map[] then 0 else Weight(calls[Pick(calls)]) + Remaining(calls - {Pick(calls)})
  }

  lemma {:induction false} RemainingWithout(calls: map<Id, Call>, c: Id)
    requires c in calls
    ensures Remaining(calls) == Weight(calls[c]) + Remaining(calls - {c})
    decreases calls.Keys
  {
    var d := Pick(calls);
    if c != d {
      RemainingWithout(calls - {d}, c);
      RemainingWithout(calls - {c}, d);
      assert calls - {c} - {d} == calls - {d} - {c};
    }
  }

  lemma RemainingWith(calls: map<Id, Call>, c: Id, call: Call)
    ensures c in calls ==> Remaining(calls[c := call]) + Weight(calls[c]) == Remaining(calls) + Weight(call)
    ensures c !in calls ==> Remaining(calls[c := call]) == Remaining(calls) + Weight(call)
  {
    var calls' := calls[c := call];
    RemainingWithout(calls', c);
    assert calls' - {c} == calls - {c};
    if c in calls {
      RemainingWithout(calls, c);
    } else {
      assert calls - {c} == calls;
    }
  }

  lemma {:induction false} NothingRemainsIff(calls: map<Id, Call>)
    ensures Remaining(calls) == 0 <==> forall c :: c in calls ==> calls[c].pc.Done?
    decreases calls.Keys
  {
    if calls != map[] {
      var d := Pick(calls);
      var rest := calls - {d};
      NothingRemainsIff(rest);
      assert forall c :: c in calls <==> c == d || c in rest;
    }
  }

  // ----- One event ------------------------------------------------------------------------------

  lemma MoveSpends(s: State, c: Id, ok: bool)
    requires c in s.calls && IsMove(s.calls[c].pc, ok)
    ensures Next(s, c, ok) == s.calls[c].pc || Weight(s.calls[c].(pc := Next(s, c, ok))) < Weight(s.calls[c])
  {
  }

  lemma ForwardSpends(calls: map<Id, Call>, calls': map<Id, Call>, c: Id, call: Call)
    requires c in calls && calls' == calls[c := call] && Weight(call) < Weight(calls[c])
    ensures Remaining(calls') < Remaining(calls)
  {
    RemainingWith(calls, c, call);
  }

  /** From calls to calls', only `c` moved, and forward. */
  predicate Forward(calls: map<Id, Call>, calls': map<Id, Call>, c: Id) {
    c in calls && c in calls' && calls' == calls[c := calls'[c]] && Weight(calls'[c]) < Weight(calls[c])
  }

  lemma JoinIsForward(s: State, c: Id)
    requires c in s.calls && s.calls[c].pc == Join
    ensures Forward(s.calls, DoFlight(s, c).calls, c)
  {
    var k := s.calls[c].key;
    var next := if k in s.active then Waiting(s.active[k]) else CheckLock(s.nextFlight);
    assert DoFlight(s, c).calls == s.calls[c := s.calls[c].(pc := next)];
  }

  lemma BuildIsForward(s: State, c: Id)
    requires c in s.calls && s.calls[c].pc.Building?
    ensures Forward(s.calls, Construct(s, c, s.calls[c].pc.f, s.calls[c].pc.client).calls, c)
  {
  }

  lemma StoreIsForward(s: State, c: Id)
    requires c in s.calls && s.calls[c].pc.StoreHeld?
    ensures Forward(s.calls, Store(s, c, s.calls[c].pc.f, s.calls[c].pc.v).calls, c)
  {
  }

  lemma EndIsForward(s: State, c: Id)
    requires c in s.calls && s.calls[c].pc.Finish? && s.calls[c].pc.f in s.flights
    ensures Forward(s.calls, EndFlight(s, c, s.calls[c].pc.f, s.calls[c].pc.r).calls, c)
  {
  }

  /** The steps on flights and builds. */
  lemma WorkIsForward(s: State, c: Id, ok: bool)
    requires c in s.calls && CallOk(s, c) && !IsMove(s.calls[c].pc, ok) && !s.calls[c].pc.Preparing?
    ensures Forward(s.calls, StepCall(s, c, ok).calls, c)
  {
    var pc := s.calls[c].pc;
    if pc == Join {
      JoinIsForward(s, c);
    } else if pc.Building? {
      BuildIsForward(s, c);
    } else if pc.StoreHeld? {
      StoreIsForward(s, c);
    } else {
      EndIsForward(s, c);
    }
  }

  /** A step that has an effect spends something of what remains. */
  lemma StepSpends(s: State, c: Id, ok: bool)
    requires Inv(s) && c in s.calls
    ensures StepCall(s, c, ok) == s || Remaining(StepCall(s, c, ok).calls) < Remaining(s.calls)
  {
    var pc := s.calls[c].pc;
    assert NestOk(s, c) && CallOk(s, c);
    if IsMove(pc, ok) {
      OwnMoveSpends(s, c, ok);
    } else if pc.Preparing? {
      CallClientSpends(s, c, pc.f);
    } else {
      WorkIsForward(s, c, ok);
      var calls' := StepCall(s, c, ok).calls;
      ForwardSpends(s.calls, calls', c, calls'[c]);
    }
  }

  lemma OwnMoveSpends(s: State, c: Id, ok: bool)
    requires c in s.calls && IsMove(s.calls[c].pc, ok)
    ensures StepCall(s, c, ok) == s || Remaining(StepCall(s, c, ok).calls) < Remaining(s.calls)
  {
    var pc := Next(s, c, ok);
    MoveSpends(s, c, ok);
    StayingIsNothing(s, c, ok);
    if pc != s.calls[c].pc {
      ForwardSpends(s.calls, Move(s, c, pc).calls, c, s.calls[c].(pc := pc));
    }
  }

  lemma StayingIsNothing(s: State, c: Id, ok: bool)
    requires c in s.calls && IsMove(s.calls[c].pc, ok)
    ensures Next(s, c, ok) == s.calls[c].pc ==> Move(s, c, Next(s, c, ok)) == s
    ensures Move(s, c, Next(s, c, ok)).calls == s.calls[c := s.calls[c].(pc := Next(s, c, ok))]
  {
    if Next(s, c, ok) == s.calls[c].pc {
      assert s.calls[c := s.calls[c]] == s.calls;
    }
  }

  lemma CallClientSpends(s: State, c: Id, f: nat)
    requires c in s.calls && s.calls[c].pc == Preparing(f) && Nested(f) !in s.calls
    ensures Remaining(CallClient(s, c, f).calls) < Remaining(s.calls)
  {
    var s1 := Goto(s, c, Calling(f));
    RemainingWith(s.calls, c, s.calls[c].(pc := Calling(f)));
    RemainingWith(s1.calls, Nested(f), Call(Client(s.calls[c].uses), "", FastLock));
  }

  lemma BeginAdds(s: State, n: nat, call: Call)
    requires call.pc == FastLock || call.pc == Done(Err)
    ensures Remaining(Begin(s, n, call).calls) <= Remaining(s.calls) + (if Caller(n) in s.calls then 0 else 20)
  {
    RemainingWith(s.calls, Caller(n), call);
  }

  // ----- Whole runs -----------------------------------------------------------------------------

  /** Steps of calls that had an effect. */
  function Effective(es: seq<Event>): nat {
    if es == [] then 0
    else
      var init, e := es[..|es| - 1], es[|es| - 1];
      Effective(init) + if e.Step? && Run(es) != Run(init) then 1 else 0
  }

  function Started(es: seq<Event>): nat {
    if es == [] then 0
    else
      var init, e := es[..|es| - 1], es[|es| - 1];
      Started(init) + if !e.Step? && Caller(e.n) !in Run(init).calls then 1 else 0
  }

  /** In every run, twenty effective steps per call begun are the most there can be. */
  lemma {:induction false} StepsAreBounded(es: seq<Event>)
    ensures Effective(es) + Remaining(Run(es).calls) <= 20 * Started(es)
  {
    if es != [] {
      var init, e := es[..|es| - 1], es[|es| - 1];
      var s := Run(init);
      StepsAreBounded(init);
      RunKeepsInv(init);
      match e
      case BeginBuild(n, channel, streamable) =>
        BeginAdds(s, n, Call(Transport(channel), if streamable then channel else DEFAULT_CLIENT,
                             if channel == "" then Done(Err) else FastLock));
      case BeginClient(n, name) =>
        BeginAdds(s, n, Call(Client(name), "", if name == "" then Done(Err) else FastLock));
      case Step(c, ok) => if c in s.calls { StepSpends(s, c, ok); }
    }
  }

  ghost predicate AllDone(s: State) {
    forall c :: c in s.calls ==> s.calls[c].pc.Done?
  }

  /** In every run, nothing can move any more exactly when every call has returned, and then nothing remains. */
  lemma {:induction false} StoppedIffAllDone(es: seq<Event>)
    ensures (forall c, ok :: c in Run(es).calls ==> StepCall(Run(es), c, ok) == Run(es)) <==> AllDone(Run(es))
    ensures Remaining(Run(es).calls) == 0 <==> AllDone(Run(es))
  {
    var s := Run(es);
    NothingRemainsIff(s.calls);
    if AllDone(s) {
      forall c, ok | c in s.calls ensures StepCall(s, c, ok) == s {
        RunKeepsInv(es);
        StayingIsNothing(s, c, ok);
      }
    } else {
      var c :| c in s.calls && !s.calls[c].pc.Done?;
      var d := NoDeadlock(es, c);
    }
  }

  /** Steps of calls, none of which fails. */
  predicate OnlySteps(es: seq<Event>) {
    forall i :: 0 <= i < |es| ==> es[i].Step? && es[i].ok
  }

  lemma SomeStepSpends(es: seq<Event>) returns (step: Event)
    requires !AllDone(Run(es))
    ensures step.Step? && step.ok && Remaining(Run(es + [step]).calls) < Remaining(Run(es).calls)
  {
    var s := Run(es);
    var c :| c in s.calls && !s.calls[c].pc.Done?;
    var d := NoDeadlock(es, c);
    RunKeepsInv(es);
    StepSpends(s, d, true);
    step := Step(d, true);
    assert (es + [step])[..|es|] == es;
  }

  lemma StepFirst(es: seq<Event>, step: Event, rest: seq<Event>)
    ensures Run(es + ([step] + rest)) == Run(es + [step] + rest)
  {
    assert es + ([step] + rest) == es + [step] + rest;
  }

  lemma NoStep(es: seq<Event>)
    ensures Run(es + []) == Run(es)
  {
    assert es + [] == es;
  }

  /** From every run, steps of the calls alone, no more than remain, let all of them return. */
  lemma {:induction false} CallsReturn(es: seq<Event>) returns (more: seq<Event>)
    ensures OnlySteps(more) && |more| <= Remaining(Run(es).calls) && AllDone(Run(es + more))
    decreases Remaining(Run(es).calls)
  {
    if AllDone(Run(es)) {
      more := [];
      NoStep(es);
    } else {
      var step := SomeStepSpends(es);
      var rest := CallsReturn(es + [step]);
      more := [step] + rest;
      StepFirst(es, step, rest);
    }
  }
}
