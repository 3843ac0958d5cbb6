/** Why a call of the cached transport factory (pkg/mcpclient/channel_transport_factory.go) fails, and with which client
    a transport is built: every error goes back to a step that failed, in the flight that the call took part in.
 */
module TransportErrors {
  import opened Wrappers
  import opened TransportCache
  import opened TransportProgress

  lemma RunSnoc(es: seq<Event>, e: Event)
    ensures Run(es + [e]) == Apply(Run(es), e)
  {
    assert (es + [e])[..|es|] == es;
  }

  // ----- Causes ---------------------------------------------------------------------------------

  /** The work of flight f: selecting a provider, asking for the client, building. */
  predicate Works(pc: Pc, f: nat) {
    (pc.Preparing? || pc.Calling? || pc.Building?) && pc.f == f
  }

  predicate TakesPart(pc: Pc, f: nat) {
    (Leads(pc) || pc.Waiting?) && pc.f == f
  }

  /** Some step of the work of flight f failed. */
  ghost predicate FailedIn(es: seq<Event>, f: nat) {
    exists i :: 0 <= i < |es| && FailsAt(Run(es[..i]), es[i], f)
  }

  predicate FailsAt(s: State, e: Event, f: nat) {
    e.Step? && !e.ok && e.call in s.calls && Works(s.calls[e.call].pc, f)
  }

  /** Call c led or joined flight f. */
  ghost predicate PartOf(es: seq<Event>, c: Id, f: nat) {
    exists i :: 0 <= i <= |es| && c in Run(es[..i]).calls && TakesPart(Run(es[..i]).calls[c].pc, f)
  }

  /** The flight failed by itself or, for a transport, because the flight of its client did. */
  ghost predicate Blame(es: seq<Event>, k: Key, f: nat) {
    FailedIn(es, f) || (k.Transport? && exists g :: PartOf(es, Nested(f), g) && FailedIn(es, g))
  }

  predicate Invalid(k: Key) {
    k == Transport("") || k == Client("")
  }

  /** The call was refused at once, or took part in a flight that failed. */
  ghost predicate Excused(es: seq<Event>, c: Id, k: Key) {
    (c.Caller? && Invalid(k)) || exists f :: PartOf(es, c, f) && Blame(es, k, f)
  }

  ghost predicate CallExcused(es: seq<Event>, c: Id)
    requires c in Run(es).calls
  {
    var call := Run(es).calls[c];
    && (call.pc == Done(Err) ==> Excused(es, c, call.key))
    && (call.pc.Finish? && call.pc.r == Err ==> Blame(es, call.key, call.pc.f))
  }

  ghost predicate FlightExcused(es: seq<Event>, f: nat)
    requires f in Run(es).flights
  {
    Run(es).flights[f].result == Some(Err) ==> Blame(es, Run(es).flights[f].key, f)
  }

  ghost predicate AllExcused(es: seq<Event>) {
    && (forall c :: c in Run(es).calls ==> CallExcused(es, c))
    && (forall f :: f in Run(es).flights ==> FlightExcused(es, f))
  }

  // ----- Causes stay ----------------------------------------------------------------------------

  lemma FailedStays(es: seq<Event>, e: Event, f: nat)
    ensures FailedIn(es, f) ==> FailedIn(es + [e], f)
    ensures FailsAt(Run(es), e, f) ==> FailedIn(es + [e], f)
  {
    var all := es + [e];
    assert all[..|es|] == es && all[|es|] == e;
    if FailedIn(es, f) {
      var i :| 0 <= i < |es| && FailsAt(Run(es[..i]), es[i], f);
      assert all[i] == es[i] && all[..i] == es[..i];
    }
  }

  lemma PartStays(es: seq<Event>, e: Event, c: Id, f: nat)
    ensures PartOf(es, c, f) ==> PartOf(es + [e], c, f)
    ensures c in Run(es).calls && TakesPart(Run(es).calls[c].pc, f) ==> PartOf(es, c, f)
  {
    var all := es + [e];
    if PartOf(es, c, f) {
      var i :| 0 <= i <= |es| && c in Run(es[..i]).calls && TakesPart(Run(es[..i]).calls[c].pc, f);
      assert all[..i] == es[..i];
    }
    assert es[..|es|] == es;
  }

  lemma BlameStays(es: seq<Event>, e: Event, k: Key, f: nat)
    requires Blame(es, k, f)
    ensures Blame(es + [e], k, f)
  {
    FailedStays(es, e, f);
    if !FailedIn(es, f) {
      var g :| PartOf(es, Nested(f), g) && FailedIn(es, g);
      PartStays(es, e, Nested(f), g);
      FailedStays(es, e, g);
    }
  }

  lemma ExcuseStays(es: seq<Event>, e: Event, c: Id, k: Key)
    requires Excused(es, c, k)
    ensures Excused(es + [e], c, k)
  {
    if !(c.Caller? && Invalid(k)) {
      var f :| PartOf(es, c, f) && Blame(es, k, f);
      PartStays(es, e, c, f);
      BlameStays(es, e, k, f);
    }
  }

  // ----- One step -------------------------------------------------------------------------------

  /** A nested call that failed puts the blame on the flight it took part in. */
  lemma NestedBlame(es: seq<Event>, f: nat, k: Key)
    requires AllExcused(es) && NestInv(Run(es)) && k.Transport?
    requires NestedResult(Run(es), f) == Some(Err)
    ensures Blame(es, k, f)
  {
    var c := Nested(f);
    assert NestOk(Run(es), c) && CallExcused(es, c);
  }

  /** How a call gets to an error by itself. */
  lemma NextError(s: State, c: Id, ok: bool)
    requires c in s.calls && IsMove(s.calls[c].pc, ok)
    ensures var pc, pc' := s.calls[c].pc, Next(s, c, ok);
            && (pc' == Done(Err) ==>
                  pc == pc' || (pc.Waiting? && pc.f in s.flights && s.flights[pc.f].result == Some(Err)))
            && (pc'.Finish? && pc'.r == Err ==>
                  Works(pc, pc'.f) && (!ok || (pc.Calling? && NestedResult(s, pc.f) == Some(Err))))
  {
  }

  lemma DoneIsExcused(es: seq<Event>, c: Id, ok: bool)
    requires AllExcused(es) && c in Run(es).calls && CallOk(Run(es), c) && IsMove(Run(es).calls[c].pc, ok)
    requires Next(Run(es), c, ok) == Done(Err)
    ensures Excused(es + [Step(c, ok)], c, Run(es).calls[c].key)
  {
    var s, pc := Run(es), Run(es).calls[c].pc;
    NextError(s, c, ok);
    assert CallExcused(es, c);
    if pc.Waiting? {
      assert FlightExcused(es, pc.f);
      PartStays(es, Step(c, ok), c, pc.f);
    }
    ExcuseStays(es, Step(c, ok), c, s.calls[c].key);
  }

  lemma FinishIsExcused(es: seq<Event>, c: Id, ok: bool)
    requires AllExcused(es) && NestInv(Run(es)) && c in Run(es).calls && IsMove(Run(es).calls[c].pc, ok)
    requires var pc := Next(Run(es), c, ok); pc.Finish? && pc.r == Err
    ensures Blame(es + [Step(c, ok)], Run(es).calls[c].key, Next(Run(es), c, ok).f)
  {
    var s, call := Run(es), Run(es).calls[c];
    NextError(s, c, ok);
    assert NestOk(s, c);
    if ok {
      NestedBlame(es, call.pc.f, call.key);
      BlameStays(es, Step(c, ok), call.key, call.pc.f);
    } else {
      FailedStays(es, Step(c, ok), call.pc.f);
    }
  }

  /** Only the place of the call itself changes, except when it enters a nested call. */
  lemma StepCalls(s: State, c: Id, ok: bool)
    requires c in s.calls && !(s.calls[c].pc.Preparing? && ok)
    ensures c in StepCall(s, c, ok).calls
    ensures StepCall(s, c, ok).calls == s.calls[c := s.calls[c].(pc := StepCall(s, c, ok).calls[c].pc)]
    ensures IsMove(s.calls[c].pc, ok) ==> StepCall(s, c, ok).calls[c].pc == Next(s, c, ok)
  {
    var pc := s.calls[c].pc;
    if pc.Finish? && pc.f !in s.flights {
      assert s.calls[c := s.calls[c]] == s.calls;
    }
  }

  /** What a step leaves as it is, and what it may turn into an error. */
  lemma StepTouches(s: State, c: Id, ok: bool, d: Id)
    requires c in s.calls && d in StepCall(s, c, ok).calls
    ensures var call := StepCall(s, c, ok).calls[d];
            || (d in s.calls && call == s.calls[d])
            || (d.Nested? && call.pc == FastLock && call.key.Client?)
            || (d == c && call.key == s.calls[c].key && call.uses == s.calls[c].uses
                && (IsMove(s.calls[c].pc, ok) ==> call.pc == Next(s, c, ok)))
  {
    var pc := s.calls[c].pc;
    if pc.Preparing? && ok {
      assert StepCall(s, c, ok) == CallClient(s, c, pc.f);
    } else {
      StepCalls(s, c, ok);
    }
  }

  lemma StepTurns(s: State, c: Id, ok: bool)
    requires c in s.calls && !IsMove(s.calls[c].pc, ok)
    ensures var old_, pc := s.calls[c].pc, StepCall(s, c, ok).calls[c].pc;
            && (pc == Done(Err) ==> old_.Finish? && old_.r == Err)
            && (pc.Finish? && pc.r == Err ==> old_ == pc)
  {
    var pc := s.calls[c].pc;
    if pc.Preparing? {
      assert StepCall(s, c, ok) == CallClient(s, c, pc.f);
    } else {
      StepCalls(s, c, ok);
    }
  }

  lemma SameCall(es: seq<Event>, e: Event, c: Id)
    requires c in Run(es).calls && CallExcused(es, c) && c in Run(es + [e]).calls
    requires Run(es + [e]).calls[c] == Run(es).calls[c]
    ensures CallExcused(es + [e], c)
  {
    var call := Run(es).calls[c];
    if call.pc == Done(Err) {
      ExcuseStays(es, e, c, call.key);
    } else if call.pc.Finish? && call.pc.r == Err {
      BlameStays(es, e, call.key, call.pc.f);
    }
  }

  lemma SameFlight(es: seq<Event>, e: Event, f: nat)
    requires f in Run(es).flights && FlightExcused(es, f) && f in Run(es + [e]).flights
    requires Run(es + [e]).flights[f] == Run(es).flights[f]
    ensures FlightExcused(es + [e], f)
  {
    if Run(es).flights[f].result == Some(Err) {
      BlameStays(es, e, Run(es).flights[f].key, f);
    }
  }

  lemma StepFlights(s: State, c: Id, ok: bool, f: nat)
    requires c in s.calls && f in StepCall(s, c, ok).flights
    ensures var fl := StepCall(s, c, ok).flights[f];
            || (f in s.flights && fl == s.flights[f])
            || fl.result == None
            || (f in s.flights && fl.key == s.flights[f].key && s.calls[c].pc.Finish? && s.calls[c].pc.f == f
                && fl.result == Some(s.calls[c].pc.r))
  {
  }

  lemma StepCallExcused(es: seq<Event>, c: Id, ok: bool, d: Id)
    requires AllExcused(es) && Inv(Run(es)) && c in Run(es).calls && d in StepCall(Run(es), c, ok).calls
    ensures d in Run(es + [Step(c, ok)]).calls && CallExcused(es + [Step(c, ok)], d)
  {
    var s, e := Run(es), Step(c, ok);
    RunSnoc(es, e);
    StepTouches(s, c, ok, d);
    var call := StepCall(s, c, ok).calls[d];
    if d in s.calls && call == s.calls[d] {
      SameCall(es, e, d);
    } else if d == c {
      if IsMove(s.calls[c].pc, ok) {
        assert CallOk(s, c);
        if call.pc == Done(Err) {
          DoneIsExcused(es, c, ok);
        } else if call.pc.Finish? && call.pc.r == Err {
          FinishIsExcused(es, c, ok);
        }
      } else {
        StepTurns(s, c, ok);
        FinisherIsExcused(es, c, ok);
      }
    }
  }

  lemma FinisherIsExcused(es: seq<Event>, c: Id, ok: bool)
    requires AllExcused(es) && c in Run(es).calls
    ensures var call, all := Run(es).calls[c], es + [Step(c, ok)];
            call.pc.Finish? && call.pc.r == Err ==> Excused(all, c, call.key) && Blame(all, call.key, call.pc.f)
  {
    var call := Run(es).calls[c];
    assert CallExcused(es, c);
    if call.pc.Finish? && call.pc.r == Err {
      PartStays(es, Step(c, ok), c, call.pc.f);
      BlameStays(es, Step(c, ok), call.key, call.pc.f);
    }
  }

  lemma StepFlightExcused(es: seq<Event>, c: Id, ok: bool, f: nat)
    requires AllExcused(es) && Inv(Run(es)) && c in Run(es).calls && f in StepCall(Run(es), c, ok).flights
    ensures f in Run(es + [Step(c, ok)]).flights && FlightExcused(es + [Step(c, ok)], f)
  {
    var s, e := Run(es), Step(c, ok);
    RunSnoc(es, e);
    StepFlights(s, c, ok, f);
    var fl := StepCall(s, c, ok).flights[f];
    if fl.result == Some(Err) {
      if f in s.flights && fl == s.flights[f] {
        SameFlight(es, e, f);
      } else {
        assert CallOk(s, c) && ActiveOk(s, s.calls[c].key);
        FinisherIsExcused(es, c, ok);
      }
    }
  }

  lemma BeginKeepsExcused(es: seq<Event>, e: Event)
    requires AllExcused(es) && !e.Step?
    ensures AllExcused(es + [e])
  {
    var s, t := Run(es), Run(es + [e]);
    RunSnoc(es, e);
    forall c | c in t.calls ensures CallExcused(es + [e], c) {
      if c in s.calls {
        SameCall(es, e, c);
      }
    }
    forall f | f in t.flights ensures FlightExcused(es + [e], f) {
      SameFlight(es, e, f);
    }
  }

  // ----- Main results ---------------------------------------------------------------------------

  /** In every run, a call that returns an error was given an empty name, or took part in a flight in which a step
      failed; a transport call also if the flight of its client failed. A flight fails for the latter reasons only. */
  lemma {:induction false} ErrorsHaveCauses(es: seq<Event>)
    ensures AllExcused(es)
  {
    if es != [] {
      var init, e := es[..|es| - 1], es[|es| - 1];
      ErrorsHaveCauses(init);
      RunKeepsInv(init);
      assert es == init + [e];
      if !e.Step? {
        BeginKeepsExcused(init, e);
      } else if e.call in Run(init).calls {
        RunSnoc(init, e);
        forall d | d in Run(es).calls ensures CallExcused(es, d) {
          StepCallExcused(init, e.call, e.ok, d);
        }
        forall f | f in Run(es).flights ensures FlightExcused(es, f) {
          StepFlightExcused(init, e.call, e.ok, f);
        }
      } else {
        IdleStepKeepsExcused(init, e);
      }
    }
  }

  lemma IdleStepKeepsExcused(es: seq<Event>, e: Event)
    requires AllExcused(es) && e.Step? && e.call !in Run(es).calls
    ensures AllExcused(es + [e])
  {
    var s := Run(es);
    RunSnoc(es, e);
    forall c | c in s.calls ensures CallExcused(es + [e], c) {
      SameCall(es, e, c);
    }
    forall f | f in s.flights ensures FlightExcused(es + [e], f) {
      SameFlight(es, e, f);
    }
  }

  predicate Fails(e: Event) {
    match e
    case BeginBuild(_, channel, _) => channel == ""
    case BeginClient(_, name) => name == ""
    case Step(_, ok) => !ok
  }

  /** In every run without a failing step and without an empty name, no call and no flight ever fails. */
  lemma NothingFailsByItself(es: seq<Event>, c: Id, f: nat)
    requires forall i :: 0 <= i < |es| ==> !Fails(es[i])
    ensures c in Run(es).calls ==> Run(es).calls[c].pc != Done(Err)
    ensures f in Run(es).flights ==> Run(es).flights[f].result != Some(Err)
  {
    ErrorsHaveCauses(es);
    forall g ensures !FailedIn(es, g) {
      NoFailure(es, g);
    }
    if c in Run(es).calls {
      assert CallExcused(es, c);
      if c.Caller? {
        KeysAreValid(es, c);
      }
    }
    if f in Run(es).flights {
      assert FlightExcused(es, f);
    }
  }

  lemma NoFailure(es: seq<Event>, g: nat)
    requires forall i :: 0 <= i < |es| ==> !Fails(es[i])
    ensures !FailedIn(es, g)
  {
  }

  lemma {:induction false} KeysAreValid(es: seq<Event>, c: Id)
    requires forall i :: 0 <= i < |es| ==> !Fails(es[i])
    requires c in Run(es).calls && c.Caller?
    ensures !Invalid(Run(es).calls[c].key)
  {
    if es != [] {
      var init, e := es[..|es| - 1], es[|es| - 1];
      if c in Run(init).calls {
        KeysAreValid(init, c);
      }
      if e.Step? && e.call in Run(init).calls {
        StepTouches(Run(init), e.call, e.ok, c);
      }
    }
  }

  // ----- The client of a transport --------------------------------------------------------------

  /** The call was begun with this key and this client. */
  ghost predicate BegunWith(es: seq<Event>, k: Key, uses: string) {
    exists i :: 0 <= i < |es| && Begins(es[i], k, uses)
  }

  /** A streamable channel has a client of its own; all others share the default one. */
  predicate Begins(e: Event, k: Key, uses: string) {
    match e
    case BeginBuild(_, channel, streamable) =>
      k == Transport(channel) && uses == if streamable then channel else "default"
    case BeginClient(_, name) => k == Client(name)
    case Step(_, _) => false
  }

  lemma BegunStays(es: seq<Event>, e: Event, k: Key, uses: string)
    ensures BegunWith(es, k, uses) ==> BegunWith(es + [e], k, uses)
    ensures Begins(e, k, uses) ==> BegunWith(es + [e], k, uses)
  {
    var all := es + [e];
    assert all[|es|] == e;
    if BegunWith(es, k, uses) {
      var i :| 0 <= i < |es| && Begins(es[i], k, uses);
      assert all[i] == es[i];
    }
  }

  ghost predicate AllBegun(es: seq<Event>) {
    && (forall c :: c in Run(es).calls && Run(es).calls[c].key.Transport? ==>
          BegunWith(es, Run(es).calls[c].key, Run(es).calls[c].uses))
    && (forall b :: b in Run(es).built && b.key.Transport? ==> BegunWith(es, b.key, b.uses))
  }

  lemma StepBuilds(s: State, c: Id, ok: bool, b: Built)
    requires c in s.calls && b in StepCall(s, c, ok).built
    ensures b in s.built || (b.key == s.calls[c].key && b.uses == s.calls[c].uses)
  {
  }

  /** In every run, a transport is built with the client that belongs to the kind of its channel: its own if the channel
      is streamable, otherwise the default one. */
  lemma {:induction false} BuiltAsBegun(es: seq<Event>)
    ensures AllBegun(es)
  {
    if es != [] {
      var init, e := es[..|es| - 1], es[|es| - 1];
      BuiltAsBegun(init);
      assert es == init + [e];
      var s, t := Run(init), Run(es);
      RunSnoc(init, e);
      forall c | c in t.calls && t.calls[c].key.Transport? ensures BegunWith(es, t.calls[c].key, t.calls[c].uses) {
        CallAsBegun(init, e, c);
      }
      forall b | b in t.built && b.key.Transport? ensures BegunWith(es, b.key, b.uses) {
        BegunStays(init, e, b.key, b.uses);
        if e.Step? && e.call in s.calls {
          StepBuilds(s, e.call, e.ok, b);
        }
      }
    }
  }

  lemma CallAsBegun(es: seq<Event>, e: Event, c: Id)
    requires AllBegun(es) && c in Run(es + [e]).calls && Run(es + [e]).calls[c].key.Transport?
    ensures BegunWith(es + [e], Run(es + [e]).calls[c].key, Run(es + [e]).calls[c].uses)
  {
    var call := Run(es + [e]).calls[c];
    RunSnoc(es, e);
    BegunStays(es, e, call.key, call.uses);
    if e.Step? && e.call in Run(es).calls {
      StepTouches(Run(es), e.call, e.ok, c);
    }
  }

  // ----- The fast path --------------------------------------------------------------------------

  /** In every run, a call that finds its value cached when it looks first returns it at once, without a flight. */
  lemma CachedIsReturned(es: seq<Event>, c: Id, ok: bool)
    requires c in Run(es).calls && Run(es).calls[c].pc == FastHeld && Run(es).calls[c].key in Run(es).cache
    ensures var s, t := Run(es), Run(es + [Step(c, ok)]);
            && c in t.calls && t.calls[c].pc == Done(Ok(s.cache[s.calls[c].key]))
            && t.mutex == None && t.flights == s.flights && t.active == s.active
  {
    RunSnoc(es, Step(c, ok));
  }

  // ----- Calls that succeed ---------------------------------------------------------------------

  /** In every run, a call under a new number begins with its first look at the cache, unless its name is empty. */
  lemma BeginIsRecorded(es: seq<Event>, e: Event)
    requires !e.Step? && Caller(e.n) !in Run(es).calls
    ensures var s, t := Run(es), Run(es + [e]);
            && Caller(e.n) in t.calls && t.calls[Caller(e.n)].pc == (if Fails(e) then Done(Err) else FastLock)
            && t.calls[Caller(e.n)].key == (if e.BeginBuild? then Transport(e.channel) else Client(e.name))
            && t.calls - {Caller(e.n)} == s.calls && t.cache == s.cache
  {
    RunSnoc(es, e);
    assert Run(es).calls - {Caller(e.n)} == Run(es).calls;
  }

  lemma StepsKeepCall(es: seq<Event>, e: Event, c: Id)
    requires e.Step? && c in Run(es).calls
    ensures c in Run(es + [e]).calls && Run(es + [e]).calls[c].key == Run(es).calls[c].key
  {
    RunSnoc(es, e);
    if e.call in Run(es).calls {
      RunKeepsInv(es);
      StepKeepsKey(Run(es), e.call, e.ok, c);
    }
  }

  lemma StepKeepsKey(s: State, c: Id, ok: bool, d: Id)
    requires c in s.calls && d in s.calls && NestInv(s)
    ensures d in StepCall(s, c, ok).calls && StepCall(s, c, ok).calls[d].key == s.calls[d].key
  {
    var pc := s.calls[c].pc;
    assert NestOk(s, c);
    if pc.Preparing? && ok {
      assert StepCall(s, c, ok) == CallClient(s, c, pc.f);
    } else {
      StepCalls(s, c, ok);
    }
  }

  lemma {:induction false} CallStays(es: seq<Event>, more: seq<Event>, c: Id)
    requires OnlySteps(more) && c in Run(es).calls
    ensures c in Run(es + more).calls && Run(es + more).calls[c].key == Run(es).calls[c].key
  {
    if more == [] {
      assert es + more == es;
    } else {
      var init, e := more[..|more| - 1], more[|more| - 1];
      CallStays(es, init, c);
      StepsKeepCall(es + init, e, c);
      assert es + more == es + init + [e];
    }
  }

  /** In every run in which nothing fails, a call that begins can be completed, and then it returns the cached value. */
  lemma CallsSucceed(es: seq<Event>, e: Event) returns (more: seq<Event>)
    requires (forall i :: 0 <= i < |es| ==> !Fails(es[i])) && !e.Step? && !Fails(e) && Caller(e.n) !in Run(es).calls
    ensures var t, k := Run(es + [e] + more), if e.BeginBuild? then Transport(e.channel) else Client(e.name);
            && OnlySteps(more) && Caller(e.n) in t.calls && k in t.cache
            && t.calls[Caller(e.n)].pc == Done(Ok(t.cache[k]))
  {
    BeginIsRecorded(es, e);
    more := CallsReturn(es + [e]);
    var all := es + [e] + more;
    CallStays(es + [e], more, Caller(e.n));
    forall i | 0 <= i < |all| ensures !Fails(all[i]) {
    }
    NothingFailsByItself(all, Caller(e.n), 0);
    OneTransportPerChannel(all);
  }
}
