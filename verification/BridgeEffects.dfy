/** What the bridge of pkg/codexappserver/bridge.go achieves, in every run: who gets a startup, when it becomes ready,
    and where every envelope a caller receives comes from.
 */
module BridgeEffects {
  import opened Wrappers
  import opened Bridge
  import opened BridgeProgress

  lemma RunSnoc(es: seq<Event>, e: Event)
    ensures Run(es + [e]) == Apply(Run(es), e)
  {
    assert (es + [e])[..|es|] == es;
  }

  lemma LifeSnoc(es: seq<Event>, e: LifeEvent)
    ensures Run(es + [OfLife(e)]).life == ApplyLife(Run(es).life, e)
  {
    RunSnoc(es, OfLife(e));
    TableChanges(Run(es), e);
  }

  lemma RpcSnoc(es: seq<Event>, e: RpcEvent)
    ensures Run(es + [OfRpc(e)]).rpc == ApplyRpc(Run(es).rpc, e, Run(es).life.stdin.Some?)
    ensures Run(es + [OfRpc(e)]).life == Run(es).life
  {
    RunSnoc(es, OfRpc(e));
  }

  // ----- EnsureStarted --------------------------------------------------------------------------

  /** Waits on a startup channel that is still open. */
  predicate Blocked(l: Life, caller: nat) {
    caller in l.parked && l.parked[caller] !in l.startClosed
  }

  /** In every run, a round of EnsureStarted returns when the bridge is ready or shutting down, joins the startup that
      is under way, and otherwise, once the delay is over, begins one of its own and waits for it. */
  lemma EnsureRound(es: seq<Event>, caller: nat, delayOver: bool)
    requires !Blocked(Run(es).life, caller)
    ensures var l, l' := Run(es).life, Run(es + [OfLife(EnsureStarted(caller, delayOver))]).life;
            && (l.ready || l.shuttingDown ==> caller !in l'.parked && l'.starters == l.starters)
            && (!l.ready && !l.shuttingDown && (l.starting || delayOver) ==>
                  && l'.starting && Blocked(l', caller) && l'.parked[caller] in l'.starters
                  && l'.starters[l'.parked[caller]] != Closing
                  && (l.starting ==> l'.starters == l.starters)
                  && (!l.starting ==> At(l', l'.parked[caller], Begin) && l'.parked[caller] !in l.starters))
            && l'.children == l.children && l'.cmd == l.cmd
  {
    LifeSnoc(es, EnsureStarted(caller, delayOver));
    RunKeepsInv(es);
    StartupsAreOpen(es);
  }

  /** In every run, a caller whose startup channel is open, or whose delay is not over, changes nothing. */
  lemma EnsureWaits(es: seq<Event>, caller: nat, delayOver: bool)
    requires var l := Run(es).life;
             Blocked(l, caller) || (!l.ready && !l.shuttingDown && !l.starting && !delayOver)
    ensures Run(es + [OfLife(EnsureStarted(caller, delayOver))]).life == Run(es).life
  {
    LifeSnoc(es, EnsureStarted(caller, delayOver));
  }

  /** A caller whose context ends is gone, and nothing else changes. */
  lemma CallersMayLeave(es: seq<Event>, caller: nat)
    ensures Run(es + [OfLife(CallerLeaves(caller))]).life ==
              Run(es).life.(parked := Run(es).life.parked - {caller})
  {
    LifeSnoc(es, CallerLeaves(caller));
  }

  /** Stop is remembered, and nothing else changes. */
  lemma StopIsRemembered(es: seq<Event>)
    ensures Run(es + [OfLife(Stop)]).life == Run(es).life.(shuttingDown := true)
  {
    LifeSnoc(es, Stop);
  }

  ghost predicate OpenStartups(l: Life) {
    forall g :: g in l.startClosed ==> Ended(l, g)
  }

  /** A channel is closed by its own goroutine. */
  lemma ClosedFrom(l: Life, e: LifeEvent, g: nat)
    requires g in ApplyLife(l, e).startClosed
    ensures g in l.startClosed || (e == CloseStartup(g) && At(l, g, Closing))
  {
    match e
    case EnsureStarted(k, d) => assert EnsureOnce(l, k, d).startClosed == l.startClosed;
    case Launch(h, ok) => assert LaunchChild(l, h, ok).startClosed == l.startClosed;
    case RecordStart(h) => assert RecordOutcome(l, h).startClosed == l.startClosed;
    case ExitSection(c) => assert ExitChild(l, c).startClosed == l.startClosed;
    case _ =>
  }

  lemma OpenStartupsStep(l: Life, e: LifeEvent)
    requires OpenStartups(l) && Numbered(l)
    ensures OpenStartups(ApplyLife(l, e))
  {
    forall g | g in ApplyLife(l, e).startClosed ensures Ended(ApplyLife(l, e), g) {
      ClosedFrom(l, e, g);
      if g in l.startClosed {
        StaysEnded(l, e, g);
      }
    }
  }

  lemma {:induction false} StartupsAreOpen(es: seq<Event>)
    ensures OpenStartups(Run(es).life)
  {
    if es != [] {
      var init, e := es[..|es| - 1], es[|es| - 1];
      StartupsAreOpen(init);
      RunKeepsInv(init);
      if e.OfLife? {
        OpenStartupsStep(Run(init).life, e.l);
        TableChanges(Run(init), e.l);
      }
    }
  }

  // ----- Becoming ready -------------------------------------------------------------------------

  /** In every run, a startup that may launch does: a new child, the command of the bridge, handshake next. */
  lemma LaunchStarts(es: seq<Event>, g: nat)
    requires At(Run(es).life, g, Begin) && !Run(es).life.shuttingDown
    ensures var l, l' := Run(es).life, Run(es + [OfLife(Launch(g, true))]).life;
            && l'.children == l.children + 1 && l'.cmd == Some(l.children) && l'.stdin == l'.cmd && l'.running
            && l'.live == {l.children} && At(l', g, Initializing(l.children))
  {
    LifeSnoc(es, Launch(g, true));
    RunKeepsInv(es);
  }

  /** In every run, a launch that fails, or comes after Stop, starts nothing, and the startup goes on to report it. */
  lemma LaunchFails(es: seq<Event>, g: nat, ok: bool)
    requires At(Run(es).life, g, Begin) && (Run(es).life.shuttingDown || !ok)
    ensures var l, l' := Run(es).life, Run(es + [OfLife(Launch(g, ok))]).life;
            At(l', g, Failing) && l' == l.(starters := l'.starters) && l'.starters.Keys == l.starters.Keys
  {
    LifeSnoc(es, Launch(g, ok));
  }

  /** In every run, the handshake decides how a startup goes on, and one that failed waits until its child is reaped. */
  lemma HandshakeDecides(es: seq<Event>, g: nat, c: nat)
    requires At(Run(es).life, g, Initializing(c))
    ensures At(Run(es + [OfLife(InitDone(g, true))]).life, g, Finishing)
    ensures At(Run(es + [OfLife(InitDone(g, false))]).life, g, AwaitingExit(c))
  {
    LifeSnoc(es, InitDone(g, true));
    LifeSnoc(es, InitDone(g, false));
  }

  lemma ReapedEndsWait(es: seq<Event>, g: nat, c: nat)
    requires At(Run(es).life, g, AwaitingExit(c))
    ensures At(Run(es + [OfLife(SeesExit(g))]).life, g, if c in Run(es).life.reaped then Failing else AwaitingExit(c))
  {
    LifeSnoc(es, SeesExit(g));
  }

  /** In every run, a startup whose handshake is done makes the bridge ready exactly if its child is still running and
      nobody stops; one that failed does not. Either way starting ends. */
  lemma RecordEndsStartup(es: seq<Event>, g: nat)
    requires At(Run(es).life, g, Finishing) || At(Run(es).life, g, Failing)
    ensures var l, l' := Run(es).life, Run(es + [OfLife(RecordStart(g))]).life;
            && !l'.starting && At(l', g, Closing) && l'.cmd == l.cmd
            && (l'.ready <==> At(l, g, Finishing) && l.cmd.Some? && !l.shuttingDown)
  {
    LifeSnoc(es, RecordStart(g));
    RunKeepsInv(es);
    RecordStep(Run(es).life, g);
  }

  lemma RecordStep(l: Life, g: nat)
    requires OneChild(l) && (At(l, g, Finishing) || At(l, g, Failing))
    ensures var l' := RecordOutcome(l, g);
            && !l'.starting && At(l', g, Closing) && l'.cmd == l.cmd
            && (l'.ready <==> At(l, g, Finishing) && l.cmd.Some? && !l.shuttingDown)
  {
  }

  /** A handshake with child `c` has succeeded. */
  ghost predicate Initialized(es: seq<Event>, c: nat) {
    exists i, g :: 0 <= i < |es| && es[i] == OfLife(InitDone(g, true)) && At(Run(es[..i]).life, g, Initializing(c))
  }

  lemma InitializedSnoc(es: seq<Event>, e: Event, c: nat)
    ensures Initialized(es, c) ==> Initialized(es + [e], c)
    ensures e.OfLife? && e.l.InitDone? && e.l.ok && At(Run(es).life, e.l.g, Initializing(c)) ==>
              Initialized(es + [e], c)
  {
    var all := es + [e];
    assert all[..|es|] == es && all[|es|] == e;
    if Initialized(es, c) {
      var i, g :| 0 <= i < |es| && es[i] == OfLife(InitDone(g, true)) && At(Run(es[..i]).life, g, Initializing(c));
      assert all[i] == es[i] && all[..i] == es[..i];
    }
  }

  ghost predicate ReadyIsInitialized(es: seq<Event>) {
    var l := Run(es).life;
    && (l.ready && l.cmd.Some? ==> Initialized(es, l.cmd.value))
    && (forall g :: g in l.starters && l.starters[g] == Finishing && l.cmd.Some? ==> Initialized(es, l.cmd.value))
  }

  /** How ready, the command and a finishing startup come about. */
  lemma ReadySteps(l: Life, e: LifeEvent, g: nat)
    requires LifeInv(l)
    ensures var l' := ApplyLife(l, e);
            && (|| l'.cmd == l.cmd || l'.cmd == None
                || (!l'.ready && forall h :: h in l'.starters ==> l'.starters[h] != Finishing))
            && (l'.ready ==> l.ready || (e.RecordStart? && At(l, e.g, Finishing)))
            && (At(l', g, Finishing) ==>
                  At(l, g, Finishing) || (e == InitDone(g, true) && g in l.starters && l.starters[g].Initializing?))
  {
    match e
    case EnsureStarted(k, d) => assert EnsureOnce(l, k, d).cmd == l.cmd;
    case Launch(h, ok) => LaunchSteps(l, h, ok);
    case RecordStart(h) => assert RecordOutcome(l, h).cmd == l.cmd;
    case ExitSection(c) => assert ExitChild(l, c).starters == l.starters;
    case _ =>
  }

  lemma LaunchSteps(l: Life, h: nat, ok: bool)
    requires LifeInv(l)
    ensures var l' := LaunchChild(l, h, ok);
            && (l'.cmd == l.cmd || (!l'.ready && forall k :: k in l'.starters ==> l'.starters[k] != Finishing))
            && (l'.ready ==> l.ready)
            && (forall g :: At(l', g, Finishing) ==> At(l, g, Finishing))
  {
  }

  /** In every run, a bridge that is ready has the child with which the handshake succeeded. */
  lemma {:induction false} ReadyMeansInitialized(es: seq<Event>)
    ensures ReadyIsInitialized(es)
    ensures Run(es).life.ready ==> Run(es).life.cmd.Some? && Initialized(es, Run(es).life.cmd.value)
  {
    RunKeepsInv(es);
    if es != [] {
      var init, e := es[..|es| - 1], es[|es| - 1];
      ReadyMeansInitialized(init);
      RunKeepsInv(init);
      assert es == init + [e];
      var l, l' := Run(init).life, Run(es).life;
      if e.OfLife? {
        LifeSnoc(init, e.l);
        if l'.cmd.Some? {
          InitializedSnoc(init, e, l'.cmd.value);
          ReadyStays(init, e.l);
        }
      } else {
        RpcSnoc(init, e.r);
        if l'.cmd.Some? {
          InitializedSnoc(init, e, l'.cmd.value);
        }
      }
    }
  }

  lemma ReadyStays(init: seq<Event>, e: LifeEvent)
    requires LifeInv(Run(init).life) && ReadyIsInitialized(init)
    requires var l' := ApplyLife(Run(init).life, e);
             && Run(init + [OfLife(e)]).life == l' && l'.cmd.Some?
             && (Initialized(init, l'.cmd.value) ==> Initialized(init + [OfLife(e)], l'.cmd.value))
             && (e.InitDone? && e.ok && At(Run(init).life, e.g, Initializing(l'.cmd.value)) ==>
                   Initialized(init + [OfLife(e)], l'.cmd.value))
    ensures ReadyIsInitialized(init + [OfLife(e)])
  {
    var l := Run(init).life;
    var l' := ApplyLife(l, e);
    if l'.ready {
      ReadySteps(l, e, 0);
    }
    forall g | g in l'.starters && l'.starters[g] == Finishing ensures Initialized(init + [OfLife(e)], l'.cmd.value) {
      ReadySteps(l, e, g);
    }
  }

  /** The bridge while its first startup runs. */
  function FirstStartup(phase: Phase): Life {
    IDLE.(starting := true, startups := 1, starters := map[1 := phase], parked := map[0 := 1])
  }

  function WithChild(l: Life): Life {
    l.(children := 1, cmd := Some(0), stdin := Some(0), running := true, live := {0}, watchers := {0})
  }

  lemma FirstSteps()
    ensures ApplyLife(IDLE, EnsureStarted(0, true)) == FirstStartup(Begin)
    ensures ApplyLife(FirstStartup(Begin), Launch(1, true)) == WithChild(FirstStartup(Initializing(0)))
  {
    assert {} + {0} == {0};
    assert map[1 := Begin][1 := Initializing(0)] == map[1 := Initializing(0)];
  }

  lemma LastSteps()
    ensures ApplyLife(WithChild(FirstStartup(Initializing(0))), InitDone(1, true)) == WithChild(FirstStartup(Finishing))
    ensures ApplyLife(WithChild(FirstStartup(Finishing)), RecordStart(1)) ==
              WithChild(FirstStartup(Closing)).(starting := false, ready := true)
    ensures var l := ApplyLife(WithChild(FirstStartup(Closing)).(starting := false, ready := true), CloseStartup(1));
            l.ready && l.running && l.live == {0} && l.cmd == Some(0) && !l.starting && l.parked == map[0 := 1]
            && 1 in l.startClosed
  {
    assert map[1 := Initializing(0)][1 := Finishing] == map[1 := Finishing];
    assert map[1 := Finishing][1 := Closing] == map[1 := Closing];
  }

  /** A run that makes the bridge ready, and in which the first caller then returns. */
  lemma BridgeGetsReady() returns (es: seq<Event>)
    ensures var l := Run(es).life;
            l.ready && l.running && l.live == {0} && l.cmd == Some(0) && l.parked == map[] && !l.starting
  {
    FirstSteps();
    LastSteps();
    var e1 := [] + [OfLife(EnsureStarted(0, true))];
    LifeSnoc([], EnsureStarted(0, true));
    LifeSnoc(e1, Launch(1, true));
    var e2 := e1 + [OfLife(Launch(1, true))];
    LifeSnoc(e2, InitDone(1, true));
    var e3 := e2 + [OfLife(InitDone(1, true))];
    LifeSnoc(e3, RecordStart(1));
    var e4 := e3 + [OfLife(RecordStart(1))];
    LifeSnoc(e4, CloseStartup(1));
    var e5 := e4 + [OfLife(CloseStartup(1))];
    LifeSnoc(e5, EnsureStarted(0, true));
    es := e5 + [OfLife(EnsureStarted(0, true))];
    ReturnsWhenReady(Run(e5).life);
  }

  lemma ReturnsWhenReady(l: Life)
    requires l.ready && l.parked == map[0 := 1] && 1 in l.startClosed
    ensures ApplyLife(l, EnsureStarted(0, true)) == l.(parked := map[])
  {
  }

  // ----- The end of a child ---------------------------------------------------------------------

  /** In every run, the exit of the child leaves the bridge without command, stdin and readiness, and answers every
      pending call with the exit error, others not at all. */
  lemma ExitAnswersAll(es: seq<Event>, c: nat)
    requires c in Run(es).life.watchers && c !in Run(es).life.live
    ensures var s, t := Run(es), Run(es + [OfLife(ExitSection(c))]);
            && t.life.cmd == None && t.life.stdin == None && !t.life.running && !t.life.ready && c in t.life.exiting
            && t.rpc.pending == {} && t.rpc.inbox.Keys == s.rpc.inbox.Keys
            && (forall id :: id in s.rpc.inbox ==>
                  t.rpc.inbox[id] == if id in s.rpc.pending then [ExitError] else s.rpc.inbox[id])
  {
    RunSnoc(es, OfLife(ExitSection(c)));
    RunKeepsInv(es);
  }

  // ----- Calls ----------------------------------------------------------------------------------

  function Draws(es: seq<Event>): nat {
    if es == [] then 0 else Draws(es[..|es| - 1]) + if es[|es| - 1] == OfRpc(DrawId) then 1 else 0
  }

  /** In every run, calls are numbered from one, without a gap. */
  lemma {:induction false} IdsAreConsecutive(es: seq<Event>)
    ensures Run(es).rpc.nextId == Draws(es)
    ensures var r := Run(es + [OfRpc(DrawId)]).rpc; Draws(es) + 1 in r.drawn && r.pending == Run(es).rpc.pending
  {
    RpcSnoc(es, DrawId);
    if es != [] {
      var init, e := es[..|es| - 1], es[|es| - 1];
      IdsAreConsecutive(init);
      assert es == init + [e];
      if e.OfLife? {
        TableChanges(Run(init), e.l);
      } else {
        NextIdStep(Run(init).rpc, e.r, Run(init).life.stdin.Some?);
      }
    }
  }

  lemma NextIdStep(r: Rpc, e: RpcEvent, open: bool)
    ensures ApplyRpc(r, e, open).nextId == r.nextId + if e == DrawId then 1 else 0
  {
  }

  /** In every run, a call with a number drawn is registered exactly if stdin is open. */
  lemma RegisterIff(es: seq<Event>, id: nat, written: bool)
    requires id in Run(es).rpc.drawn
    ensures var s, t := Run(es), Run(es + [OfRpc(Register(id, written))]);
            && id !in s.rpc.inbox && id !in t.rpc.drawn
            && if s.life.stdin.Some?
               then t.rpc.pending == s.rpc.pending + {id} && id in t.rpc.inbox && t.rpc.inbox[id] == []
                    && id in t.rpc.waiters && t.rpc.waiters[id] == (if written then Waiting else GivingUp)
               else t.rpc.pending == s.rpc.pending && t.rpc.inbox == s.rpc.inbox && t.rpc.waiters == s.rpc.waiters
  {
    RpcSnoc(es, Register(id, written));
    RunKeepsInv(es);
  }

  /** In every run, a caller that gives up leaves the table, and one that has an answer returns with it. */
  lemma CallersLeave(es: seq<Event>, id: nat)
    requires id in Run(es).rpc.waiters
    ensures var r := Run(es).rpc;
            && (r.waiters[id] == Waiting ==>
                  var t := Run(es + [OfRpc(GiveUp(id))]).rpc; t == r.(waiters := r.waiters[id := GivingUp]))
            && (r.waiters[id] == GivingUp ==>
                  var t := Run(es + [OfRpc(Unregister(id))]).rpc;
                  t == r.(waiters := r.waiters[id := Gone], pending := r.pending - {id}))
            && (r.waiters[id] == Waiting && id in r.inbox ==>
                  var t := Run(es + [OfRpc(Receive(id))]).rpc;
                  t == if r.inbox[id] == [] then r else r.(waiters := r.waiters[id := Gone]))
  {
    RpcSnoc(es, GiveUp(id));
    RpcSnoc(es, Unregister(id));
    RpcSnoc(es, Receive(id));
  }

  ghost predicate NoLeak(r: Rpc) {
    forall id :: id in r.pending ==> id in r.waiters && r.waiters[id] != Gone
  }

  /** In every run, the table holds no caller that has left. */
  lemma {:induction false} NobodyLeaks(es: seq<Event>)
    ensures NoLeak(Run(es).rpc)
  {
    if es != [] {
      var init, e := es[..|es| - 1], es[|es| - 1];
      NobodyLeaks(init);
      RunKeepsInv(init);
      if e.OfLife? {
        TableChanges(Run(init), e.l);
      } else {
        LeakStep(Run(init).rpc, e.r, Run(init).life.stdin.Some?);
      }
    }
  }

  lemma LeakStep(r: Rpc, e: RpcEvent, open: bool)
    requires RpcInv(r) && NoLeak(r)
    ensures NoLeak(ApplyRpc(r, e, open))
  {
  }

  // ----- Where envelopes come from --------------------------------------------------------------

  /** A reply with this body was read for this call while the call was pending. */
  ghost predicate WasMatched(es: seq<Event>, id: nat, body: string) {
    exists i, k :: 0 <= i < |es| && es[i] == OfRpc(Match(k, id, body)) && id in Run(es[..i]).rpc.pending
  }

  /** The child exited while the call was pending. */
  ghost predicate WasFailed(es: seq<Event>, id: nat) {
    exists i, c :: 0 <= i < |es| && es[i] == OfLife(ExitSection(c)) && id in Run(es[..i]).rpc.pending
                   && c in Run(es[..i]).life.watchers && c !in Run(es[..i]).life.live
  }

  ghost predicate HasCause(es: seq<Event>, id: nat, m: Envelope) {
    match m
    case Reply(i, body) => i == id && WasMatched(es, id, body)
    case ExitError => WasFailed(es, id)
  }

  ghost predicate Caused(es: seq<Event>) {
    var r := Run(es).rpc;
    && (forall k :: k in r.held ==> WasMatched(es, r.held[k].id, r.held[k].body))
    && (forall id :: id in r.inbox && r.inbox[id] != [] ==> HasCause(es, id, r.inbox[id][0]))
  }

  lemma CauseStays(es: seq<Event>, e: Event)
    ensures forall id, body :: WasMatched(es, id, body) ==> WasMatched(es + [e], id, body)
    ensures forall id :: WasFailed(es, id) ==> WasFailed(es + [e], id)
  {
    var all := es + [e];
    forall id, body | WasMatched(es, id, body) ensures WasMatched(all, id, body) {
      var i, k :| 0 <= i < |es| && es[i] == OfRpc(Match(k, id, body)) && id in Run(es[..i]).rpc.pending;
      assert all[i] == es[i] && all[..i] == es[..i];
    }
    forall id | WasFailed(es, id) ensures WasFailed(all, id) {
      var i, c :| 0 <= i < |es| && es[i] == OfLife(ExitSection(c)) && id in Run(es[..i]).rpc.pending
                  && c in Run(es[..i]).life.watchers && c !in Run(es[..i]).life.live;
      assert all[i] == es[i] && all[..i] == es[..i];
    }
  }

  lemma MatchIsCause(es: seq<Event>, k: nat, id: nat, body: string)
    requires id in Run(es).rpc.pending
    ensures WasMatched(es + [OfRpc(Match(k, id, body))], id, body)
  {
    var all := es + [OfRpc(Match(k, id, body))];
    assert all[..|es|] == es && all[|es|] == OfRpc(Match(k, id, body));
  }

  lemma ExitIsCause(es: seq<Event>, c: nat, id: nat)
    requires id in Run(es).rpc.pending && c in Run(es).life.watchers && c !in Run(es).life.live
    ensures WasFailed(es + [OfLife(ExitSection(c))], id)
  {
    var all := es + [OfLife(ExitSection(c))];
    assert all[..|es|] == es && all[|es|] == OfLife(ExitSection(c));
  }

  lemma ExitKeepsCaused(es: seq<Event>, c: nat)
    requires Caused(es) && Inv(Run(es))
    ensures Caused(es + [OfLife(ExitSection(c))])
  {
    var e := OfLife(ExitSection(c));
    var s := Run(es);
    CauseStays(es, e);
    RunSnoc(es, e);
    if c in s.life.watchers && c !in s.life.live {
      forall id | id in s.rpc.pending ensures WasFailed(es + [e], id) {
        ExitIsCause(es, c, id);
      }
    }
  }

  /** A held reply was held before, or has just been matched. */
  lemma HeldFrom(r: Rpc, e: RpcEvent, open: bool, k: nat)
    requires k in ApplyRpc(r, e, open).held
    ensures var h := ApplyRpc(r, e, open).held[k];
            || (k in r.held && r.held[k] == h)
            || (e == Match(k, h.id, h.body) && h.id in r.pending)
  {
  }

  lemma DeliveredFrom(r: Rpc, k: nat, id: nat)
    requires OneEnvelope(r) && id in DeliverReply(r, k).inbox && DeliverReply(r, k).inbox[id] != []
    ensures var m := DeliverReply(r, k).inbox[id][0];
            || (id in r.inbox && r.inbox[id] != [] && r.inbox[id][0] == m)
            || (k in r.held && r.held[k].id == id && m == Reply(id, r.held[k].body))
  {
  }

  /** An envelope was there before, or a reader that held it has just sent it. */
  lemma EnvelopeFrom(r: Rpc, e: RpcEvent, open: bool, id: nat)
    requires OneEnvelope(r) && id in ApplyRpc(r, e, open).inbox && ApplyRpc(r, e, open).inbox[id] != []
    ensures var m := ApplyRpc(r, e, open).inbox[id][0];
            || (id in r.inbox && r.inbox[id] != [] && r.inbox[id][0] == m)
            || (e.Deliver? && e.reader in r.held && r.held[e.reader].id == id && m == Reply(id, r.held[e.reader].body))
  {
    match e
    case Deliver(k) => DeliveredFrom(r, k, id);
    case Register(i, w) => assert RegisterCall(r, i, w, open).inbox[id] == r.inbox[id];
    case _ => assert ApplyRpc(r, e, open).inbox == r.inbox;
  }

  lemma RpcKeepsCaused(es: seq<Event>, e: RpcEvent)
    requires Caused(es) && Inv(Run(es))
    ensures Caused(es + [OfRpc(e)])
  {
    var r, open, all := Run(es).rpc, Run(es).life.stdin.Some?, es + [OfRpc(e)];
    CauseStays(es, OfRpc(e));
    RpcSnoc(es, e);
    var r' := Run(all).rpc;
    forall k | k in r'.held ensures WasMatched(all, r'.held[k].id, r'.held[k].body) {
      HeldFrom(r, e, open, k);
      if e.Match? && e.id in r.pending {
        MatchIsCause(es, e.reader, e.id, e.body);
      }
    }
    forall id | id in r'.inbox && r'.inbox[id] != [] ensures HasCause(all, id, r'.inbox[id][0]) {
      EnvelopeFrom(r, e, open, id);
    }
  }

  /** In every run, a reply in a caller's channel was read from stdout, for that call and with that body, while the call
      was pending; an exit error there means that the child exited while it was. */
  lemma {:induction false} EnvelopesHaveCauses(es: seq<Event>)
    ensures Caused(es)
  {
    if es != [] {
      var init, e := es[..|es| - 1], es[|es| - 1];
      EnvelopesHaveCauses(init);
      RunKeepsInv(init);
      assert es == init + [e];
      if e.OfRpc? {
        RpcKeepsCaused(init, e.r);
      } else if e.l.ExitSection? {
        ExitKeepsCaused(init, e.l.child);
      } else {
        CauseStays(init, e);
        RunSnoc(init, e);
      }
    }
  }

  // ----- A reply reaches its caller -------------------------------------------------------------

  ghost predicate Holding(r: Rpc, k: nat, id: nat, body: string) {
    k in r.held && r.held[k] == HeldReply(id, body)
  }

  lemma HoldingStays(s: State, e: Event, k: nat, id: nat, body: string)
    requires Holding(s.rpc, k, id, body) && e != OfRpc(Deliver(k))
    ensures Holding(Apply(s, e).rpc, k, id, body)
  {
    if e.OfLife? {
      TableChanges(s, e.l);
    }
  }

  lemma {:induction false} ReaderKeepsReply(es: seq<Event>, k: nat, id: nat, body: string, more: seq<Event>)
    requires id in Run(es).rpc.pending && k !in Run(es).rpc.held
    requires forall i :: 0 <= i < |more| ==> more[i] != OfRpc(Deliver(k))
    ensures Holding(Run(es + [OfRpc(Match(k, id, body))] + more).rpc, k, id, body)
  {
    var matched := es + [OfRpc(Match(k, id, body))];
    if more == [] {
      RpcSnoc(es, Match(k, id, body));
      assert matched + more == matched;
    } else {
      var init, e := more[..|more| - 1], more[|more| - 1];
      ReaderKeepsReply(es, k, id, body, init);
      RunSnoc(matched + init, e);
      assert matched + more == matched + init + [e];
      HoldingStays(Run(matched + init), e, k, id, body);
    }
  }

  lemma ChannelsHoldOne(es: seq<Event>)
    ensures OneEnvelope(Run(es).rpc)
  {
    RunKeepsInv(es);
  }

  lemma DeliverHeld(r: Rpc, k: nat, id: nat, body: string)
    requires OneEnvelope(r) && Holding(r, k, id, body)
    ensures var r' := DeliverReply(r, k);
            id in r'.inbox && r'.inbox[id] == [Reply(id, body)] && k !in r'.held
  {
  }

  lemma DeliverHeldInRun(es: seq<Event>, k: nat, id: nat, body: string)
    requires Holding(Run(es).rpc, k, id, body)
    ensures var r := Run(es + [OfRpc(Deliver(k))]).rpc;
            id in r.inbox && r.inbox[id] == [Reply(id, body)] && k !in r.held
  {
    ChannelsHoldOne(es);
    RpcSnoc(es, Deliver(k));
    DeliverHeld(Run(es).rpc, k, id, body);
  }

  /** In every run, a reply to a pending call reaches that call's channel, alone and unchanged, whatever happens between
      the reading and the send. */
  lemma ReplyIsDelivered(es: seq<Event>, k: nat, id: nat, body: string, more: seq<Event>)
    requires id in Run(es).rpc.pending && k !in Run(es).rpc.held
    requires forall i :: 0 <= i < |more| ==> more[i] != OfRpc(Deliver(k))
    ensures var r := Run(es + [OfRpc(Match(k, id, body))] + more + [OfRpc(Deliver(k))]).rpc;
            id in r.inbox && r.inbox[id] == [Reply(id, body)] && k !in r.held
  {
    ReaderKeepsReply(es, k, id, body, more);
    DeliverHeldInRun(es + [OfRpc(Match(k, id, body))] + more, k, id, body);
  }

  lemma AnswerRpcStep(r: Rpc, e: RpcEvent, open: bool, id: nat)
    requires Ids(r) && OneEnvelope(r) && id in r.inbox && r.inbox[id] != []
    ensures id in ApplyRpc(r, e, open).inbox && ApplyRpc(r, e, open).inbox[id] == r.inbox[id]
  {
    match e
    case Deliver(k) => assert k in r.held ==> r.held[k].id != id;
    case Register(i, w) => assert i in r.drawn ==> i != id;
    case _ => assert ApplyRpc(r, e, open).inbox == r.inbox;
  }

  lemma AnswerStep(s: State, e: Event, id: nat)
    requires Inv(s) && id in s.rpc.inbox && s.rpc.inbox[id] != []
    ensures id in Apply(s, e).rpc.inbox && Apply(s, e).rpc.inbox[id] == s.rpc.inbox[id]
  {
    if e.OfLife? {
      TableChanges(s, e.l);
      assert id !in s.rpc.pending;
    } else {
      AnswerRpcStep(s.rpc, e.r, s.life.stdin.Some?, id);
    }
  }

  lemma AnswerStays(es: seq<Event>, e: Event, id: nat)
    requires id in Run(es).rpc.inbox && Run(es).rpc.inbox[id] != []
    ensures id in Run(es + [e]).rpc.inbox && Run(es + [e]).rpc.inbox[id] == Run(es).rpc.inbox[id]
  {
    RunKeepsInv(es);
    RunSnoc(es, e);
    AnswerStep(Run(es), e, id);
  }

  /** In every run, an answered call keeps its answer. */
  lemma {:induction false} AnswersStay(es: seq<Event>, id: nat, more: seq<Event>)
    requires id in Run(es).rpc.inbox && Run(es).rpc.inbox[id] != []
    ensures id in Run(es + more).rpc.inbox && Run(es + more).rpc.inbox[id] == Run(es).rpc.inbox[id]
  {
    if more == [] {
      assert es + more == es;
    } else {
      var init, e := more[..|more| - 1], more[|more| - 1];
      AnswersStay(es, id, init);
      AnswerStays(es + init, e, id);
      assert es + more == es + init + [e];
    }
  }
}
