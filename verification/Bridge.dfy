/** The Codex app-server bridge (`Bridge` in pkg/codexappserver/bridge.go): a supervised child process
    and the table that pairs JSON-RPC replies with waiting callers. Each critical section of `mu`, each
    channel operation and each act of the child is one event, interleaved in any order.
 */
module Bridge {
  import opened Wrappers

  // ----- Child lifecycle ------------------------------------------------------------------------

  /** Where a startProcess goroutine stands. */
  datatype Phase =
    | Begin                        // before the critical section of startProcessLocked
    | Initializing(child: nat)     // child running, initialize handshake in progress
    | AwaitingExit(child: nat)     // handshake failed, child killed, waiting for waitDone
    | Failing                      // about to record the error
    | Finishing                    // about to run finishProcessStartLocked
    | Closing                      // only `close(done)` is left

  datatype Life = Life(
    shuttingDown: bool, starting: bool, ready: bool, running: bool,
    cmd: Option<nat>, stdin: Option<nat>,
    children: nat,                 // children started so far; the next one gets this number
    live: set<nat>,                // not yet exited
    watchers: set<nat>,            // waitForExit goroutines before their critical section
    exiting: set<nat>,             // ... after it, before `close(done)`
    reaped: set<nat>,              // waitDone closed
    startups: nat,                 // startup attempts so far; `startupCh` is the channel of the last one
    starters: map<nat, Phase>,
    startClosed: set<nat>,         // closed startup channels
    parked: map<nat, nat>,         // EnsureStarted callers blocked on a startup channel
    staleExit: bool)               // an exit watcher ever took the stale-command branch

  const IDLE := Life(false, false, false, false, None, None, 0, {}, {}, {}, {}, 0, map[], {}, map[], false)

  datatype LifeEvent =
    | EnsureStarted(caller: nat, delayOver: bool)
    | CallerLeaves(caller: nat)
    | PipeFails(g: nat)
    | Launch(g: nat, ok: bool)
    | InitDone(g: nat, ok: bool)
    | SeesExit(g: nat)
    | RecordStart(g: nat)
    | CloseStartup(g: nat)
    | ChildDies(child: nat)
    | ExitSection(child: nat)
    | CloseWait(child: nat)
    | Stop

  predicate At(l: Life, g: nat, phase: Phase) {
    g in l.starters && l.starters[g] == phase
  }

  /** One round of the EnsureStarted loop. */
  function EnsureOnce(l: Life, caller: nat, delayOver: bool): Life {
    if caller in l.parked && l.parked[caller] !in l.startClosed then l
    else if l.shuttingDown || l.ready then l.(parked := l.parked - {caller})
    else if l.starting then l.(parked := l.parked[caller := l.startups])
    else if !delayOver then l
    else
      var g := l.startups + 1;
      l.(starting := true, startups := g, starters := l.starters[g := Begin], parked := l.parked[caller := g])
  }

  /** The critical section of startProcessLocked. */
  function LaunchChild(l: Life, g: nat, ok: bool): Life {
    if !At(l, g, Begin) then l
    else if l.shuttingDown || !ok then l.(starters := l.starters[g := Failing])
    else
      var c := l.children;
      l.(children := c + 1, cmd := Some(c), stdin := Some(c), running := true,
         live := l.live + {c}, watchers := l.watchers + {c},
         starters := l.starters[g := Initializing(c)])
  }

  /** The critical sections that end startProcess. */
  function RecordOutcome(l: Life, g: nat): Life {
    if At(l, g, Failing) then
      l.(starting := false, ready := false, starters := l.starters[g := Closing])
    else if At(l, g, Finishing) then
      l.(starting := false, ready := l.running && !l.shuttingDown, starters := l.starters[g := Closing])
    else l
  }

  /** The critical section of waitForExit. */
  function ExitChild(l: Life, c: nat): Life {
    if c !in l.watchers || c in l.live then l
    else
      var l' := l.(watchers := l.watchers - {c}, exiting := l.exiting + {c});
      if l.cmd != Some(c) then l'.(staleExit := true)
      else l'.(ready := false, stdin := None, cmd := None, running := false)
  }

  /** A startup goroutine moves on without the mutex. */
  function MoveStarter(l: Life, g: nat, phase: Phase): Life {
    l.(starters := l.starters[g := phase])
  }

  function ApplyLife(l: Life, e: LifeEvent): Life {
    match e
    case EnsureStarted(caller, delayOver) => EnsureOnce(l, caller, delayOver)
    case CallerLeaves(caller) => l.(parked := l.parked - {caller})
    case PipeFails(g) => if At(l, g, Begin) then MoveStarter(l, g, Failing) else l
    case Launch(g, ok) => LaunchChild(l, g, ok)
    case InitDone(g, ok) =>
      if g !in l.starters || !l.starters[g].Initializing? then l
      else MoveStarter(l, g, if ok then Finishing else AwaitingExit(l.starters[g].child))
    case SeesExit(g) =>
      if g in l.starters && l.starters[g].AwaitingExit? && l.starters[g].child in l.reaped
      then MoveStarter(l, g, Failing) else l
    case RecordStart(g) => RecordOutcome(l, g)
    case CloseStartup(g) =>
      if At(l, g, Closing) then l.(starters := l.starters - {g}, startClosed := l.startClosed + {g}) else l
    case ChildDies(c) => l.(live := l.live - {c})
    case ExitSection(c) => ExitChild(l, c)
    case CloseWait(c) =>
      if c in l.exiting then l.(exiting := l.exiting - {c}, reaped := l.reaped + {c}) else l
    case Stop => l.(shuttingDown := true)
  }

  /** One child at a time: its command, its stdin and its exit watcher come and go together. */
  ghost predicate OneChild(l: Life) {
    && l.live <= l.watchers
    && (forall c :: c in l.watchers ==> l.cmd == Some(c))
    && (l.cmd.Some? ==> l.cmd.value in l.watchers)
    && l.stdin == l.cmd
    && (l.running <==> l.cmd.Some?)
    && !l.staleExit
  }

  ghost predicate Numbered(l: Life) {
    && (forall c :: c in l.watchers ==> c < l.children && c !in l.exiting && c !in l.reaped)
    && (forall c :: c in l.exiting ==> c < l.children)
    && (forall c :: c in l.reaped ==> c < l.children)
    && (forall g :: g in l.starters ==> g <= l.startups)
  }

  /** Every child ever started still has its exit watcher, or has been reaped. */
  ghost predicate Watched(l: Life) {
    forall c: nat :: c < l.children ==> c in l.watchers || c in l.exiting || c in l.reaped
  }

  ghost predicate Flags(l: Life) {
    && (l.ready ==> l.running && !l.starting)
    && (l.running ==> l.ready || l.starting || l.shuttingDown)
  }

  /** `starting` exactly while the newest startup goroutine has not recorded its outcome. */
  ghost predicate Starters(l: Life) {
    && (l.starting <==> l.startups in l.starters && l.starters[l.startups] != Closing)
    && (forall g :: g in l.starters && l.starters[g] != Closing ==> g == l.startups)
    && (forall g :: g in l.starters ==>
          match l.starters[g]
          case Begin => !l.running
          case Failing => !l.running
          case Initializing(c) => c < l.children && (l.running ==> l.cmd == Some(c))
          case AwaitingExit(c) => c < l.children && (l.running ==> l.cmd == Some(c))
          case _ => true)
  }

  /** A caller blocked on a startup channel waits for a goroutine that will still close it. */
  ghost predicate Parked(l: Life) {
    forall k :: k in l.parked ==> l.parked[k] in l.startClosed || l.parked[k] in l.starters
  }

  ghost predicate LifeInv(l: Life) {
    OneChild(l) && Numbered(l) && Watched(l) && Flags(l) && Starters(l) && Parked(l)
  }

  lemma LaunchKeepsLife(l: Life, g: nat, ok: bool)
    requires LifeInv(l)
    ensures LifeInv(LaunchChild(l, g, ok))
  {
    if At(l, g, Begin) && !l.shuttingDown && ok {
      assert l.watchers == {};
    }
  }

  lemma RecordKeepsLife(l: Life, g: nat)
    requires LifeInv(l)
    ensures LifeInv(RecordOutcome(l, g))
  {
  }

  lemma ExitKeepsLife(l: Life, c: nat)
    requires LifeInv(l)
    ensures LifeInv(ExitChild(l, c))
  {
  }

  lemma EnsureKeepsLife(l: Life, caller: nat, delayOver: bool)
    requires LifeInv(l)
    ensures LifeInv(EnsureOnce(l, caller, delayOver))
  {
  }

  /** A move that stays before the record, with the same child, or with none running. */
  lemma MoveKeepsLife(l: Life, g: nat, phase: Phase)
    requires LifeInv(l) && g in l.starters && l.starters[g] != Closing && phase != Closing
    requires phase == Begin || phase == Failing ==> !l.running
    requires phase.Initializing? || phase.AwaitingExit? ==>
               phase.child < l.children && (l.running ==> l.cmd == Some(phase.child))
    ensures LifeInv(MoveStarter(l, g, phase))
  {
  }

  lemma CloseKeepsLife(l: Life, g: nat)
    requires LifeInv(l) && At(l, g, Closing)
    ensures LifeInv(l.(starters := l.starters - {g}, startClosed := l.startClosed + {g}))
  {
  }

  lemma LeaveKeepsLife(l: Life, caller: nat)
    requires LifeInv(l)
    ensures LifeInv(l.(parked := l.parked - {caller}))
  {
  }

  lemma DeathKeepsLife(l: Life, c: nat)
    requires LifeInv(l)
    ensures LifeInv(l.(live := l.live - {c}))
  {
  }

  lemma ReapKeepsLife(l: Life, c: nat)
    requires LifeInv(l)
    ensures c in l.exiting ==> LifeInv(l.(exiting := l.exiting - {c}, reaped := l.reaped + {c}))
  {
  }

  /** A reaped child is not the command any more. */
  lemma ReapedIsGone(l: Life, g: nat)
    requires LifeInv(l) && g in l.starters && l.starters[g].AwaitingExit? && l.starters[g].child in l.reaped
    ensures !l.running
  {
  }

  lemma ApplyLifeKeepsInv(l: Life, e: LifeEvent)
    requires LifeInv(l)
    ensures LifeInv(ApplyLife(l, e))
  {
    match e
    case EnsureStarted(k, d) => EnsureKeepsLife(l, k, d);
    case Launch(g, ok) => LaunchKeepsLife(l, g, ok);
    case RecordStart(g) => RecordKeepsLife(l, g);
    case ExitSection(c) => ExitKeepsLife(l, c);
    case PipeFails(g) => if At(l, g, Begin) { MoveKeepsLife(l, g, Failing); }
    case InitDone(g, ok) =>
      if g in l.starters && l.starters[g].Initializing? {
        MoveKeepsLife(l, g, if ok then Finishing else AwaitingExit(l.starters[g].child));
      }
    case SeesExit(g) =>
      if g in l.starters && l.starters[g].AwaitingExit? && l.starters[g].child in l.reaped {
        ReapedIsGone(l, g);
        MoveKeepsLife(l, g, Failing);
      }
    case CloseStartup(g) => if At(l, g, Closing) { CloseKeepsLife(l, g); }
    case CallerLeaves(k) => LeaveKeepsLife(l, k);
    case ChildDies(c) => DeathKeepsLife(l, c);
    case CloseWait(c) => ReapKeepsLife(l, c);
    case Stop =>
  }

  // ----- RPC correlation table ------------------------------------------------------------------

  datatype Envelope = Reply(id: nat, body: string) | ExitError

  datatype HeldReply = HeldReply(id: nat, body: string)

  /** A caller of requestNoEnsure that has registered: waiting, on its way to give up, or gone. */
  datatype Waiter = Waiting | GivingUp | Gone

  datatype Rpc = Rpc(
    drawn: set<nat>,                   // ids taken from the atomic counter, not yet registered
    nextId: nat,
    pending: set<nat>,                 // the table
    held: map<nat, HeldReply>,         // per stdout reader: removed from the table, not yet sent
    inbox: map<nat, seq<Envelope>>,    // everything ever sent to the caller's channel
    waiters: map<nat, Waiter>,
    registered: seq<nat>)              // history

  const NO_CALLS := Rpc({}, 0, {}, map[], map[], map[], [])

  datatype RpcEvent =
    | DrawId
    | Register(id: nat, written: bool)
    | GiveUp(id: nat)
    | Unregister(id: nat)
    | Receive(id: nat)
    | Match(reader: nat, id: nat, body: string)
    | Deliver(reader: nat)

  /** `open`: stdin is not nil. */
  function RegisterCall(r: Rpc, id: nat, written: bool, open: bool): Rpc {
    if id !in r.drawn then r
    else if !open then r.(drawn := r.drawn - {id})
    else r.(drawn := r.drawn - {id}, pending := r.pending + {id}, registered := r.registered + [id],
            inbox := r.inbox[id := []], waiters := r.waiters[id := if written then Waiting else GivingUp])
  }

  function TakeForReply(r: Rpc, reader: nat, id: nat, body: string): Rpc {
    if reader in r.held || id !in r.pending then r
    else r.(pending := r.pending - {id}, held := r.held[reader := HeldReply(id, body)])
  }

  function DeliverReply(r: Rpc, reader: nat): Rpc {
    if reader !in r.held || r.held[reader].id !in r.inbox then r
    else
      var h := r.held[reader];
      r.(held := r.held - {reader}, inbox := r.inbox[h.id := r.inbox[h.id] + [Reply(h.id, h.body)]])
  }

  function LeaveTable(r: Rpc, id: nat): Rpc {
    if id in r.waiters && r.waiters[id] == GivingUp
    then r.(pending := r.pending - {id}, waiters := r.waiters[id := Gone]) else r
  }

  function ApplyRpc(r: Rpc, e: RpcEvent, open: bool): Rpc {
    match e
    case DrawId => r.(nextId := r.nextId + 1, drawn := r.drawn + {r.nextId + 1})
    case Register(id, written) => RegisterCall(r, id, written, open)
    case GiveUp(id) =>
      if id in r.waiters && r.waiters[id] == Waiting then r.(waiters := r.waiters[id := GivingUp]) else r
    case Unregister(id) => LeaveTable(r, id)
    case Receive(id) =>
      if id in r.waiters && r.waiters[id] == Waiting && id in r.inbox && r.inbox[id] != []
      then r.(waiters := r.waiters[id := Gone]) else r
    case Match(reader, id, body) => TakeForReply(r, reader, id, body)
    case Deliver(reader) => DeliverReply(r, reader)
  }

  /** The loop over the table in waitForExit, run while holding the mutex. */
  function FailAll(r: Rpc): Rpc {
    r.(pending := {},
       inbox := map id | id in r.inbox :: if id in r.pending then r.inbox[id] + [ExitError] else r.inbox[id])
  }

  ghost predicate Distinct(s: seq<nat>) {
    forall i, j :: 0 <= i < j < |s| ==> s[i] != s[j]
  }

  ghost predicate Held(held: map<nat, HeldReply>, id: nat) {
    exists reader :: reader in held && held[reader].id == id
  }

  ghost predicate Ids(r: Rpc) {
    && (forall id :: id in r.drawn || id in r.waiters ==> id <= r.nextId)
    && (forall id :: id in r.drawn ==> id !in r.waiters)
    && r.inbox.Keys == r.waiters.Keys
    && Distinct(r.registered)
    && (forall id :: id in r.registered <==> id in r.waiters)
  }

  /** An envelope is in one place at a time, so a capacity-1 channel always has room for it. */
  ghost predicate OneEnvelope(r: Rpc) {
    && (forall id :: id in r.pending ==> id in r.inbox && r.inbox[id] == [])
    && (forall k :: k in r.held ==>
          var id := r.held[k].id;
          id !in r.pending && id in r.inbox && r.inbox[id] == [])
    && (forall k, k' :: k in r.held && k' in r.held && r.held[k].id == r.held[k'].id ==> k == k')
    && (forall id :: id in r.inbox && r.inbox[id] != [] ==> |r.inbox[id]| == 1 && AnswerTo(id, r.inbox[id][0]))
  }

  ghost predicate AnswerTo(id: nat, m: Envelope) {
    m == ExitError || m.id == id
  }

  /** Nobody is forgotten: a caller still in the call is in the table, answered, or about to be. */
  ghost predicate Remembered(r: Rpc) {
    forall id :: id in r.waiters && r.waiters[id] != Gone && id in r.inbox ==>
      id in r.pending || r.inbox[id] != [] || Held(r.held, id)
  }

  ghost predicate RpcInv(r: Rpc) {
    Ids(r) && OneEnvelope(r) && Remembered(r)
  }

  lemma HeldAfterMatch(held: map<nat, HeldReply>, k: nat, h: HeldReply)
    requires k !in held
    ensures forall id :: Held(held, id) ==> Held(held[k := h], id)
    ensures Held(held[k := h], h.id)
  {
    var held' := held[k := h];
    assert held'[k].id == h.id;
    forall id | Held(held, id) ensures Held(held', id) {
      var reader :| reader in held && held[reader].id == id;
      assert held'[reader].id == id;
    }
  }

  lemma HeldAfterDeliver(held: map<nat, HeldReply>, k: nat)
    requires k in held
    ensures forall id :: Held(held, id) && id != held[k].id ==> Held(held - {k}, id)
  {
    forall id | Held(held, id) && id != held[k].id ensures Held(held - {k}, id) {
      var reader :| reader in held && held[reader].id == id;
      assert (held - {k})[reader].id == id;
    }
  }

  lemma RegisterKeepsRpc(r: Rpc, id: nat, written: bool, open: bool)
    requires RpcInv(r)
    ensures RpcInv(RegisterCall(r, id, written, open))
  {
  }

  lemma MatchKeepsRpc(r: Rpc, k: nat, id: nat, body: string)
    requires RpcInv(r)
    ensures RpcInv(TakeForReply(r, k, id, body))
  {
    if k !in r.held {
      HeldAfterMatch(r.held, k, HeldReply(id, body));
    }
  }

  lemma DeliverKeepsEnvelopes(r: Rpc, k: nat)
    requires Ids(r) && OneEnvelope(r)
    ensures Ids(DeliverReply(r, k)) && OneEnvelope(DeliverReply(r, k))
  {
  }

  lemma DeliverKeepsRpc(r: Rpc, k: nat)
    requires RpcInv(r)
    ensures RpcInv(DeliverReply(r, k))
  {
    DeliverKeepsEnvelopes(r, k);
    if k in r.held {
      HeldAfterDeliver(r.held, k);
    }
  }

  lemma LeaveKeepsRpc(r: Rpc, id: nat)
    requires RpcInv(r)
    ensures RpcInv(LeaveTable(r, id))
  {
  }

  lemma ApplyRpcKeepsInv(r: Rpc, e: RpcEvent, open: bool)
    requires RpcInv(r)
    ensures RpcInv(ApplyRpc(r, e, open))
  {
    match e
    case Register(id, w) => RegisterKeepsRpc(r, id, w, open);
    case Match(k, id, body) => MatchKeepsRpc(r, k, id, body);
    case Deliver(k) => DeliverKeepsRpc(r, k);
    case Unregister(id) => LeaveKeepsRpc(r, id);
    case _ =>
  }

  lemma FailAllKeepsInv(r: Rpc)
    requires RpcInv(r)
    ensures RpcInv(FailAll(r))
  {
  }

  // ----- The whole bridge -----------------------------------------------------------------------

  datatype State = State(life: Life, rpc: Rpc)

  datatype Event = OfLife(l: LifeEvent) | OfRpc(r: RpcEvent)

  /** An exit section that is not stale also answers every pending call. */
  function Apply(s: State, e: Event): State {
    match e
    case OfLife(ExitSection(c)) =>
      State(ApplyLife(s.life, ExitSection(c)),
            if c in s.life.watchers && c !in s.life.live && s.life.cmd == Some(c) then FailAll(s.rpc) else s.rpc)
    case OfLife(l) => s.(life := ApplyLife(s.life, l))
    case OfRpc(r) => s.(rpc := ApplyRpc(s.rpc, r, s.life.stdin.Some?))
  }

  const INIT := State(IDLE, NO_CALLS)

  function Run(es: seq<Event>): State {
    if es == [] then INIT else Apply(Run(es[..|es| - 1]), es[|es| - 1])
  }

  ghost predicate Inv(s: State) {
    && LifeInv(s.life)
    && RpcInv(s.rpc)
    && (s.life.stdin.None? ==> s.rpc.pending == {})
  }

  /** stdin goes away only in a non-stale exit section. */
  lemma StdinChanges(l: Life, e: LifeEvent)
    ensures l.stdin.Some? && ApplyLife(l, e).stdin.None? ==>
              e.ExitSection? && e.child in l.watchers && e.child !in l.live && l.cmd == Some(e.child)
  {
    match e
    case EnsureStarted(k, d) => assert EnsureOnce(l, k, d).stdin == l.stdin;
    case RecordStart(g) => assert RecordOutcome(l, g).stdin == l.stdin;
    case Launch(g, ok) => assert LaunchChild(l, g, ok).stdin == l.stdin || LaunchChild(l, g, ok).stdin.Some?;
    case ExitSection(c) =>
    case _ => assert ApplyLife(l, e).stdin == l.stdin;
  }

  /** What a life event does to the table. */
  lemma TableChanges(s: State, l: LifeEvent)
    ensures Apply(s, OfLife(l)).life == ApplyLife(s.life, l)
    ensures Apply(s, OfLife(l)).rpc == s.rpc || Apply(s, OfLife(l)).rpc == FailAll(s.rpc)
    ensures s.life.stdin.Some? && ApplyLife(s.life, l).stdin.None? ==> Apply(s, OfLife(l)).rpc == FailAll(s.rpc)
  {
    StdinChanges(s.life, l);
  }

  lemma TableStaysEmpty(r: Rpc, e: RpcEvent)
    requires r.pending == {}
    ensures ApplyRpc(r, e, false).pending == {}
  {
  }

  lemma ApplyKeepsInv(s: State, e: Event)
    requires Inv(s)
    ensures Inv(Apply(s, e))
  {
    match e
    case OfLife(l) =>
      ApplyLifeKeepsInv(s.life, l);
      FailAllKeepsInv(s.rpc);
      TableChanges(s, l);
    case OfRpc(r) =>
      ApplyRpcKeepsInv(s.rpc, r, s.life.stdin.Some?);
      if s.life.stdin.None? { TableStaysEmpty(s.rpc, r); }
  }

  lemma {:induction false} RunKeepsInv(es: seq<Event>)
    ensures Inv(Run(es))
  {
    if es != [] {
      RunKeepsInv(es[..|es| - 1]);
      ApplyKeepsInv(Run(es[..|es| - 1]), es[|es| - 1]);
    }
  }

  // ----- Main results ---------------------------------------------------------------------------

  /** In every run: at most one child is live; ready means running and not starting; running means
      ready, starting or shutting down; and no exit watcher ever meets another command. */
  lemma {:induction false} Lifecycle(es: seq<Event>)
    ensures var l := Run(es).life;
            && (forall c, d :: c in l.live && d in l.live ==> c == d)
            && (forall c :: c in l.live ==> l.cmd == Some(c) && l.running)
            && (l.ready ==> l.running && !l.starting)
            && (l.running ==> l.ready || l.starting || l.shuttingDown)
            && !l.staleExit
  {
    RunKeepsInv(es);
  }

  lemma StopIsFinal(l: Life, e: LifeEvent)
    requires l.shuttingDown
    ensures ApplyLife(l, e).shuttingDown && ApplyLife(l, e).children == l.children
  {
  }

  /** In every run, once Stop's critical section has run no further child is started. */
  lemma {:induction false} NoChildAfterStop(es: seq<Event>, more: seq<Event>)
    requires Run(es).life.shuttingDown
    ensures Run(es + more).life.shuttingDown
    ensures Run(es + more).life.children == Run(es).life.children
  {
    if more == [] {
      assert es + more == es;
    } else {
      var init, e := more[..|more| - 1], more[|more| - 1];
      NoChildAfterStop(es, init);
      var all := es + more;
      assert all[..|all| - 1] == es + init && all[|all| - 1] == e;
      if e.OfLife? {
        StopIsFinal(Run(es + init).life, e.l);
        TableChanges(Run(es + init), e.l);
      }
    }
  }

  /** In every run, a caller blocked in EnsureStarted waits on a channel that is closed, or whose startup
      goroutine is still there to close it; and while nothing is starting, none but goroutines about to
      close remain. */
  lemma {:induction false} StartupWaitersAreReleased(es: seq<Event>, caller: nat)
    requires caller in Run(es).life.parked
    ensures var l := Run(es).life;
            var g := l.parked[caller];
            && (g in l.startClosed || g in l.starters)
            && (g in l.starters && !l.starting ==> l.starters[g] == Closing)
  {
    RunKeepsInv(es);
  }

  /** In every run and across restarts: request ids are never reused; each caller's channel gets at most
      one envelope, which answers that very request or reports the exit, so no send ever blocks; a
      caller still in the call is in the table, answered, or held by a reader; and without stdin the
      table is empty. */
  lemma {:induction false} Correlation(es: seq<Event>)
    ensures var s := Run(es);
            var r := s.rpc;
            && Distinct(r.registered)
            && (forall id :: id in r.registered <==> id in r.inbox)
            && (forall id :: id in r.inbox && r.inbox[id] != [] ==> |r.inbox[id]| == 1 && AnswerTo(id, r.inbox[id][0]))
            && (forall id :: id in r.pending ==> id in r.inbox && r.inbox[id] == [])
            && (forall k :: k in r.held ==> r.held[k].id in r.inbox && r.inbox[r.held[k].id] == [])
            && (forall id :: id in r.waiters && r.waiters[id] != Gone ==>
                  id in r.inbox && (id in r.pending || r.inbox[id] != [] || Held(r.held, id)))
            && (s.life.stdin.None? ==> r.pending == {})
  {
    RunKeepsInv(es);
  }
}
