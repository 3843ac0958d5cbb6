/** The critical sections of pkg/codexappserver/bridge.go as they are written: fields and a table that are
    updated in place. Each method is proved to take the bridge's state machine one step, from any reachable state.
 */
module BridgeServer {
  import opened Wrappers
  import opened Bridge

  /** The fields of Bridge that hold the given state. */
  ghost predicate Shows(
    s: State, shuttingDown: bool, starting: bool, ready: bool, running: bool, children: nat,
    cmd: Option<nat>, stdin: Option<nat>, pending: set<nat>, sent: map<nat, seq<Envelope>>)
  {
    && s.life.shuttingDown == shuttingDown && s.life.starting == starting
    && s.life.ready == ready && s.life.running == running
    && s.life.children == children && s.life.cmd == cmd && s.life.stdin == stdin
    && s.rpc.pending == pending && s.rpc.inbox == sent
  }

  /** States that some run leads to. */
  ghost predicate Reachable(s: State) {
    exists es :: Run(es) == s
  }

  lemma ReachableStep(s: State, e: Event)
    requires Reachable(s)
    ensures Reachable(Apply(s, e))
  {
    var es :| Run(es) == s;
    RunSnoc(es, e);
    assert Run(es + [e]) == Apply(s, e);
  }

  lemma ReachableInv(s: State)
    requires Reachable(s)
    ensures Inv(s)
  {
    var es :| Run(es) == s;
    RunKeepsInv(es);
  }

  lemma RunSnoc(es: seq<Event>, e: Event)
    ensures Run(es + [e]) == Apply(Run(es), e)
  {
    assert (es + [e])[..|es|] == es;
  }

  /** What the events of the methods below do to the shown fields. */
  lemma AfterRegister(s: State, id: nat, written: bool)
    requires id in s.rpc.drawn
    ensures var t := Apply(s, OfRpc(RpcEvent.Register(id, written)));
            && t.life == s.life
            && t.rpc.pending == (if s.life.stdin.Some? then s.rpc.pending + {id} else s.rpc.pending)
            && t.rpc.inbox == if s.life.stdin.Some? then s.rpc.inbox[id := []] else s.rpc.inbox
  {
  }

  lemma AfterExit(s: State, c: nat)
    requires c in s.life.watchers && c !in s.life.live && s.life.cmd == Some(c)
    ensures var t := Apply(s, OfLife(ExitSection(c)));
            && t.life == s.life.(watchers := s.life.watchers - {c}, exiting := s.life.exiting + {c},
                                 ready := false, stdin := None, cmd := None, running := false)
            && t.rpc == FailAll(s.rpc)
  {
  }

  lemma AfterLaunch(s: State, g: nat, ok: bool)
    requires At(s.life, g, Begin)
    ensures var t := Apply(s, OfLife(Launch(g, ok)));
            && t.rpc == s.rpc
            && t.life == if s.life.shuttingDown || !ok then s.life.(starters := s.life.starters[g := Failing])
                         else LaunchChild(s.life, g, ok)
  {
  }

  lemma PendingIsUnanswered(s: State, id: nat)
    requires Reachable(s) && id in s.rpc.pending
    ensures id in s.rpc.inbox && s.rpc.inbox[id] == []
  {
    ReachableInv(s);
  }

  lemma PendingAreUnanswered(s: State)
    requires Reachable(s)
    ensures forall id :: id in s.rpc.pending ==> id in s.rpc.inbox && s.rpc.inbox[id] == []
  {
    forall id | id in s.rpc.pending ensures id in s.rpc.inbox && s.rpc.inbox[id] == [] {
      PendingIsUnanswered(s, id);
    }
  }

  lemma DrawnIsFresh(s: State, id: nat)
    requires Reachable(s) && id in s.rpc.drawn
    ensures id !in s.rpc.inbox && id !in s.rpc.pending
  {
    ReachableInv(s);
  }

  lemma WatchedIsCommand(s: State, c: nat)
    requires Reachable(s) && c in s.life.watchers
    ensures s.life.cmd == Some(c)
  {
    ReachableInv(s);
  }

  lemma NothingLiveAtBegin(s: State, g: nat)
    requires Reachable(s) && At(s.life, g, Begin)
    ensures s.life.live == {}
  {
    ReachableInv(s);
    assert Starters(s.life) && OneChild(s.life);
  }

  class Server {
    var shuttingDown: bool
    var starting: bool
    var ready: bool
    var running: bool
    var children: nat                   // child processes are numbered as they start
    var cmd: Option<nat>
    var stdin: Option<nat>
    var pending: set<nat>
    var sent: map<nat, seq<Envelope>>   // what each caller's capacity-1 channel has been sent
    ghost var state: State

    ghost predicate Valid()
      reads this
    {
      Reachable(state) && Shows(state, shuttingDown, starting, ready, running, children, cmd, stdin, pending, sent)
    }

    constructor ()
      ensures Valid() && state == INIT
    {
      shuttingDown, starting, ready, running := false, false, false, false;
      children, cmd, stdin, pending, sent := 0, None, None, {}, map[];
      state := INIT;
      assert Run([]) == INIT;
    }

    /** The critical section of Stop. */
    method Stop() returns (current: Option<nat>)
      requires Valid()
      modifies this
      ensures Valid() && state == Apply(old(state), OfLife(LifeEvent.Stop)) && current == old(cmd)
    {
      shuttingDown := true;
      current := cmd;
      ReachableStep(state, OfLife(LifeEvent.Stop));
      state := Apply(state, OfLife(LifeEvent.Stop));
    }

    /** startProcessLocked, from taking the mutex to releasing it; no other child is live when one starts. */
    method StartProcess(g: nat, ok: bool) returns (started: bool)
      requires Valid() && At(state.life, g, Begin)
      modifies this
      ensures Valid() && state == Apply(old(state), OfLife(Launch(g, ok)))
      ensures started <==> ok && !old(shuttingDown)
      ensures started ==> old(state).life.live == {} && cmd.Some? && state.life.live == {cmd.value}
    {
      ReachableStep(state, OfLife(Launch(g, ok)));
      AfterLaunch(state, g, ok);
      NothingLiveAtBegin(state, g);
      state := Apply(state, OfLife(Launch(g, ok)));
      if shuttingDown || !ok {
        return false;
      }
      var c := children;
      children := children + 1;
      cmd, stdin, running := Some(c), Some(c), true;
      started := true;
    }

    /** The critical section that records how a startup went: an error, or finishProcessStartLocked. */
    method RecordStart(g: nat, failed: bool)
      requires Valid() && At(state.life, g, if failed then Failing else Finishing)
      modifies this
      ensures Valid() && state == Apply(old(state), OfLife(LifeEvent.RecordStart(g)))
    {
      ReachableStep(state, OfLife(LifeEvent.RecordStart(g)));
      state := Apply(state, OfLife(LifeEvent.RecordStart(g)));
      starting := false;
      ready := if failed then false else running && !shuttingDown;
    }

    /** The critical section of requestNoEnsure for an id drawn from the counter, never seen before. */
    method Register(id: nat, written: bool) returns (open: bool)
      requires Valid() && id in state.rpc.drawn
      modifies this
      ensures Valid() && state == Apply(old(state), OfRpc(RpcEvent.Register(id, written)))
      ensures open == old(stdin).Some? && id !in old(pending) && id !in old(sent)
    {
      ReachableStep(state, OfRpc(RpcEvent.Register(id, written)));
      AfterRegister(state, id, written);
      DrawnIsFresh(state, id);
      state := Apply(state, OfRpc(RpcEvent.Register(id, written)));
      open := stdin.Some?;
      if open {
        pending := pending + {id};
        sent := sent[id := []];
      }
    }

    /** readStdout: take the caller of a reply out of the table; its channel still has room. */
    method MatchReply(reader: nat, id: nat, body: string) returns (found: bool)
      requires Valid() && reader !in state.rpc.held
      modifies this
      ensures Valid() && state == Apply(old(state), OfRpc(Match(reader, id, body)))
      ensures found == (id in old(pending))
      ensures found ==> id in sent && sent[id] == []
    {
      ReachableStep(state, OfRpc(Match(reader, id, body)));
      found := id in pending;
      if found {
        PendingIsUnanswered(state, id);
        pending := pending - {id};
      }
      state := Apply(state, OfRpc(Match(reader, id, body)));
    }

    /** waitForExit once the child is gone. The command is always this child's, every send inside the loop
        finds its channel empty, and afterwards no caller is left in the table. */
    method WaitForExit(c: nat)
      requires Valid() && c in state.life.watchers && c !in state.life.live
      modifies this
      ensures Valid() && state == Apply(old(state), OfLife(ExitSection(c)))
      ensures old(cmd) == Some(c) && pending == {}
      ensures forall id :: id in old(pending) ==> id in sent && sent[id] == [ExitError]
    {
      ReachableStep(state, OfLife(ExitSection(c)));
      WatchedIsCommand(state, c);
      AfterExit(state, c);
      PendingAreUnanswered(state);
      pending, sent := FailPending(pending, sent);
      state := Apply(state, OfLife(ExitSection(c)));
      ready, stdin, cmd, running := false, None, None, false;
    }
  }

  /** The loop of waitForExit: every pending channel is empty, so no send blocks while the mutex is held. */
  method FailPending(table: set<nat>, channels: map<nat, seq<Envelope>>)
    returns (pending: set<nat>, sent: map<nat, seq<Envelope>>)
    requires forall id :: id in table ==> id in channels && channels[id] == []
    ensures pending == {} && sent.Keys == channels.Keys
    ensures forall id :: id in channels ==> sent[id] == channels[id] + if id in table then [ExitError] else []
    ensures sent == map id | id in channels :: if id in table then channels[id] + [ExitError] else channels[id]
  {
    pending, sent := table, channels;
    while pending != {}
      invariant pending <= table && sent.Keys == channels.Keys
      invariant forall id :: id in channels ==>
                  sent[id] == if id in table && id !in pending then [ExitError] else channels[id]
      decreases |pending|
    {
      var id :| id in pending;
      pending := pending - {id};
      assert sent[id] == [];
      sent := sent[id := sent[id] + [ExitError]];
    }
  }
}
