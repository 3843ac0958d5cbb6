/** Runs of the whole local control plane in which the one final response of a request is lost: the channel results
    lifted to ingress, polls and posts.
 */
module LostResponse {
  import opened LocalQueue
  import opened ResponseChannel
  import opened LocalControlPlane

  lemma RunSnoc(es: seq<Event>, e: Event)
    ensures Run(es + [e]) == Apply(Run(es), e)
  {
    assert (es + [e])[..|es|] == es;
  }

  function EventOf(id: nat, op: Op): Event {
    match op
    case Send(p) => SendStep(id, p)
    case Take => CallerReceives(id)
  }

  /** What can happen to a channel alone can happen to it in a run. */
  lemma {:induction false} LiftOps(es: seq<Event>, id: nat, ops: seq<Op>) returns (all: seq<Event>)
    requires id in Run(es).chans
    ensures id in Run(all).chans && Run(all).chans[id] == RunOps(Run(es).chans[id], ops)
    decreases |ops|
  {
    if ops == [] {
      all := es;
    } else {
      RunSnoc(es, EventOf(id, ops[0]));
      all := LiftOps(es + [EventOf(id, ops[0])], id, ops[1..]);
    }
  }

  /** In every run: once the final response is admitted while buffered messages and other senders outnumber the slots,
      some continuation loses it. */
  lemma {:induction false} LossIsReachable(es: seq<Event>, id: nat, p: nat) returns (all: seq<Event>)
    requires id in Run(es).chans
    requires var c := Run(es).chans[id];
             c.outcome == InTransit(p) && p in c.sending && c.sending[p].phase == First
             && |c.buf| + |c.sending| - 1 > CAPACITY
    ensures id in Run(all).chans && Run(all).chans[id].outcome == Lost
  {
    RunKeepsInv(es);
    assert Sound(Run(es).chans[id], id in Run(es).finished);
    var ops := LosingSchedule(Run(es).chans[id], p);
    all := LiftOps(es, id, ops);
  }

  /** Request 1 is in flight, and its channel is c. */
  ghost predicate InFlightWith(s: State, c: Channel) {
    1 in s.q.inFlight && 1 in s.chans && s.chans[1] == c
  }

  lemma OneInFlight() returns (es: seq<Event>)
    ensures InFlightWith(Run(es), FRESH)
  {
    var draw, append, poll := Draw(""), Append(1), PollOnce(0, 1);
    RunSnoc([], draw);
    RunSnoc([] + [draw], append);
    RunSnoc([] + [draw] + [append], poll);
    es := [] + [draw] + [append] + [poll];
    var r := Request(1, "");
    var s := Run([] + [draw] + [append]);
    assert s.q.pending == [r] && s.q.pending[..1] == [r];
    assert [r][..0] == [] && AddAll(s.q.inFlight, [r]) == s.q.inFlight[1 := r];
  }

  lemma PostNotification(s: State, c: Channel, p: nat, m: Msg)
    requires InFlightWith(s, c) && p !in c.sending && !m.final
    ensures InFlightWith(PostResponse(s, 1, p, m), Admit(c, p, m))
  {
  }

  /** n unread notifications. */
  lemma {:induction false} FillRun(n: nat) returns (es: seq<Event>)
    ensures InFlightWith(Run(es), Filled(n))
  {
    if n == 0 {
      es := OneInFlight();
    } else {
      var init := FillRun(n - 1);
      var post, send := Post(1, n, Msg(false, "")), SendStep(1, n);
      RunSnoc(init, post);
      PostNotification(Run(init), Filled(n - 1), n, Msg(false, ""));
      RunSnoc(init + [post], send);
      es := init + [post] + [send];
    }
  }

  lemma PostFinal(s: State, c: Channel, p: nat, m: Msg)
    requires InFlightWith(s, c) && p !in c.sending && m.final
    ensures var t := PostResponse(s, 1, p, m);
            1 in t.chans && t.chans[1] == Admit(c, p, m) && 1 in t.finished
  {
  }

  /** A late notification and the final response, admitted one after the other and both still to be sent. */
  function Crowded(full: Channel, late: Msg, done: Msg): Channel
    requires full.sending == map[]
  {
    Admit(Admit(full, 0, late), 1, done)
  }

  lemma CrowdedFacts(full: Channel, late: Msg, done: Msg)
    requires full.sending == map[] && done.final
    ensures var c := Crowded(full, late, done);
            c.buf == full.buf && |c.sending| == 2 && c.outcome == InTransit(1)
            && 1 in c.sending && c.sending[1].phase == First
  {
    var c := Crowded(full, late, done);
    assert c.sending.Keys == {0, 1};
    assert |c.sending.Keys| == 2;
  }

  lemma PostBoth(init: seq<Event>, full: Channel, late: Msg, done: Msg) returns (es: seq<Event>)
    requires InFlightWith(Run(init), full) && full.sending == map[] && !late.final && done.final
    ensures 1 in Run(es).chans && Run(es).chans[1] == Crowded(full, late, done)
  {
    RunSnoc(init, Post(1, 0, late));
    PostNotification(Run(init), full, 0, late);
    var posted := init + [Post(1, 0, late)];
    RunSnoc(posted, Post(1, 1, done));
    PostFinal(Run(posted), Admit(full, 0, late), 1, done);
    es := posted + [Post(1, 1, done)];
  }

  /** A run from the empty control plane in which request 1 gets its one final response and its caller never will. */
  lemma FinalLostInSomeRun() returns (es: seq<Event>)
    ensures 1 in Run(es).chans && Run(es).chans[1].outcome == Lost
  {
    var late, done := Msg(false, "late"), Msg(true, "done");
    var full := FullChannelExists();
    var init := FillRun(CAPACITY);
    var posted := PostBoth(init, full, late, done);
    CrowdedFacts(full, late, done);
    es := LossIsReachable(posted, 1, 1);
  }
}
