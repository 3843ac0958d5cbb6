/** What each event of the local control plane (pkg/localproxy/localproxy.go) achieves, in every run: how much a poll
    hands out, when WaitForPoll returns, what reaches the table, the channels and the caller.
 */
module LocalEffects {
  import opened LocalQueue
  import opened ResponseChannel
  import opened LocalControlPlane
  import opened LostResponse

  // ----- Ingress --------------------------------------------------------------------------------

  function Draws(es: seq<Event>): seq<string> {
    if es == [] then []
    else Draws(es[..|es| - 1]) + if es[|es| - 1].Draw? then [es[|es| - 1].command] else []
  }

  /** A request carries the command that drew its number, and waits to be appended until it is. */
  ghost predicate Numbering(s: State, draws: seq<string>) {
    && s.nextId == |draws|
    && (forall id :: id in s.enqueuing ==> 1 <= id <= |draws| && s.enqueuing[id] == Request(id, draws[id - 1]))
    && (forall r :: r in s.appended ==> 1 <= r.id <= |draws| && r == Request(r.id, draws[r.id - 1]))
    && (forall id: nat :: 1 <= id <= |draws| ==> id in s.enqueuing || Request(id, draws[id - 1]) in s.appended)
  }

  lemma DrawKeepsNumbering(s: State, draws: seq<string>, command: string)
    requires Numbering(s, draws)
    ensures Numbering(Apply(s, Draw(command)), draws + [command])
  {
    var t, more := Apply(s, Draw(command)), draws + [command];
    assert forall i :: 0 <= i < |draws| ==> more[i] == draws[i];
    forall id: nat | 1 <= id <= |more| ensures id in t.enqueuing || Request(id, more[id - 1]) in t.appended {
      if id <= |draws| {
        assert id in s.enqueuing || Request(id, draws[id - 1]) in s.appended;
      }
    }
  }

  lemma AppendKeepsNumbering(s: State, draws: seq<string>, id: nat)
    requires Numbering(s, draws)
    ensures Numbering(AppendRequest(s, id), draws)
  {
    var t := AppendRequest(s, id);
    if id in s.enqueuing {
      var r := s.enqueuing[id];
      assert r in t.appended;
      assert forall x :: x in s.appended ==> x in t.appended;
      forall k: nat | 1 <= k <= |draws| ensures k in t.enqueuing || Request(k, draws[k - 1]) in t.appended {
        assert k in s.enqueuing || Request(k, draws[k - 1]) in s.appended;
      }
    }
  }

  lemma OthersKeepNumbering(s: State, draws: seq<string>, e: Event)
    requires Numbering(s, draws) && !e.Draw? && !e.Append?
    ensures Numbering(Apply(s, e), draws)
  {
    var t := Apply(s, e);
    SameNumbers(s, e);
    assert t.nextId == s.nextId && t.enqueuing == s.enqueuing && t.appended == s.appended;
  }

  lemma SameNumbers(s: State, e: Event)
    requires !e.Draw? && !e.Append?
    ensures var t := Apply(s, e);
            t.nextId == s.nextId && t.enqueuing == s.enqueuing && t.appended == s.appended
  {
    if e.PollOnce? {
      assert PollRound(s, e.poller, e.limit).appended == s.appended;
    }
  }

  /** In every run requests are numbered in the order of the draws and carry the command of their draw; every number
      drawn belongs to a request that was appended, or is about to be. */
  lemma {:induction false} RequestsAreNumbered(es: seq<Event>)
    ensures Numbering(Run(es), Draws(es))
  {
    if es != [] {
      var init, e := es[..|es| - 1], es[|es| - 1];
      RequestsAreNumbered(init);
      if e.Draw? {
        DrawKeepsNumbering(Run(init), Draws(init), e.command);
      } else {
        assert Draws(es) == Draws(init);
        if e.Append? {
          AppendKeepsNumbering(Run(init), Draws(init), e.id);
        } else {
          OthersKeepNumbering(Run(init), Draws(init), e);
        }
      }
    }
  }

  /** Appending a drawn request puts it last in the queue, once. */
  lemma AppendedIsLast(es: seq<Event>, id: nat)
    requires id in Run(es).enqueuing
    ensures var s, t := Run(es), Run(es + [Append(id)]);
            && t.q.pending == s.q.pending + [s.enqueuing[id]] && t.appended == s.appended + [s.enqueuing[id]]
            && id !in t.enqueuing && t.q.inFlight == s.q.inFlight && s.q.gen < t.q.gen
            && id in t.chans && t.chans[id] == FRESH
  {
    RunSnoc(es, Append(id));
  }

  // ----- Polls ----------------------------------------------------------------------------------

  /** Parked on a channel that is still open. */
  predicate Blocked(s: State, p: nat) {
    p in s.parked && s.parked[p] == s.q.gen
  }

  /** In every run, a round of a poll takes requests from the front, as many as it asks for (one, if it asks for none)
      or all there are; they become in flight. With nothing to take it parks, and otherwise it returns. */
  lemma PollHandsOut(es: seq<Event>, p: nat, limit: int) returns (batch: seq<Request>)
    requires !Blocked(Run(es), p)
    ensures var s, t := Run(es), Run(es + [PollOnce(p, limit)]);
            var most := if limit <= 0 then 1 else limit;
            && s.q.pending == batch + t.q.pending && t.delivered == s.delivered + batch
            && |batch| <= most && (|batch| < most ==> t.q.pending == [])
            && (forall r :: r in batch ==> r.id in t.q.inFlight && t.q.inFlight[r.id] == r)
            && (batch == [] <==> p in t.parked)
            && s.q.gen < t.q.gen
  {
    var s := Run(es);
    RunSnoc(es, PollOnce(p, limit));
    RunKeepsInv(es);
    LiveIds(s);
    batch := PollTakes(s, p, limit);
    var rest := s.q.pending[|batch|..];
    assert s.q.pending == batch + rest;
    DistinctAcross(batch, rest);
    AddAllContents(s.q.inFlight, batch);
  }

  lemma PollTakes(s: State, p: nat, limit: int) returns (batch: seq<Request>)
    requires !Blocked(s, p)
    ensures var t := PollRound(s, p, limit);
            var most := if limit <= 0 then 1 else limit;
            && s.q.pending == batch + t.q.pending && t.delivered == s.delivered + batch
            && |batch| <= most && (|batch| < most ==> t.q.pending == [])
            && t.q.inFlight == AddAll(s.q.inFlight, batch)
            && (batch == [] <==> p in t.parked)
            && s.q.gen < t.q.gen
  {
    batch := s.q.pending[..BatchSize(s.q, PositiveOr(limit, 1))];
  }

  lemma BlockedPollWaits(es: seq<Event>, p: nat, limit: int)
    requires Blocked(Run(es), p)
    ensures Run(es + [PollOnce(p, limit)]) == Run(es)
  {
    RunSnoc(es, PollOnce(p, limit));
  }

  ghost predicate HasPolled(es: seq<Event>) {
    exists i :: 0 <= i < |es| && es[i].PollOnce?
  }

  lemma HasPolledSnoc(es: seq<Event>, e: Event)
    ensures HasPolled(es + [e]) <==> HasPolled(es) || e.PollOnce?
  {
    var all := es + [e];
    assert all[|es|] == e;
    if HasPolled(es) {
      var i :| 0 <= i < |es| && es[i].PollOnce?;
      assert all[i] == es[i];
    }
  }

  lemma PolledChanges(s: State, e: Event)
    ensures Apply(s, e).q.polled == (s.q.polled || (e.PollOnce? && !Blocked(s, e.poller)))
  {
    match e
    case PollOnce(p, limit) => assert PollRound(s, p, limit).q.polled == (s.q.polled || !Blocked(s, p));
    case _ =>
  }

  lemma PolledStep(es: seq<Event>, e: Event)
    requires forall p :: p in Run(es).parked ==> Run(es).q.polled
    ensures Run(es + [e]).q.polled <==> Run(es).q.polled || e.PollOnce?
    ensures forall p :: p in Run(es + [e]).parked ==> Run(es + [e]).q.polled
  {
    RunSnoc(es, e);
    PolledChanges(Run(es), e);
    ParkedFrom(Run(es), e);
  }

  /** Only a poll parks. */
  lemma ParkedFrom(s: State, e: Event)
    ensures forall p :: p in Apply(s, e).parked ==> p in s.parked || e.PollOnce?
  {
    match e
    case PollOnce(p, limit) =>
    case Append(id) => assert AppendRequest(s, id).parked == s.parked;
    case Post(id, p, m) => assert PostResponse(s, id, p, m).parked == s.parked;
    case CancelRequest(id) => assert CancelPending(s, id).parked == s.parked;
    case _ =>
  }

  lemma {:induction false} PolledIff(es: seq<Event>)
    ensures Run(es).q.polled <==> HasPolled(es)
    ensures forall p :: p in Run(es).parked ==> Run(es).q.polled
  {
    if es != [] {
      var init, e := es[..|es| - 1], es[|es| - 1];
      PolledIff(init);
      HasPolledSnoc(init, e);
      assert es == init + [e];
      PolledStep(init, e);
    }
  }

  /** In every run, a WaitForPoll caller that looks returns exactly when some poll has come. */
  lemma WaitReturnsIff(es: seq<Event>, w: nat)
    ensures w !in Run(es + [WaitCheck(w)]).waiting <==> HasPolled(es)
  {
    RunSnoc(es, WaitCheck(w));
    PolledIff(es);
    NoLostWakeup(es);
  }

  // ----- Responses ------------------------------------------------------------------------------

  /** What an event does to the channel of request `id`; `open` says that the request is in flight. */
  function ChannelAfter(c: Channel, e: Event, id: nat, open: bool): Channel {
    match e
    case Post(i, p, m) => if i == id && open && p !in c.sending then Admit(c, p, m) else c
    case SendStep(i, p) => if i == id then Step(c, p) else c
    case CallerReceives(i) => if i == id then Receive(c) else c
    case _ => c
  }

  lemma PostToChannel(s: State, id: nat, i: nat, p: nat, m: Msg)
    requires id in s.chans && (i in s.q.inFlight ==> i in s.chans)
    ensures var t := PostResponse(s, i, p, m);
            id in t.chans && t.chans[id] == ChannelAfter(s.chans[id], Post(i, p, m), id, id in s.q.inFlight)
  {
  }

  lemma AppendIsNew(s: State, id: nat)
    requires Inv(s) && id in s.enqueuing
    ensures id !in s.chans
  {
  }

  lemma OneChannel(s: State, e: Event, id: nat)
    requires id in s.chans && (e.Append? && e.id in s.enqueuing ==> e.id !in s.chans)
    requires e.Post? && e.id in s.q.inFlight ==> e.id in s.chans
    ensures id in Apply(s, e).chans
    ensures Apply(s, e).chans[id] == ChannelAfter(s.chans[id], e, id, id in s.q.inFlight)
  {
    match e
    case Post(i, p, m) => PostToChannel(s, id, i, p, m);
    case PollOnce(p, limit) => assert PollRound(s, p, limit).chans == s.chans;
    case CancelRequest(i) => assert CancelPending(s, i).chans == s.chans;
    case _ =>
  }

  lemma OneChannelInRun(es: seq<Event>, e: Event, id: nat)
    requires id in Run(es).chans
    ensures id in Run(es + [e]).chans
    ensures Run(es + [e]).chans[id] == ChannelAfter(Run(es).chans[id], e, id, id in Run(es).q.inFlight)
    ensures Valid(Run(es).chans[id])
  {
    var s := Run(es);
    RunSnoc(es, e);
    RunKeepsInv(es);
    if e.Append? && e.id in s.enqueuing {
      AppendIsNew(s, e.id);
    } else if e.Post? && e.id in s.q.inFlight {
      InFlightIsOpen(s, e.id);
    }
    OneChannel(s, e, id);
    assert Sound(s.chans[id], id in s.finished);
  }

  /** In every run, a response to a request in flight is admitted to its channel. */
  lemma PostIsAdmitted(es: seq<Event>, id: nat, p: nat, m: Msg)
    requires id in Run(es).q.inFlight
    ensures id in Run(es).chans && id in Run(es + [Post(id, p, m)]).chans
    ensures var c, d := Run(es).chans[id], Run(es + [Post(id, p, m)]).chans[id];
            p !in c.sending ==>
              d.posted == c.posted + [m] && p in d.sending && d.sending[p].msg == m && d.buf == c.buf
  {
    RunKeepsInv(es);
    InFlightIsOpen(Run(es), id);
    OneChannelInRun(es, Post(id, p, m), id);
  }

  /** ... and retires the request exactly if it is final. */
  lemma PostRetiresIff(es: seq<Event>, id: nat, p: nat, m: Msg)
    requires id in Run(es).q.inFlight ==> id in Run(es).chans && p !in Run(es).chans[id].sending
    ensures var s, t := Run(es), Run(es + [Post(id, p, m)]);
            && s.q.gen < t.q.gen && t.q.pending == s.q.pending
            && t.q.inFlight == (if m.final then s.q.inFlight - {id} else s.q.inFlight)
            && t.finished == (if id in s.q.inFlight && m.final then s.finished + {id} else s.finished)
            && (id !in s.q.inFlight ==> t.chans == s.chans)
  {
    RunSnoc(es, Post(id, p, m));
    assert id !in Run(es).q.inFlight ==> Run(es).q.inFlight - {id} == Run(es).q.inFlight;
  }

  /** In every run, a receive hands the oldest buffered message to the caller, and an empty buffer blocks it. */
  lemma ReceiveTakesOldest(es: seq<Event>, id: nat)
    requires id in Run(es).chans
    ensures id in Run(es + [CallerReceives(id)]).chans
    ensures var c, d := Run(es).chans[id], Run(es + [CallerReceives(id)]).chans[id];
            if c.buf == [] then d == c
            else c.buf == [c.buf[0]] + d.buf && d.received == c.received + [c.buf[0]] && d.evicted == c.evicted
  {
    OneChannelInRun(es, CallerReceives(id), id);
    ReceiveEffect(Run(es).chans[id]);
  }

  lemma ReceiveEffect(c: Channel)
    ensures var d := Receive(c);
            if c.buf == [] then d == c
            else c.buf == [c.buf[0]] + d.buf && d.received == c.received + [c.buf[0]] && d.evicted == c.evicted
  {
  }

  /** In every run, everything admitted is in the buffer, received, evicted, dropped or still being sent; messages
      leave the buffer in the order in which they entered it; and without an eviction the caller has got exactly
      what has left it. */
  lemma NothingVanishes(es: seq<Event>, id: nat)
    requires id in Run(es).chans
    ensures var c := Run(es).chans[id];
            && |c.posted| == |c.received| + |c.buf| + |c.evicted| + |c.dropped| + |c.sending|
            && multiset(c.entered) == multiset(c.received) + multiset(c.evicted) + multiset(c.buf)
            && (c.evicted == [] ==> c.received + c.buf == c.entered)
            && (!c.overlapped && c.sending == map[] ==>
                  multiset(c.posted) == multiset(c.entered) + multiset(c.dropped))
  {
    RunKeepsInv(es);
    var c := Run(es).chans[id];
    assert Sound(c, id in Run(es).finished);
    MergesMeans(c.popped, c.received, c.evicted);
    if !c.overlapped && c.sending == map[] {
      MergesMeans(c.posted, c.entered, c.dropped);
    }
  }

  /** In every run, a message is dropped only by a poster that finds the buffer full, and evicted only for the final
      response after that. */
  lemma OnlyFullBuffersLose(es: seq<Event>, e: Event, id: nat)
    requires id in Run(es).chans
    ensures id in Run(es + [e]).chans
    ensures var c, d := Run(es).chans[id], Run(es + [e]).chans[id];
            && (d.dropped != c.dropped ==> |c.buf| == CAPACITY && e.SendStep? && e.id == id)
            && (d.evicted != c.evicted ==> e.SendStep? && e.id == id && Evicts(c, e.poster))
  {
    OneChannelInRun(es, e, id);
  }

  /** The poster of the final response has found the buffer full. */
  predicate Evicts(c: Channel, p: nat) {
    p in c.sending && c.sending[p].phase == Evicting && c.sending[p].msg.final
  }

  // ----- A message that finds room --------------------------------------------------------------

  /** Message m of poster p is on its way into the buffer, which has room, or is the one after the first k that
      entered it. */
  ghost predicate Arriving(c: Channel, k: nat, p: nat, m: Msg) {
    || (c.sending == map[p := Sending(m, First, false)] && |c.buf| < CAPACITY && |c.entered| == k)
    || (|c.entered| > k && c.entered[k] == m)
  }

  lemma StepKeepsArriving(c: Channel, k: nat, p: nat, m: Msg, q: nat)
    requires Arriving(c, k, p, m)
    ensures Arriving(Step(c, q), k, p, m)
  {
  }

  lemma EventKeepsArriving(c: Channel, e: Event, id: nat, open: bool, k: nat, p: nat, m: Msg)
    requires Arriving(c, k, p, m)
    ensures var d := ChannelAfter(c, e, id, open); !d.overlapped ==> Arriving(d, k, p, m)
  {
    match e
    case SendStep(i, q) => StepKeepsArriving(c, k, p, m, q);
    case Post(i, q, n) => assert c.sending == map[p := Sending(m, First, false)] ==> p in c.sending;
    case _ =>
  }

  lemma OverlapStays(c: Channel, e: Event, id: nat, open: bool)
    ensures c.overlapped ==> ChannelAfter(c, e, id, open).overlapped
  {
  }

  /** In every run with posts one at a time, a response posted while there is room enters the buffer, and from there
      it is received, evicted or still buffered, in its place. */
  lemma {:induction false} ResponseArrives(es: seq<Event>, id: nat, p: nat, m: Msg, more: seq<Event>)
    requires id in Run(es).q.inFlight && id in Run(es).chans
    requires Run(es).chans[id].sending == map[] && |Run(es).chans[id].buf| < CAPACITY
    ensures id in Run(es + [Post(id, p, m)] + more).chans
    ensures var c, d := Run(es).chans[id], Run(es + [Post(id, p, m)] + more).chans[id];
            !d.overlapped ==>
              || (p in d.sending && d.sending[p].msg == m)
              || (|d.entered| > |c.entered| && d.entered[|c.entered|] == m && d.entered == d.popped + d.buf)
  {
    var posted := es + [Post(id, p, m)];
    ArrivesAtFirst(es, id, p, m);
    ArrivesFrom(posted, more, id, |Run(es).chans[id].entered|, p, m);
    ChannelIsValid(posted + more, id);
  }

  lemma ChannelIsValid(es: seq<Event>, id: nat)
    requires id in Run(es).chans
    ensures Valid(Run(es).chans[id])
  {
    RunKeepsInv(es);
    assert Sound(Run(es).chans[id], id in Run(es).finished);
  }

  lemma AdmitArrives(c: Channel, p: nat, m: Msg)
    requires c.sending == map[] && |c.buf| < CAPACITY
    ensures Arriving(Admit(c, p, m), |c.entered|, p, m)
  {
  }

  lemma ArrivesAtFirst(es: seq<Event>, id: nat, p: nat, m: Msg)
    requires id in Run(es).q.inFlight && id in Run(es).chans
    requires Run(es).chans[id].sending == map[] && |Run(es).chans[id].buf| < CAPACITY
    ensures id in Run(es + [Post(id, p, m)]).chans
    ensures Arriving(Run(es + [Post(id, p, m)]).chans[id], |Run(es).chans[id].entered|, p, m)
  {
    OneChannelInRun(es, Post(id, p, m), id);
    AdmitArrives(Run(es).chans[id], p, m);
  }

  lemma {:induction false} ArrivesFrom(posted: seq<Event>, more: seq<Event>, id: nat, k: nat, p: nat, m: Msg)
    requires id in Run(posted).chans && Arriving(Run(posted).chans[id], k, p, m)
    ensures id in Run(posted + more).chans
    ensures !Run(posted + more).chans[id].overlapped ==> Arriving(Run(posted + more).chans[id], k, p, m)
  {
    if more == [] {
      assert posted + more == posted;
    } else {
      var init, e := more[..|more| - 1], more[|more| - 1];
      ArrivesFrom(posted, init, id, k, p, m);
      ArrivesOnce(posted + init, e, id, k, p, m);
      assert posted + more == posted + init + [e];
    }
  }

  lemma ArrivesOnce(es: seq<Event>, e: Event, id: nat, k: nat, p: nat, m: Msg)
    requires id in Run(es).chans && (!Run(es).chans[id].overlapped ==> Arriving(Run(es).chans[id], k, p, m))
    ensures id in Run(es + [e]).chans
    ensures !Run(es + [e]).chans[id].overlapped ==> Arriving(Run(es + [e]).chans[id], k, p, m)
  {
    var c, open := Run(es).chans[id], id in Run(es).q.inFlight;
    OneChannelInRun(es, e, id);
    OverlapStays(c, e, id, open);
    if !c.overlapped {
      EventKeepsArriving(c, e, id, open, k, p, m);
    }
  }

  // ----- Leaving --------------------------------------------------------------------------------

  /** In every run, a cancelled request is neither pending nor in flight, and no other request is touched. */
  lemma CancelledIsGone(es: seq<Event>, id: nat)
    ensures var s, t := Run(es), Run(es + [CancelRequest(id)]);
            && id !in Ids(t.q.pending) && id !in t.q.inFlight
            && t.q.pending == Keep(s.q.pending, {id}) && t.q.inFlight == s.q.inFlight - {id}
            && s.q.gen < t.q.gen
  {
    var s := Run(es);
    RunSnoc(es, CancelRequest(id));
    RunKeepsInv(es);
    LiveIds(s);
    RemoveFirstIsKeep(s.q.pending, id);
    KeepMembers(s.q.pending, {id});
  }

  /** A poller whose context ends is gone, and nobody else notices. */
  lemma LeaversAreGone(es: seq<Event>, k: nat)
    ensures Run(es + [PollLeaves(k)]) == Run(es).(parked := Run(es).parked - {k})
  {
    RunSnoc(es, PollLeaves(k));
  }

  /** So is a WaitForPoll caller. */
  lemma WaitersMayLeave(es: seq<Event>, k: nat)
    ensures Run(es + [WaitLeaves(k)]) == Run(es).(waiting := Run(es).waiting - {k})
  {
    RunSnoc(es, WaitLeaves(k));
  }
}
