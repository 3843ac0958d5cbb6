/** Every interleaving of the local control plane: ingress handlers, pollers, response posters,
    `WaitForPoll` callers and cancellations, each critical section and each channel operation one event.
 */
module LocalControlPlane {
  import opened LocalQueue
  import opened ResponseChannel

  datatype State = State(
    q: Queue,
    nextId: nat,
    enqueuing: map<nat, Request>,   // id drawn, not yet appended
    chans: map<nat, Channel>,       // one response channel per appended request
    parked: map<nat, nat>,          // pollers blocked on the state channel of that generation
    waiting: map<nat, nat>,         // WaitForPoll callers, likewise
    // history
    appended: seq<Request>,
    delivered: seq<Request>,        // concatenation of all poll batches
    cancelledPending: set<nat>,
    cancelledInFlight: set<nat>,
    finished: set<nat>)

  const INIT := State(EMPTY, 0, map[], map[], map[], map[], [], [], {}, {}, {})

  datatype Event =
    | Draw(command: string)
    | Append(id: nat)
    | PollOnce(poller: nat, limit: int)
    | PollLeaves(poller: nat)
    | WaitCheck(waiter: nat)
    | WaitLeaves(waiter: nat)
    | Post(id: nat, poster: nat, msg: Msg)
    | SendStep(id: nat, poster: nat)
    | CallerReceives(id: nat)
    | CancelRequest(id: nat)

  /** parsePositiveInt with the fallback that handlePoll passes. */
  function PositiveOr(value: int, fallback: int): int {
    if value <= 0 then fallback else value
  }

  function AppendRequest(s: State, id: nat): State {
    if id !in s.enqueuing then s
    else
      var r := s.enqueuing[id];
      s.(q := Enqueue(s.q, r), enqueuing := s.enqueuing - {id},
         chans := s.chans[id := FRESH], appended := s.appended + [r])
  }

  function PollRound(s: State, p: nat, raw: int): State {
    if p in s.parked && s.parked[p] == s.q.gen then s
    else
      var limit := PositiveOr(raw, 1);
      var n := BatchSize(s.q, limit);
      var q' := Poll(s.q, limit);
      s.(q := q', delivered := s.delivered + s.q.pending[..n],
         parked := if n == 0 then s.parked[p := q'.gen] else s.parked - {p})
  }

  function PostResponse(s: State, id: nat, p: nat, m: Msg): State {
    if id in s.q.inFlight && id in s.chans && p in s.chans[id].sending then s
    else s.(q := Respond(s.q, id, m.final),
            chans := if id in s.q.inFlight then Posted(s.chans, id, p, m) else s.chans,
            finished := if id in s.q.inFlight && m.final then s.finished + {id} else s.finished)
  }

  function Posted(chans: map<nat, Channel>, id: nat, p: nat, m: Msg): map<nat, Channel> {
    var c := if id in chans then chans[id] else FRESH;
    if p in c.sending then chans else chans[id := Admit(c, p, m)]
  }

  function SendOnce(s: State, id: nat, p: nat): State {
    if id !in s.chans then s else s.(chans := s.chans[id := Step(s.chans[id], p)])
  }

  function TakeOne(s: State, id: nat): State {
    if id !in s.chans then s else s.(chans := s.chans[id := Receive(s.chans[id])])
  }

  function CancelPending(s: State, id: nat): State {
    s.(q := Cancel(s.q, id),
       cancelledPending := if id in Ids(s.q.pending) then s.cancelledPending + {id} else s.cancelledPending,
       cancelledInFlight := if id in s.q.inFlight then s.cancelledInFlight + {id} else s.cancelledInFlight)
  }

  /** A blocked goroutine cannot move before its channel is closed; an event that is not enabled leaves
      the state alone. */
  function Apply(s: State, e: Event): State {
    match e
    case Draw(command) =>
      var id := s.nextId + 1;
      s.(nextId := id, enqueuing := s.enqueuing[id := Request(id, command)])
    case Append(id) => AppendRequest(s, id)
    case PollOnce(p, raw) => PollRound(s, p, raw)
    case PollLeaves(p) => s.(parked := s.parked - {p})
    case WaitCheck(w) =>
      if w in s.waiting && s.waiting[w] == s.q.gen then s
      else s.(waiting := if s.q.polled then s.waiting - {w} else s.waiting[w := s.q.gen])
    case WaitLeaves(w) => s.(waiting := s.waiting - {w})
    case Post(id, p, m) => PostResponse(s, id, p, m)
    case SendStep(id, p) => SendOnce(s, id, p)
    case CallerReceives(id) => TakeOne(s, id)
    case CancelRequest(id) => CancelPending(s, id)
  }

  function Run(es: seq<Event>): State {
    if es == [] then INIT else Apply(Run(es[..|es| - 1]), es[|es| - 1])
  }

  // ----- Invariant ------------------------------------------------------------------------------

  ghost predicate Numbered(s: State) {
    && DistinctIds(s.appended)
    && (forall r :: r in s.appended ==> r.id <= s.nextId)
    && (forall id :: id in s.enqueuing ==>
          id <= s.nextId && s.enqueuing[id].id == id && id !in Ids(s.appended))
  }

  /** Delivered requests, then pending ones, are the appended ones minus those cancelled while pending. */
  ghost predicate Order(s: State) {
    && s.delivered + s.q.pending == Keep(s.appended, s.cancelledPending)
    && s.cancelledPending <= Ids(s.appended)
  }

  /** The table holds the delivered requests that are neither finished nor cancelled. */
  ghost predicate TableOf(table: map<nat, Request>, delivered: seq<Request>, finished: set<nat>, cancelled: set<nat>) {
    && table.Keys == Ids(delivered) - finished - cancelled
    && finished + cancelled <= Ids(delivered)
    && finished !! cancelled
    && (forall id :: id in table ==> table[id] in delivered && table[id].id == id)
  }

  ghost predicate Table(s: State) {
    TableOf(s.q.inFlight, s.delivered, s.finished, s.cancelledInFlight)
  }

  ghost predicate Sound(c: Channel, done: bool) {
    Valid(c) && (c.outcome == NotPosted <==> !done)
  }

  ghost predicate AllSound(chans: map<nat, Channel>, finished: set<nat>) {
    forall id :: id in chans ==> Sound(chans[id], id in finished)
  }

  ghost predicate Channels(s: State) {
    s.chans.Keys == Ids(s.appended) && AllSound(s.chans, s.finished)
  }

  /** No lost wakeup: a goroutine parked although its condition holds has a closed channel. */
  ghost predicate WakeupsOf(parked: map<nat, nat>, waiting: map<nat, nat>, gen: nat, work: bool, polled: bool) {
    && (forall p :: p in parked ==> parked[p] <= gen && (work ==> parked[p] < gen))
    && (forall p, p' :: p in parked && p' in parked && parked[p] == gen && parked[p'] == gen ==> p == p')
    && (forall w :: w in waiting ==> waiting[w] <= gen && (polled ==> waiting[w] < gen))
  }

  ghost predicate Wakeups(s: State) {
    WakeupsOf(s.parked, s.waiting, s.q.gen, s.q.pending != [], s.q.polled)
  }

  ghost predicate QueueInv(s: State) {
    Numbered(s) && Order(s) && Table(s)
  }

  ghost predicate Inv(s: State) {
    QueueInv(s) && Channels(s) && Wakeups(s)
  }

  // ----- Id bookkeeping -------------------------------------------------------------------------

  lemma IdsAppend(a: seq<Request>, b: seq<Request>)
    ensures Ids(a + b) == Ids(a) + Ids(b)
  {
  }

  lemma DistinctAcross(a: seq<Request>, b: seq<Request>)
    requires DistinctIds(a + b)
    ensures DistinctIds(a) && DistinctIds(b) && Ids(a) !! Ids(b)
  {
    var ab := a + b;
    forall i, j | 0 <= i < j < |b| ensures b[i].id != b[j].id {
      assert b[i] == ab[|a| + i] && b[j] == ab[|a| + j];
    }
    forall i, j | 0 <= i < j < |a| ensures a[i].id != a[j].id {
      assert a[i] == ab[i] && a[j] == ab[j];
    }
    forall x, y | x in a && y in b ensures x.id != y.id {
      var i :| 0 <= i < |a| && a[i] == x;
      var j :| 0 <= j < |b| && b[j] == y;
      assert a[i] == ab[i] && b[j] == ab[|a| + j];
    }
  }

  /** What the order invariant says about ids. */
  lemma LiveIds(s: State)
    requires Numbered(s) && Order(s)
    ensures DistinctIds(s.delivered) && DistinctIds(s.q.pending)
    ensures Ids(s.delivered) !! Ids(s.q.pending)
    ensures Ids(s.delivered) + Ids(s.q.pending) == Ids(s.appended) - s.cancelledPending
  {
    KeepMembers(s.appended, s.cancelledPending);
    DistinctAcross(s.delivered, s.q.pending);
    IdsAppend(s.delivered, s.q.pending);
    var kept := Keep(s.appended, s.cancelledPending);
    forall id | id in Ids(s.appended) - s.cancelledPending ensures id in Ids(kept) {
      var r :| r in s.appended && r.id == id;
      assert r in kept;
    }
  }

  // ----- Each event keeps the queue invariant ---------------------------------------------------

  lemma AppendKeepsQueue(s: State, id: nat)
    requires QueueInv(s) && id in s.enqueuing
    ensures QueueInv(AppendRequest(s, id))
  {
    var s' := AppendRequest(s, id);
    var r := s.enqueuing[id];
    KeepAppend(s.appended, [r], s.cancelledPending);
    assert Keep([r], s.cancelledPending) == [r];
    assert s'.delivered + s'.q.pending == (s.delivered + s.q.pending) + [r];
    IdsAppend(s.appended, [r]);
  }

  lemma TableAfterPoll(table: map<nat, Request>, delivered: seq<Request>, finished: set<nat>, cancelled: set<nat>,
                       batch: seq<Request>)
    requires TableOf(table, delivered, finished, cancelled)
    requires DistinctIds(batch) && Ids(delivered) !! Ids(batch)
    ensures TableOf(AddAll(table, batch), delivered + batch, finished, cancelled)
  {
    AddAllContents(table, batch);
    IdsAppend(delivered, batch);
    var table' := AddAll(table, batch);
    forall id | id in table' ensures table'[id] in delivered + batch && table'[id].id == id {
      if id in Ids(batch) {
        var r :| r in batch && r.id == id;
      }
    }
  }

  lemma PollKeepsQueue(s: State, p: nat, raw: int)
    requires QueueInv(s)
    ensures QueueInv(PollRound(s, p, raw))
  {
    LiveIds(s);
    var n := BatchSize(s.q, PositiveOr(raw, 1));
    var batch, rest := s.q.pending[..n], s.q.pending[n..];
    assert s.q.pending == batch + rest;
    assert s.delivered + batch + rest == s.delivered + s.q.pending;
    DistinctAcross(batch, rest);
    IdsAppend(batch, rest);
    TableAfterPoll(s.q.inFlight, s.delivered, s.finished, s.cancelledInFlight, batch);
    assert n == 0 ==> s.delivered + batch == s.delivered;
  }

  /** Cancelling a pending request takes it out of the kept ones. */
  lemma OrderAfterCancel(delivered: seq<Request>, pending: seq<Request>, appended: seq<Request>,
                         dropped: set<nat>, id: nat)
    requires delivered + pending == Keep(appended, dropped)
    requires DistinctIds(pending) && id !in Ids(delivered)
    ensures delivered + RemoveFirst(pending, id) == Keep(appended, dropped + {id})
  {
    RemoveFirstIsKeep(pending, id);
    KeepTwice(appended, dropped, id);
    KeepAppend(delivered, pending, {id});
    KeepAll(delivered, {id});
  }

  lemma {:induction false} RemoveFirstAbsent(rs: seq<Request>, id: nat)
    requires id !in Ids(rs)
    ensures RemoveFirst(rs, id) == rs
  {
    if rs != [] {
      assert rs[0].id != id && Ids(rs[1..]) <= Ids(rs);
      RemoveFirstAbsent(rs[1..], id);
    }
  }

  lemma TableAfterRetire(table: map<nat, Request>, delivered: seq<Request>, finished: set<nat>, cancelled: set<nat>,
                         id: nat)
    requires TableOf(table, delivered, finished, cancelled) && id in table
    ensures TableOf(table - {id}, delivered, finished + {id}, cancelled)
    ensures TableOf(table - {id}, delivered, finished, cancelled + {id})
  {
  }

  lemma CancelKeepsOrder(s: State, id: nat)
    requires Numbered(s) && Order(s)
    ensures Order(CancelPending(s, id))
  {
    LiveIds(s);
    if id in Ids(s.q.pending) {
      OrderAfterCancel(s.delivered, s.q.pending, s.appended, s.cancelledPending, id);
    } else {
      RemoveFirstAbsent(s.q.pending, id);
    }
  }

  lemma CancelKeepsTable(s: State, id: nat)
    requires Table(s)
    ensures Table(CancelPending(s, id))
  {
    if id in s.q.inFlight {
      TableAfterRetire(s.q.inFlight, s.delivered, s.finished, s.cancelledInFlight, id);
    } else {
      assert s.q.inFlight - {id} == s.q.inFlight;
    }
  }

  lemma CancelKeepsQueue(s: State, id: nat)
    requires QueueInv(s)
    ensures QueueInv(CancelPending(s, id))
  {
    CancelKeepsOrder(s, id);
    CancelKeepsTable(s, id);
  }

  lemma PostKeepsQueue(s: State, id: nat, p: nat, m: Msg)
    requires QueueInv(s)
    ensures QueueInv(PostResponse(s, id, p, m))
  {
    if id in s.q.inFlight && m.final {
      TableAfterRetire(s.q.inFlight, s.delivered, s.finished, s.cancelledInFlight, id);
    }
  }

  lemma DrawKeepsQueue(s: State, command: string)
    requires QueueInv(s)
    ensures QueueInv(Apply(s, Draw(command)))
  {
    var t := Apply(s, Draw(command));
    assert t.nextId !in Ids(s.appended);
    assert Numbered(t);
  }

  /** Events that touch neither the queue nor its history. */
  predicate Elsewhere(e: Event) {
    e.PollLeaves? || e.WaitCheck? || e.WaitLeaves? || e.SendStep? || e.CallerReceives?
  }

  lemma ElsewhereChanges(s: State, e: Event)
    requires Elsewhere(e)
    ensures var t := Apply(s, e); t == s.(parked := t.parked, waiting := t.waiting, chans := t.chans)
  {
  }

  lemma OthersMayChange(s: State, parked: map<nat, nat>, waiting: map<nat, nat>, chans: map<nat, Channel>)
    requires QueueInv(s)
    ensures QueueInv(s.(parked := parked, waiting := waiting, chans := chans))
  {
    var t := s.(parked := parked, waiting := waiting, chans := chans);
    assert Numbered(t);
    assert Order(t);
    assert Table(t);
  }

  lemma ElsewhereKeepsQueue(s: State, e: Event)
    requires QueueInv(s) && Elsewhere(e)
    ensures QueueInv(Apply(s, e))
  {
    var t := Apply(s, e);
    ElsewhereChanges(s, e);
    OthersMayChange(s, t.parked, t.waiting, t.chans);
  }

  lemma ApplyKeepsQueue(s: State, e: Event)
    requires QueueInv(s)
    ensures QueueInv(Apply(s, e))
  {
    match e
    case Draw(command) => DrawKeepsQueue(s, command);
    case Append(id) => if id in s.enqueuing { AppendKeepsQueue(s, id); }
    case PollOnce(p, raw) => PollKeepsQueue(s, p, raw);
    case Post(id, p, m) => PostKeepsQueue(s, id, p, m);
    case CancelRequest(id) => CancelKeepsQueue(s, id);
    case _ => ElsewhereKeepsQueue(s, e);
  }

  // ----- ... the channels ... -------------------------------------------------------------------

  lemma UpdateSound(chans: map<nat, Channel>, finished: set<nat>, id: nat, c: Channel, finished': set<nat>)
    requires AllSound(chans, finished) && Sound(c, id in finished')
    requires forall k :: k != id ==> (k in finished' <==> k in finished)
    ensures AllSound(chans[id := c], finished')
  {
  }

  /** A request about to be appended is not finished. */
  lemma NewIsUnfinished(s: State, id: nat)
    requires QueueInv(s) && id in s.enqueuing
    ensures id !in s.finished && s.enqueuing[id].id == id
  {
    LiveIds(s);
  }

  lemma FreshIsSound()
    ensures Sound(FRESH, false)
  {
    FreshValid();
  }

  lemma NewChannelIsSound(chans: map<nat, Channel>, finished: set<nat>, id: nat)
    requires AllSound(chans, finished) && id !in finished
    ensures AllSound(chans[id := FRESH], finished)
  {
    FreshIsSound();
    UpdateSound(chans, finished, id, FRESH, finished);
  }

  lemma OneMoreId(ids: set<nat>, rs: seq<Request>, r: Request)
    requires ids == Ids(rs)
    ensures ids + {r.id} == Ids(rs + [r])
  {
    IdsAppend(rs, [r]);
    assert Ids([r]) == {r.id};
  }

  lemma AppendKeepsChannels(s: State, id: nat)
    requires Channels(s) && id in s.enqueuing && s.enqueuing[id].id == id && id !in s.finished
    ensures Channels(AppendRequest(s, id))
  {
    var t := AppendRequest(s, id);
    OneMoreId(s.chans.Keys, s.appended, s.enqueuing[id]);
    NewChannelIsSound(s.chans, s.finished, id);
    NewChannelKeys(s.chans, id, FRESH);
    ChannelsFrom(t, s.chans[id := FRESH], s.finished);
  }

  lemma NewChannelKeys(chans: map<nat, Channel>, id: nat, c: Channel)
    ensures chans[id := c].Keys == chans.Keys + {id}
  {
  }

  lemma ChannelsFrom(t: State, chans: map<nat, Channel>, finished: set<nat>)
    requires t.chans == chans && t.finished == finished && chans.Keys == Ids(t.appended) && AllSound(chans, finished)
    ensures Channels(t)
  {
  }

  lemma AdmitKeepsSound(c: Channel, p: nat, m: Msg)
    requires Sound(c, false) && p !in c.sending
    ensures Sound(Admit(c, p, m), m.final)
  {
    AdmitKeepsValid(c, p, m);
  }

  /** A channel operation does not change whether a final response was posted. */
  lemma StepKeepsSound(c: Channel, p: nat, done: bool)
    requires Sound(c, done)
    ensures Sound(Step(c, p), done)
  {
    StepKeepsValid(c, p);
  }

  lemma ReceiveKeepsSound(c: Channel, done: bool)
    requires Sound(c, done)
    ensures Sound(Receive(c), done)
  {
    ReceiveKeepsValid(c);
  }

  lemma ReplaceKeepsChannels(s: State, id: nat, c: Channel, finished': set<nat>)
    requires Channels(s) && id in s.chans && Sound(c, id in finished')
    requires forall k :: k != id ==> (k in finished' <==> k in s.finished)
    ensures Channels(s.(chans := s.chans[id := c], finished := finished'))
  {
    UpdateSound(s.chans, s.finished, id, c, finished');
  }

  /** A request in flight has a channel, and its final response has not been posted. */
  lemma InFlightIsOpen(s: State, id: nat)
    requires QueueInv(s) && Channels(s) && id in s.q.inFlight
    ensures id in s.chans && Sound(s.chans[id], false)
  {
    LiveIds(s);
  }

  lemma PostKeepsChannels(s: State, id: nat, p: nat, m: Msg)
    requires Channels(s) && id in s.q.inFlight && id in s.chans && Sound(s.chans[id], false)
    ensures Channels(PostResponse(s, id, p, m))
  {
    var c := s.chans[id];
    if p !in c.sending {
      AdmitKeepsSound(c, p, m);
      ReplaceKeepsChannels(s, id, Admit(c, p, m), if m.final then s.finished + {id} else s.finished);
    }
  }

  lemma SendKeepsChannels(s: State, id: nat, p: nat)
    requires Channels(s) && id in s.chans
    ensures Channels(SendOnce(s, id, p))
  {
    StepKeepsSound(s.chans[id], p, id in s.finished);
    ReplaceKeepsChannels(s, id, Step(s.chans[id], p), s.finished);
  }

  lemma ReceiveKeepsChannels(s: State, id: nat)
    requires Channels(s) && id in s.chans
    ensures Channels(TakeOne(s, id))
  {
    ReceiveKeepsSound(s.chans[id], id in s.finished);
    ReplaceKeepsChannels(s, id, Receive(s.chans[id]), s.finished);
  }

  /** Every other event leaves the channels alone. */
  lemma SameChannels(s: State, t: State)
    requires Channels(s) && t.chans == s.chans && t.appended == s.appended && t.finished == s.finished
    ensures Channels(t)
  {
  }

  /** What an event relies on: a request to append is new, and one to answer is open. */
  ghost predicate Expected(s: State, e: Event) {
    match e
    case Append(id) => id in s.enqueuing ==> s.enqueuing[id].id == id && id !in s.finished
    case Post(id, _, _) => id in s.q.inFlight ==> id in s.chans && Sound(s.chans[id], false)
    case _ => true
  }

  lemma EventsAreExpected(s: State, e: Event)
    requires QueueInv(s) && Channels(s)
    ensures Expected(s, e)
  {
    match e
    case Append(id) => if id in s.enqueuing { NewIsUnfinished(s, id); }
    case Post(id, _, _) => if id in s.q.inFlight { InFlightIsOpen(s, id); }
    case _ =>
  }

  lemma ApplyKeepsChannels(s: State, e: Event)
    requires Channels(s) && Expected(s, e)
    ensures Channels(Apply(s, e))
  {
    match e
    case Append(id) => if id in s.enqueuing { AppendKeepsChannels(s, id); }
    case Post(id, p, m) =>
      if id in s.q.inFlight {
        PostKeepsChannels(s, id, p, m);
      } else {
        SameChannels(s, PostResponse(s, id, p, m));
      }
    case SendStep(id, p) => if id in s.chans { SendKeepsChannels(s, id, p); }
    case CallerReceives(id) => if id in s.chans { ReceiveKeepsChannels(s, id); }
    case PollOnce(p, raw) => SameChannels(s, PollRound(s, p, raw));
    case CancelRequest(id) => SameChannels(s, CancelPending(s, id));
    case _ => SameChannels(s, Apply(s, e));
  }

  // ----- ... and the wakeups --------------------------------------------------------------------

  /** Every signal closes the channel of everyone parked, whatever else changes. */
  lemma SignalWakesAll(parked: map<nat, nat>, waiting: map<nat, nat>, gen: nat, work: bool, polled: bool,
                       gen': nat, work': bool, polled': bool, p: nat)
    requires WakeupsOf(parked, waiting, gen, work, polled) && gen < gen'
    ensures WakeupsOf(parked, waiting, gen', work', polled')
    ensures WakeupsOf(parked - {p}, waiting, gen', work', polled')
    ensures !work' ==> WakeupsOf(parked[p := gen'], waiting, gen', work', polled')
  {
  }

  lemma PollKeepsWakeups(s: State, p: nat, raw: int)
    requires Wakeups(s)
    ensures Wakeups(PollRound(s, p, raw))
  {
    var q' := Poll(s.q, PositiveOr(raw, 1));
    SignalWakesAll(s.parked, s.waiting, s.q.gen, s.q.pending != [], s.q.polled, q'.gen, q'.pending != [], q'.polled, p);
  }

  lemma AppendKeepsWakeups(s: State, id: nat)
    requires Wakeups(s)
    ensures Wakeups(AppendRequest(s, id))
  {
    SignalWakesAll(s.parked, s.waiting, s.q.gen, s.q.pending != [], s.q.polled, s.q.gen + 1, true, s.q.polled, 0);
  }

  /** A response signals and leaves the pending requests and the parked goroutines alone. */
  lemma PostSignals(s: State, id: nat, p: nat, m: Msg)
    ensures var t := PostResponse(s, id, p, m);
            && t.parked == s.parked && t.waiting == s.waiting
            && (t.q.gen == s.q.gen || t.q.gen == s.q.gen + 1) && t.q.pending == s.q.pending && t.q.polled == s.q.polled
  {
  }

  lemma PostKeepsWakeups(s: State, id: nat, p: nat, m: Msg)
    requires Wakeups(s)
    ensures Wakeups(PostResponse(s, id, p, m))
  {
    var t := PostResponse(s, id, p, m);
    PostSignals(s, id, p, m);
    if t.q.gen != s.q.gen {
      SignalWakesAll(s.parked, s.waiting, s.q.gen, s.q.pending != [], s.q.polled,
                     t.q.gen, s.q.pending != [], s.q.polled, p);
    }
  }

  lemma CancelKeepsWakeups(s: State, id: nat)
    requires Wakeups(s)
    ensures Wakeups(CancelPending(s, id))
  {
    var work := RemoveFirst(s.q.pending, id) != [];
    SignalWakesAll(s.parked, s.waiting, s.q.gen, s.q.pending != [], s.q.polled, s.q.gen + 1, work, s.q.polled, 0);
  }

  lemma LeavingKeepsWakeups(parked: map<nat, nat>, waiting: map<nat, nat>, gen: nat, work: bool, polled: bool, p: nat)
    requires WakeupsOf(parked, waiting, gen, work, polled)
    ensures WakeupsOf(parked - {p}, waiting, gen, work, polled)
    ensures WakeupsOf(parked, waiting - {p}, gen, work, polled)
    ensures !polled ==> WakeupsOf(parked, waiting[p := gen], gen, work, polled)
  {
  }

  lemma ApplyKeepsWakeups(s: State, e: Event)
    requires Wakeups(s)
    ensures Wakeups(Apply(s, e))
  {
    match e
    case Append(id) => AppendKeepsWakeups(s, id);
    case Post(id, p, m) => PostKeepsWakeups(s, id, p, m);
    case CancelRequest(id) => CancelKeepsWakeups(s, id);
    case PollOnce(p, raw) => PollKeepsWakeups(s, p, raw);
    case PollLeaves(p) => LeavingKeepsWakeups(s.parked, s.waiting, s.q.gen, s.q.pending != [], s.q.polled, p);
    case WaitCheck(p) => LeavingKeepsWakeups(s.parked, s.waiting, s.q.gen, s.q.pending != [], s.q.polled, p);
    case WaitLeaves(p) => LeavingKeepsWakeups(s.parked, s.waiting, s.q.gen, s.q.pending != [], s.q.polled, p);
    case _ =>
  }

  lemma {:induction false} RunKeepsInv(es: seq<Event>)
    ensures Inv(Run(es))
  {
    if es != [] {
      RunKeepsInv(es[..|es| - 1]);
      var s, e := Run(es[..|es| - 1]), es[|es| - 1];
      ApplyKeepsQueue(s, e);
      EventsAreExpected(s, e);
      ApplyKeepsChannels(s, e);
      ApplyKeepsWakeups(s, e);
    }
  }

  // ----- Main results ---------------------------------------------------------------------------

  ghost predicate ExactlyOne(a: bool, b: bool, c: bool, d: bool) {
    && (a || b || c || d)
    && !(a && b) && !(a && c) && !(a && d) && !(b && c) && !(b && d) && !(c && d)
  }

  /** In every run, an enqueued request is pending, in flight, finished or cancelled, never two of them;
      and whatever is in the queue or the table was enqueued. */
  lemma {:induction false} EveryRequestInOnePlace(es: seq<Event>, id: nat)
    ensures var s := Run(es);
            && (id in Ids(s.appended) <==>
                  || id in Ids(s.q.pending) || id in s.q.inFlight
                  || id in s.finished || id in s.cancelledPending + s.cancelledInFlight)
            && (id in Ids(s.appended) ==>
                  ExactlyOne(id in Ids(s.q.pending), id in s.q.inFlight, id in s.finished,
                             id in s.cancelledPending + s.cancelledInFlight))
  {
    RunKeepsInv(es);
    LiveIds(Run(es));
  }

  /** In every run, no request is handed to two polls, and the poll batches, followed by what is still
      pending, are exactly the enqueued requests in order, minus those cancelled while pending. */
  lemma {:induction false} DeliveryOrder(es: seq<Event>)
    ensures var s := Run(es);
            && DistinctIds(s.delivered)
            && s.delivered + s.q.pending == Keep(s.appended, s.cancelledPending)
  {
    RunKeepsInv(es);
    LiveIds(Run(es));
  }

  /** In every run, a parked poller facing a non-empty queue, and a parked `WaitForPoll` caller after a
      poll, hold a closed channel; and at most one parked poller holds an open one, because every poll
      signals before it parks. */
  lemma {:induction false} NoLostWakeup(es: seq<Event>)
    ensures var s := Run(es);
            && (forall p :: p in s.parked && s.q.pending != [] ==> s.parked[p] < s.q.gen)
            && (forall w :: w in s.waiting && s.q.polled ==> s.waiting[w] < s.q.gen)
            && (forall p, p' :: p in s.parked && p' in s.parked && p != p' ==>
                  s.parked[p] < s.q.gen || s.parked[p'] < s.q.gen)
  {
    RunKeepsInv(es);
  }

  /** In every run and for every request: only notifications are evicted, and the final response is lost
      only if posts for that request overlapped. When they did not, the caller has received a
      subsequence of the posts in order, and a final response that reached the buffer comes last. */
  lemma {:induction false} ResponsesReachTheCaller(es: seq<Event>, id: nat)
    requires id in Run(es).chans
    ensures var c := Run(es).chans[id];
            && NoFinal(c.evicted)
            && (c.outcome == Lost ==> c.overlapped)
            && (id in Run(es).finished <==> c.outcome != NotPosted)
            && (!c.overlapped ==>
                  && Subsequence(c.received + c.buf, c.posted)
                  && (id in Run(es).finished && c.sending == map[] ==>
                        c.received + c.buf != [] && Last(c.received + c.buf).final))
  {
    RunKeepsInv(es);
    var c := Run(es).chans[id];
    assert Sound(c, id in Run(es).finished);
    if !c.overlapped {
      InOrder(c);
      if c.buf != [] {
        assert c.received + c.buf != [] && Last(c.received + c.buf) == Last(c.buf);
      } else {
        assert c.received + c.buf == c.received;
      }
    }
  }
}
