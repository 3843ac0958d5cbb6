/** The cached transport factory (pkg/mcpclient/channel_transport_factory.go): two maps guarded by one mutex, each
    checked before and inside a singleflight call. `Build` calls `httpClientForKey` from inside its own flight, so
    a call that leads a transport flight runs a nested call of the client cache, with a flight of its own. Every
    lock, unlock and singleflight operation is an event.
 */
module TransportCache {
  import opened Wrappers

  datatype Outcome = Ok(value: nat) | Err

  /** What is cached: the transport of a channel, or an HTTP client. */
  datatype Key = Transport(channel: string) | Client(name: string)

  /** A caller's own call, or the client call made from inside transport flight f. */
  datatype Id = Caller(n: nat) | Nested(f: nat)

  /** Where a call stands; `f` is its flight. */
  datatype Pc =
    | FastLock | FastHeld          // first look at the cache
    | Join                         // singleflight.Do
    | CheckLock(f: nat) | CheckHeld(f: nat)
    | Preparing(f: nat)            // transport flight: select the provider, then ask for the client
    | Calling(f: nat)              // transport flight: inside the nested client call
    | Building(f: nat, client: Option<nat>)   // build, mutex not held
    | StoreLock(f: nat, v: nat) | StoreHeld(f: nat, v: nat)
    | Finish(f: nat, r: Outcome)
    | Waiting(f: nat)              // another call leads the flight
    | Done(r: Outcome)

  /** `uses` names the client of a transport call: its channel, or "default" for the other transport kinds. */
  datatype Call = Call(key: Key, uses: string, pc: Pc)

  datatype Flight = Flight(key: Key, leader: Id, result: Option<Outcome>)

  datatype Built = Built(key: Key, value: nat, uses: string, client: Option<nat>)

  datatype State = State(
    mutex: Option<Id>,
    calls: map<Id, Call>,
    cache: map<Key, nat>,
    active: map<Key, nat>,         // the two singleflight groups: key to running flight
    flights: map<nat, Flight>,
    nextFlight: nat,
    nextValue: nat,
    built: seq<Built>)             // successful builds, in order

  const INIT := State(None, map[], map[], map[], map[], 0, 0, [])

  const DEFAULT_CLIENT := "default"

  datatype Event =
    | BeginBuild(n: nat, channel: string, streamable: bool)
    | BeginClient(n: nat, name: string)
    | Step(call: Id, ok: bool)

  predicate Holds(pc: Pc) {
    pc == FastHeld || pc.CheckHeld? || pc.StoreHeld?
  }

  /** Before the nested call. */
  predicate Early(pc: Pc) {
    pc.CheckLock? || pc.CheckHeld? || pc.Preparing?
  }

  predicate Leads(pc: Pc) {
    Early(pc) || pc.Calling? || pc.Building? || pc.StoreLock? || pc.StoreHeld? || pc.Finish?
  }

  function Goto(s: State, c: Id, pc: Pc): State
    requires c in s.calls
  {
    s.(calls := s.calls[c := s.calls[c].(pc := pc)])
  }

  /** A step that changes only its own place, and takes or releases the mutex where the places say so. */
  function Move(s: State, c: Id, pc: Pc): State
    requires c in s.calls
  {
    Goto(s, c, pc).(mutex := if Holds(pc) then Some(c) else if Holds(s.calls[c].pc) then None else s.mutex)
  }

  /** singleflight.Do: follow the running flight of the key, or lead a new one. */
  function DoFlight(s: State, c: Id): State
    requires c in s.calls
  {
    var k := s.calls[c].key;
    if k in s.active then Goto(s, c, Waiting(s.active[k]))
    else
      var f := s.nextFlight;
      Goto(s, c, CheckLock(f)).(active := s.active[k := f], nextFlight := f + 1,
                                flights := s.flights[f := Flight(k, c, None)])
  }

  /** Enter the nested call of httpClientForKey. */
  function CallClient(s: State, c: Id, f: nat): State
    requires c in s.calls
  {
    var s' := Goto(s, c, Calling(f));
    s'.(calls := s'.calls[Nested(f) := Call(Client(s.calls[c].uses), "", FastLock)])
  }

  /** The provider or the client constructor succeeds. */
  function Construct(s: State, c: Id, f: nat, client: Option<nat>): State
    requires c in s.calls
  {
    var v := s.nextValue;
    Goto(s, c, StoreLock(f, v)).(nextValue := v + 1,
                                 built := s.built + [Built(s.calls[c].key, v, s.calls[c].uses, client)])
  }

  /** The end of a flight: its result is published and the key is free again. */
  function EndFlight(s: State, c: Id, f: nat, r: Outcome): State
    requires c in s.calls
  {
    if f !in s.flights then s
    else Goto(s, c, Done(r)).(active := s.active - {s.calls[c].key},
                              flights := s.flights[f := s.flights[f].(result := Some(r))])
  }

  /** What the nested call returned, if it has. */
  function NestedResult(s: State, f: nat): Option<Outcome> {
    if Nested(f) in s.calls && s.calls[Nested(f)].pc.Done? then Some(s.calls[Nested(f)].pc.r) else None
  }

  /** Store the build under the mutex and release it. */
  function Store(s: State, c: Id, f: nat, v: nat): State
    requires c in s.calls
  {
    Move(s, c, Finish(f, Ok(v))).(cache := s.cache[s.calls[c].key := v])
  }

  /** Where a call goes next by itself; a blocked call stays. */
  function Next(s: State, c: Id, ok: bool): Pc
    requires c in s.calls
  {
    var k := s.calls[c].key;
    match s.calls[c].pc
    case FastLock => if s.mutex.Some? then FastLock else FastHeld
    case FastHeld => if k in s.cache then Done(Ok(s.cache[k])) else Join
    case CheckLock(f) => if s.mutex.Some? then CheckLock(f) else CheckHeld(f)
    case CheckHeld(f) =>
      if k in s.cache then Finish(f, Ok(s.cache[k])) else if k.Transport? then Preparing(f) else Building(f, None)
    case Preparing(f) => Finish(f, Err)
    case Calling(f) =>
      var r := NestedResult(s, f);
      if r == None then Calling(f)
      else if r.value.Ok? && ok then Building(f, Some(r.value.value))
      else Finish(f, Err)
    case Building(f, client) => Finish(f, Err)
    case StoreLock(f, v) => if s.mutex.Some? then StoreLock(f, v) else StoreHeld(f, v)
    case Waiting(f) =>
      if f in s.flights && s.flights[f].result.Some? then Done(s.flights[f].result.value) else Waiting(f)
    case pc => pc
  }

  function StepCall(s: State, c: Id, ok: bool): State
    requires c in s.calls
  {
    var pc := s.calls[c].pc;
    if pc == Join then DoFlight(s, c)
    else if pc.Preparing? && ok then CallClient(s, c, pc.f)
    else if pc.Building? && ok then Construct(s, c, pc.f, pc.client)
    else if pc.StoreHeld? then Store(s, c, pc.f, pc.v)
    else if pc.Finish? then EndFlight(s, c, pc.f, pc.r)
    else Move(s, c, Next(s, c, ok))
  }

  /** The steps that touch nothing but the call's own place and the mutex. */
  predicate IsMove(pc: Pc, ok: bool) {
    pc != Join && !(pc.Preparing? && ok) && !(pc.Building? && ok) && !pc.StoreHeld? && !pc.Finish?
  }

  function Begin(s: State, n: nat, call: Call): State {
    if Caller(n) in s.calls then s else s.(calls := s.calls[Caller(n) := call])
  }

  /** An invalid channel is refused at once. */
  function Apply(s: State, e: Event): State {
    match e
    case BeginBuild(n, channel, streamable) =>
      Begin(s, n, Call(Transport(channel), if streamable then channel else DEFAULT_CLIENT,
                       if channel == "" then Done(Err) else FastLock))
    case BeginClient(n, name) => Begin(s, n, Call(Client(name), "", if name == "" then Done(Err) else FastLock))
    case Step(c, ok) => if c in s.calls then StepCall(s, c, ok) else s
  }

  function Run(es: seq<Event>): State {
    if es == [] then INIT else Apply(Run(es[..|es| - 1]), es[|es| - 1])
  }

  // ----- Invariant ------------------------------------------------------------------------------

  ghost predicate MutexInv(s: State) {
    && (forall c :: c in s.calls ==> (Holds(s.calls[c].pc) <==> s.mutex == Some(c)))
    && (s.mutex.Some? ==> s.mutex.value in s.calls)
  }

  /** The running flight of a key has a leader, and no result yet. */
  ghost predicate ActiveOk(s: State, k: Key)
    requires k in s.active
  {
    var f := s.active[k];
    && f in s.flights && s.flights[f].key == k && s.flights[f].result.None?
    && var c := s.flights[f].leader;
       c in s.calls && s.calls[c].key == k && Leads(s.calls[c].pc) && s.calls[c].pc.f == f
  }

  /** A leader leads the running flight of its key; a follower follows a flight of its key. */
  ghost predicate CallOk(s: State, c: Id)
    requires c in s.calls
  {
    var k, pc := s.calls[c].key, s.calls[c].pc;
    && (Leads(pc) ==>
          k in s.active && s.active[k] == pc.f && pc.f in s.flights && s.flights[pc.f].leader == c)
    && (pc.Waiting? ==>
          && pc.f in s.flights && s.flights[pc.f].key == k
          && (s.flights[pc.f].result.None? ==> k in s.active && s.active[k] == pc.f))
  }

  ghost predicate FlightInv(s: State) {
    && (forall f :: f in s.flights ==> f < s.nextFlight)
    && (forall k :: k in s.active ==> ActiveOk(s, k))
    && (forall c :: c in s.calls ==> CallOk(s, c))
  }

  /** Only transport flights nest, once, and what they nest is a client call: the order transport before client. */
  ghost predicate NestOk(s: State, c: Id)
    requires c in s.calls
  {
    var pc := s.calls[c].pc;
    && (Early(pc) ==> Nested(pc.f) !in s.calls)
    && (pc.Preparing? || pc.Calling? ==> s.calls[c].key.Transport?)
    && (pc.Calling? ==> Nested(pc.f) in s.calls && s.calls[Nested(pc.f)].key == Client(s.calls[c].uses))
    && (c.Nested? ==> c.f < s.nextFlight && s.calls[c].key.Client?)
  }

  ghost predicate NestInv(s: State) {
    forall c :: c in s.calls ==> NestOk(s, c)
  }

  ghost predicate OnePerKey(built: seq<Built>) {
    forall i, j :: 0 <= i < j < |built| ==> built[i].key != built[j].key
  }

  /** The leader of the running flight of `k` is about to store its build. */
  ghost predicate Storing(s: State, k: Key) {
    && k in s.active && s.active[k] in s.flights
    && var c := s.flights[s.active[k]].leader;
       c in s.calls && (s.calls[c].pc.StoreLock? || s.calls[c].pc.StoreHeld?)
  }

  ghost predicate Cached(s: State, k: Key, r: Outcome) {
    r.Ok? ==> k in s.cache && s.cache[k] == r.value
  }

  /** A build of this value for this key happened. */
  ghost predicate WasBuilt(built: seq<Built>, k: Key, v: nat) {
    exists i :: 0 <= i < |built| && built[i].key == k && built[i].value == v
  }

  /** The client that a transport build was given is the cached one of its name. */
  ghost predicate ClientOk(s: State, uses: string, client: Option<nat>) {
    client.Some? ==> Cached(s, Client(uses), Ok(client.value))
  }

  /** What a call may carry: its own unstored build, or the cached value. */
  ghost predicate ValueOk(s: State, c: Id)
    requires c in s.calls
  {
    var k := s.calls[c].key;
    match s.calls[c].pc
    case Preparing(f) => k !in s.cache
    case Calling(f) => k !in s.cache
    case Building(f, client) =>
      && k !in s.cache
      && (k.Transport? <==> client.Some?)
      && ClientOk(s, s.calls[c].uses, client)
    case StoreLock(f, v) => k !in s.cache && WasBuilt(s.built, k, v)
    case StoreHeld(f, v) => k !in s.cache && WasBuilt(s.built, k, v)
    case Finish(f, r) => Cached(s, k, r)
    case Done(r) => Cached(s, k, r)
    case _ => true
  }

  ghost predicate ResultOk(s: State, f: nat)
    requires f in s.flights
  {
    s.flights[f].result.Some? ==> Cached(s, s.flights[f].key, s.flights[f].result.value)
  }

  /** A build is cached, or its leader is about to cache it; nothing else is ever cached or returned. A transport was
      built with a cached client. */
  ghost predicate BuiltOk(s: State, b: Built) {
    && (b.key !in s.cache ==> Storing(s, b.key))
    && (b.key.Transport? <==> b.client.Some?)
    && ClientOk(s, b.uses, b.client)
  }

  ghost predicate ValueInv(s: State) {
    && OnePerKey(s.built)
    && (forall k :: k in s.cache ==> WasBuilt(s.built, k, s.cache[k]))
    && (forall b :: b in s.built ==> BuiltOk(s, b))
    && (forall c :: c in s.calls ==> ValueOk(s, c))
    && (forall f :: f in s.flights ==> ResultOk(s, f))
  }

  ghost predicate Inv(s: State) {
    MutexInv(s) && FlightInv(s) && NestInv(s) && ValueInv(s)
  }

  // ----- The mutex ------------------------------------------------------------------------------

  lemma MoveKeepsMutex(s: State, s': State, c: Id, pc: Pc)
    requires MutexInv(s) && c in s.calls && s'.calls == s.calls[c := s.calls[c].(pc := pc)]
    requires s'.mutex == if Holds(pc) then Some(c) else if Holds(s.calls[c].pc) then None else s.mutex
    requires Holds(pc) ==> s.mutex.None? || s.mutex == Some(c)
    ensures MutexInv(s')
  {
  }

  /** A call takes the mutex only when it is free. */
  lemma NextTakesFreeMutex(s: State, c: Id, ok: bool)
    requires MutexInv(s) && c in s.calls && IsMove(s.calls[c].pc, ok)
    ensures Holds(Next(s, c, ok)) ==> s.mutex.None? || s.mutex == Some(c)
  {
  }

  lemma CallClientKeepsMutex(s: State, c: Id, f: nat)
    requires MutexInv(s) && c in s.calls && s.calls[c].pc == Preparing(f) && Nested(f) !in s.calls
    ensures MutexInv(CallClient(s, c, f))
  {
  }

  lemma StepKeepsMutex(s: State, c: Id, ok: bool)
    requires MutexInv(s) && c in s.calls && NestOk(s, c)
    ensures MutexInv(StepCall(s, c, ok))
  {
    var pc := s.calls[c].pc;
    if IsMove(pc, ok) {
      NextTakesFreeMutex(s, c, ok);
      MoveKeepsMutex(s, Move(s, c, Next(s, c, ok)), c, Next(s, c, ok));
    } else if pc == Join {
      MoveKeepsMutex(s, DoFlight(s, c), c, DoFlight(s, c).calls[c].pc);
    } else if pc.Preparing? {
      CallClientKeepsMutex(s, c, pc.f);
    } else if pc.Building? {
      MoveKeepsMutex(s, Construct(s, c, pc.f, pc.client), c, StoreLock(pc.f, s.nextValue));
    } else if pc.StoreHeld? {
      MoveKeepsMutex(s, Store(s, c, pc.f, pc.v), c, Finish(pc.f, Ok(pc.v)));
    } else if pc.f in s.flights {
      MoveKeepsMutex(s, EndFlight(s, c, pc.f, pc.r), c, Done(pc.r));
    }
  }

  // ----- Flights --------------------------------------------------------------------------------

  /** A step inside a flight, or outside of any; other calls may appear. */
  lemma MoveKeepsFlights(s: State, s': State, c: Id, pc: Pc)
    requires FlightInv(s) && c in s.calls
    requires s'.calls == s.calls[c := s.calls[c].(pc := pc)]
    requires s'.active == s.active && s'.flights == s.flights && s'.nextFlight == s.nextFlight
    requires Leads(s.calls[c].pc) <==> Leads(pc)
    requires Leads(pc) ==> pc.f == s.calls[c].pc.f
    requires pc.Waiting? ==> pc == s.calls[c].pc
    ensures FlightInv(s')
  {
    forall k | k in s'.active ensures ActiveOk(s', k) {
      assert ActiveOk(s, k);
    }
    forall d | d in s'.calls ensures CallOk(s', d) {
      assert CallOk(s, d);
    }
  }

  /** A call that leads nothing yet. */
  lemma NewCallKeepsFlights(s: State, d: Id, call: Call)
    requires FlightInv(s) && d !in s.calls && !Leads(call.pc) && !call.pc.Waiting?
    ensures FlightInv(s.(calls := s.calls[d := call]))
  {
    var s' := s.(calls := s.calls[d := call]);
    forall k | k in s'.active ensures ActiveOk(s', k) {
      assert ActiveOk(s, k);
    }
    forall e | e in s'.calls ensures CallOk(s', e) {
      if e in s.calls {
        assert CallOk(s, e);
      }
    }
  }

  lemma FollowKeepsFlights(s: State, c: Id)
    requires FlightInv(s) && c in s.calls && s.calls[c].pc == Join && s.calls[c].key in s.active
    ensures FlightInv(DoFlight(s, c))
  {
    var s', k := DoFlight(s, c), s.calls[c].key;
    assert ActiveOk(s, k);
    forall j | j in s'.active ensures ActiveOk(s', j) {
      assert ActiveOk(s, j);
    }
    forall d | d in s'.calls ensures CallOk(s', d) {
      assert CallOk(s, d);
    }
  }

  lemma LeadKeepsFlights(s: State, c: Id)
    requires FlightInv(s) && c in s.calls && s.calls[c].pc == Join && s.calls[c].key !in s.active
    ensures FlightInv(DoFlight(s, c))
  {
    var s' := DoFlight(s, c);
    forall j | j in s'.active ensures ActiveOk(s', j) {
      if j in s.active {
        assert ActiveOk(s, j);
      }
    }
    forall d | d in s'.calls ensures CallOk(s', d) {
      assert CallOk(s, d);
    }
  }

  lemma JoinKeepsFlights(s: State, c: Id)
    requires FlightInv(s) && c in s.calls && s.calls[c].pc == Join
    ensures FlightInv(DoFlight(s, c))
  {
    if s.calls[c].key in s.active {
      FollowKeepsFlights(s, c);
    } else {
      LeadKeepsFlights(s, c);
    }
  }

  lemma EndKeepsFlights(s: State, c: Id, f: nat, r: Outcome)
    requires FlightInv(s) && c in s.calls && s.calls[c].pc == Finish(f, r)
    ensures FlightInv(EndFlight(s, c, f, r))
  {
    var s' := EndFlight(s, c, f, r);
    assert CallOk(s, c) && ActiveOk(s, s.calls[c].key);
    forall j | j in s'.active ensures ActiveOk(s', j) {
      assert ActiveOk(s, j);
    }
    forall d | d in s'.calls ensures CallOk(s', d) {
      assert CallOk(s, d);
    }
  }

  lemma CallClientKeepsFlights(s: State, c: Id, f: nat)
    requires FlightInv(s) && c in s.calls && s.calls[c].pc == Preparing(f) && Nested(f) !in s.calls
    ensures FlightInv(CallClient(s, c, f))
  {
    var s1 := Goto(s, c, Calling(f));
    MoveKeepsFlights(s, s1, c, Calling(f));
    NewCallKeepsFlights(s1, Nested(f), Call(Client(s.calls[c].uses), "", FastLock));
  }

  lemma ConstructKeepsFlights(s: State, c: Id, f: nat, client: Option<nat>)
    requires FlightInv(s) && c in s.calls && s.calls[c].pc == Building(f, client)
    ensures FlightInv(Construct(s, c, f, client))
  {
    MoveKeepsFlights(s, Construct(s, c, f, client), c, StoreLock(f, s.nextValue));
  }

  /** By itself a call stays in its flight, and never joins one. */
  lemma NextKeepsFlight(s: State, c: Id, ok: bool)
    requires c in s.calls && IsMove(s.calls[c].pc, ok)
    ensures var pc, next := s.calls[c].pc, Next(s, c, ok);
            && (Leads(pc) <==> Leads(next)) && (Leads(next) ==> next.f == pc.f)
            && (next.Waiting? ==> next == pc)
            && (Early(next) ==> Early(pc)) && (next.Calling? ==> next == pc)
            && (next.Preparing? ==> s.calls[c].key.Transport? || pc.Preparing?)
            && (next.StoreLock? ==> next == pc) && (next.StoreHeld? ==> pc.StoreLock? && next.v == pc.v)
            && (pc.StoreLock? ==> next.StoreLock? || next.StoreHeld?)
  {
  }

  lemma StepKeepsFlights(s: State, c: Id, ok: bool)
    requires FlightInv(s) && c in s.calls && NestOk(s, c)
    ensures FlightInv(StepCall(s, c, ok))
  {
    var pc := s.calls[c].pc;
    if IsMove(pc, ok) {
      NextKeepsFlight(s, c, ok);
      MoveKeepsFlights(s, Move(s, c, Next(s, c, ok)), c, Next(s, c, ok));
    } else if pc == Join {
      JoinKeepsFlights(s, c);
    } else if pc.Preparing? {
      CallClientKeepsFlights(s, c, pc.f);
    } else if pc.Building? {
      ConstructKeepsFlights(s, c, pc.f, pc.client);
    } else if pc.StoreHeld? {
      MoveKeepsFlights(s, Store(s, c, pc.f, pc.v), c, Finish(pc.f, Ok(pc.v)));
    } else {
      EndKeepsFlights(s, c, pc.f, pc.r);
    }
  }

  // ----- Nesting --------------------------------------------------------------------------------

  lemma MoveKeepsNesting(s: State, s': State, c: Id, pc: Pc)
    requires NestInv(s) && c in s.calls && s'.calls == s.calls[c := s.calls[c].(pc := pc)]
    requires s'.nextFlight >= s.nextFlight
    requires Early(pc) ==> Nested(pc.f) !in s.calls
    requires pc.Preparing? ==> s.calls[c].key.Transport?
    requires pc.Calling? ==> pc == s.calls[c].pc
    ensures NestInv(s')
  {
    forall d | d in s'.calls ensures NestOk(s', d) {
      assert NestOk(s, d);
    }
  }

  /** Nested calls are numbered by flights that have started. */
  lemma FreshFlightHasNoCall(s: State)
    requires NestInv(s)
    ensures Nested(s.nextFlight) !in s.calls
  {
    assert forall c :: c in s.calls && c.Nested? ==> NestOk(s, c) && c.f != s.nextFlight;
  }

  lemma CallClientKeepsNesting(s: State, c: Id, f: nat)
    requires FlightInv(s) && NestInv(s) && c in s.calls && s.calls[c].pc == Preparing(f)
    ensures NestInv(CallClient(s, c, f))
  {
    var s' := CallClient(s, c, f);
    assert CallOk(s, c) && NestOk(s, c);
    forall d | d in s'.calls ensures NestOk(s', d) {
      if d in s.calls {
        assert NestOk(s, d) && CallOk(s, d);
      }
    }
  }

  lemma StepKeepsNesting(s: State, c: Id, ok: bool)
    requires FlightInv(s) && NestInv(s) && c in s.calls
    ensures NestInv(StepCall(s, c, ok))
  {
    var pc := s.calls[c].pc;
    assert NestOk(s, c);
    if IsMove(pc, ok) {
      NextKeepsFlight(s, c, ok);
      MoveKeepsNesting(s, Move(s, c, Next(s, c, ok)), c, Next(s, c, ok));
    } else if pc == Join {
      FreshFlightHasNoCall(s);
      MoveKeepsNesting(s, DoFlight(s, c), c, DoFlight(s, c).calls[c].pc);
    } else if pc.Preparing? {
      CallClientKeepsNesting(s, c, pc.f);
    } else {
      LaterKeepsNesting(s, c, ok);
    }
  }

  /** From the build on a call makes no nested call. */
  lemma LaterKeepsNesting(s: State, c: Id, ok: bool)
    requires NestInv(s) && c in s.calls
    requires var pc := s.calls[c].pc; (pc.Building? && ok) || pc.StoreHeld? || pc.Finish?
    ensures NestInv(StepCall(s, c, ok))
  {
    var pc := s.calls[c].pc;
    if pc.Building? {
      MoveKeepsNesting(s, Construct(s, c, pc.f, pc.client), c, StoreLock(pc.f, s.nextValue));
    } else if pc.StoreHeld? {
      MoveKeepsNesting(s, Store(s, c, pc.f, pc.v), c, Finish(pc.f, Ok(pc.v)));
    } else if pc.f in s.flights {
      MoveKeepsNesting(s, EndFlight(s, c, pc.f, pc.r), c, Done(pc.r));
    }
  }

  // ----- Values ---------------------------------------------------------------------------------

  /** More is cached, nothing is changed. */
  ghost predicate CacheGrows(old_: map<Key, nat>, new_: map<Key, nat>) {
    forall k :: k in old_ ==> k in new_ && new_[k] == old_[k]
  }

  /** A step that neither builds nor stores. */
  lemma MoveKeepsValues(s: State, s': State, c: Id, pc: Pc)
    requires ValueInv(s) && c in s.calls
    requires s'.calls == s.calls[c := s.calls[c].(pc := pc)]
    requires s'.active == s.active && s'.flights == s.flights && s'.cache == s.cache && s'.built == s.built
    requires s.calls[c].pc.StoreLock? || s.calls[c].pc.StoreHeld? ==> pc.StoreLock? || pc.StoreHeld?
    requires ValueOk(s', c)
    ensures ValueInv(s')
  {
    forall b | b in s'.built ensures BuiltOk(s', b) {
      assert BuiltOk(s, b);
    }
    forall d | d in s'.calls ensures ValueOk(s', d) {
      assert ValueOk(s, d);
    }
    forall f | f in s'.flights ensures ResultOk(s', f) {
      assert ResultOk(s, f);
    }
  }

  lemma NewCallKeepsValues(s: State, d: Id, call: Call)
    requires ValueInv(s) && d !in s.calls && (call.pc == FastLock || call.pc == Done(Err))
    ensures ValueInv(s.(calls := s.calls[d := call]))
  {
    var s' := s.(calls := s.calls[d := call]);
    forall b | b in s'.built ensures BuiltOk(s', b) {
      assert BuiltOk(s, b);
    }
    forall e | e in s'.calls ensures ValueOk(s', e) {
      if e in s.calls {
        assert ValueOk(s, e);
      }
    }
    forall f | f in s'.flights ensures ResultOk(s', f) {
      assert ResultOk(s, f);
    }
  }

  /** A building leader's key has no successful build yet. */
  lemma NothingBuiltYet(s: State, c: Id)
    requires FlightInv(s) && ValueInv(s) && c in s.calls && s.calls[c].pc.Building?
    ensures forall b :: b in s.built ==> b.key != s.calls[c].key
  {
    assert CallOk(s, c) && ValueOk(s, c);
    forall b | b in s.built ensures b.key != s.calls[c].key {
      assert BuiltOk(s, b);
    }
  }

  lemma WasBuiltSnoc(built: seq<Built>, b: Built)
    ensures forall k, v :: WasBuilt(built, k, v) ==> WasBuilt(built + [b], k, v)
    ensures WasBuilt(built + [b], b.key, b.value)
  {
    var more := built + [b];
    assert more[|built|] == b;
    forall k, v | WasBuilt(built, k, v) ensures WasBuilt(more, k, v) {
      var i :| 0 <= i < |built| && built[i].key == k && built[i].value == v;
      assert more[i] == built[i];
    }
  }

  lemma ConstructKeepsOnePerKey(built: seq<Built>, b: Built)
    requires OnePerKey(built) && forall x :: x in built ==> x.key != b.key
    ensures OnePerKey(built + [b])
  {
    var more := built + [b];
    forall i, j | 0 <= i < j < |more| ensures more[i].key != more[j].key {
      assert built[i] in built;
    }
  }

  lemma ConstructKeepsBuilt(s: State, c: Id, f: nat, client: Option<nat>, x: Built)
    requires FlightInv(s) && ValueInv(s) && c in s.calls && s.calls[c].pc == Building(f, client)
    requires x in Construct(s, c, f, client).built
    ensures BuiltOk(Construct(s, c, f, client), x)
  {
    var s', b := Construct(s, c, f, client), Built(s.calls[c].key, s.nextValue, s.calls[c].uses, client);
    assert CallOk(s, c) && ValueOk(s, c);
    if x in s.built {
      assert BuiltOk(s, x);
    } else {
      assert x == b && Storing(s', b.key);
    }
  }

  lemma ConstructKeepsValues(s: State, c: Id, f: nat, client: Option<nat>)
    requires FlightInv(s) && ValueInv(s) && c in s.calls && s.calls[c].pc == Building(f, client)
    ensures ValueInv(Construct(s, c, f, client))
  {
    var s', b := Construct(s, c, f, client), Built(s.calls[c].key, s.nextValue, s.calls[c].uses, client);
    NothingBuiltYet(s, c);
    WasBuiltSnoc(s.built, b);
    ConstructKeepsOnePerKey(s.built, b);
    assert ValueOk(s, c);
    forall x | x in s'.built ensures BuiltOk(s', x) {
      ConstructKeepsBuilt(s, c, f, client, x);
    }
    forall d | d in s'.calls ensures ValueOk(s', d) {
      assert ValueOk(s, d);
    }
    forall g | g in s'.flights ensures ResultOk(s', g) {
      assert ResultOk(s, g);
    }
  }

  lemma StoreKeepsValues(s: State, c: Id, f: nat, v: nat)
    requires FlightInv(s) && ValueInv(s) && c in s.calls && s.calls[c].pc == StoreHeld(f, v)
    ensures ValueInv(Store(s, c, f, v))
  {
    var s' := Store(s, c, f, v);
    assert CallOk(s, c) && ValueOk(s, c);
    forall b | b in s'.built ensures BuiltOk(s', b) {
      assert BuiltOk(s, b);
      if b.key !in s'.cache {
        assert Storing(s, b.key) && ActiveOk(s, b.key);
      }
    }
    forall d | d in s'.calls ensures ValueOk(s', d) {
      assert ValueOk(s, d) && CallOk(s, d);
    }
    forall g | g in s'.flights ensures ResultOk(s', g) {
      assert ResultOk(s, g);
    }
  }

  lemma EndKeepsValues(s: State, c: Id, f: nat, r: Outcome)
    requires FlightInv(s) && ValueInv(s) && c in s.calls && s.calls[c].pc == Finish(f, r)
    ensures ValueInv(EndFlight(s, c, f, r))
  {
    var s' := EndFlight(s, c, f, r);
    assert CallOk(s, c) && ValueOk(s, c) && ActiveOk(s, s.calls[c].key);
    forall b | b in s'.built ensures BuiltOk(s', b) {
      assert BuiltOk(s, b);
      if b.key !in s'.cache {
        assert Storing(s, b.key) && ActiveOk(s, b.key);
      }
    }
    forall d | d in s'.calls ensures ValueOk(s', d) {
      assert ValueOk(s, d);
    }
    forall g | g in s'.flights ensures ResultOk(s', g) {
      assert ResultOk(s, g);
    }
  }

  lemma LeadKeepsValues(s: State, c: Id)
    requires FlightInv(s) && ValueInv(s) && c in s.calls && s.calls[c].pc == Join
    requires s.calls[c].key !in s.active
    ensures ValueInv(DoFlight(s, c))
  {
    var s' := DoFlight(s, c);
    forall b | b in s'.built ensures BuiltOk(s', b) {
      assert BuiltOk(s, b);
      if b.key !in s'.cache {
        assert Storing(s, b.key) && ActiveOk(s, b.key);
      }
    }
    forall d | d in s'.calls ensures ValueOk(s', d) {
      assert ValueOk(s, d);
    }
    forall f | f in s'.flights ensures ResultOk(s', f) {
      if f in s.flights {
        assert ResultOk(s, f);
      }
    }
  }

  lemma CallClientKeepsValues(s: State, c: Id, f: nat)
    requires ValueInv(s) && c in s.calls && s.calls[c].pc == Preparing(f) && Nested(f) !in s.calls
    ensures ValueInv(CallClient(s, c, f))
  {
    var s1 := Goto(s, c, Calling(f));
    assert ValueOk(s, c);
    MoveKeepsValues(s, s1, c, Calling(f));
    NewCallKeepsValues(s1, Nested(f), Call(Client(s.calls[c].uses), "", FastLock));
  }

  /** What a call carries to its next place is the cached value or the nested call's client. */
  lemma NextCarriesCached(s: State, c: Id, ok: bool)
    requires FlightInv(s) && NestInv(s) && ValueInv(s) && c in s.calls && IsMove(s.calls[c].pc, ok)
    ensures ValueOk(Move(s, c, Next(s, c, ok)), c)
  {
    var pc := s.calls[c].pc;
    assert NestOk(s, c) && CallOk(s, c) && ValueOk(s, c);
    if pc.Waiting? {
      assert ResultOk(s, pc.f);
    } else if pc.Calling? {
      NestedCarriesCached(s, c, pc.f, ok);
    }
  }

  lemma NestedCarriesCached(s: State, c: Id, f: nat, ok: bool)
    requires c in s.calls && s.calls[c].pc == Calling(f) && ValueOk(s, c) && NestOk(s, c) && ValueOk(s, Nested(f))
    ensures ValueOk(Move(s, c, Next(s, c, ok)), c)
  {
  }

  lemma JoinKeepsValues(s: State, c: Id)
    requires FlightInv(s) && ValueInv(s) && c in s.calls && s.calls[c].pc == Join
    ensures ValueInv(DoFlight(s, c))
  {
    if s.calls[c].key in s.active {
      MoveKeepsValues(s, DoFlight(s, c), c, Waiting(s.active[s.calls[c].key]));
    } else {
      LeadKeepsValues(s, c);
    }
  }

  lemma StepKeepsValues(s: State, c: Id, ok: bool)
    requires FlightInv(s) && NestInv(s) && ValueInv(s) && c in s.calls
    ensures ValueInv(StepCall(s, c, ok))
  {
    var pc := s.calls[c].pc;
    assert NestOk(s, c) && CallOk(s, c);
    if IsMove(pc, ok) {
      NextKeepsFlight(s, c, ok);
      NextCarriesCached(s, c, ok);
      MoveKeepsValues(s, Move(s, c, Next(s, c, ok)), c, Next(s, c, ok));
    } else if pc == Join {
      JoinKeepsValues(s, c);
    } else if pc.Preparing? {
      CallClientKeepsValues(s, c, pc.f);
    } else if pc.Building? {
      ConstructKeepsValues(s, c, pc.f, pc.client);
    } else if pc.StoreHeld? {
      StoreKeepsValues(s, c, pc.f, pc.v);
    } else {
      EndKeepsValues(s, c, pc.f, pc.r);
    }
  }

  lemma StepKeepsInv(s: State, c: Id, ok: bool)
    requires Inv(s) && c in s.calls
    ensures Inv(StepCall(s, c, ok))
  {
    assert NestOk(s, c);
    StepKeepsMutex(s, c, ok);
    StepKeepsFlights(s, c, ok);
    StepKeepsNesting(s, c, ok);
    StepKeepsValues(s, c, ok);
  }

  lemma BeginKeepsInv(s: State, n: nat, call: Call)
    requires Inv(s) && (call.pc == FastLock || call.pc == Done(Err))
    ensures Inv(Begin(s, n, call))
  {
    if Caller(n) !in s.calls {
      var s' := Begin(s, n, call);
      NewCallKeepsFlights(s, Caller(n), call);
      NewCallKeepsValues(s, Caller(n), call);
      forall d | d in s'.calls ensures NestOk(s', d) {
        if d in s.calls {
          assert NestOk(s, d);
        }
      }
    }
  }

  lemma ApplyKeepsInv(s: State, e: Event)
    requires Inv(s)
    ensures Inv(Apply(s, e))
  {
    match e
    case BeginBuild(n, channel, streamable) =>
      BeginKeepsInv(s, n, Call(Transport(channel), if streamable then channel else DEFAULT_CLIENT,
                               if channel == "" then Done(Err) else FastLock));
    case BeginClient(n, name) =>
      BeginKeepsInv(s, n, Call(Client(name), "", if name == "" then Done(Err) else FastLock));
    case Step(c, ok) => if c in s.calls { StepKeepsInv(s, c, ok); }
  }

  lemma {:induction false} RunKeepsInv(es: seq<Event>)
    ensures Inv(Run(es))
  {
    if es != [] {
      RunKeepsInv(es[..|es| - 1]);
      ApplyKeepsInv(Run(es[..|es| - 1]), es[|es| - 1]);
    }
  }

  // ----- Main results ---------------------------------------------------------------------------

  /** In every run: at most one build succeeds per channel and per client name; every successful call, nested ones
      included, returns that very value, which is the cached one. */
  lemma {:induction false} OneTransportPerChannel(es: seq<Event>)
    ensures var s := Run(es);
            && OnePerKey(s.built)
            && (forall c :: c in s.calls && s.calls[c].pc.Done? && s.calls[c].pc.r.Ok? ==>
                  && s.calls[c].key in s.cache && s.cache[s.calls[c].key] == s.calls[c].pc.r.value
                  && WasBuilt(s.built, s.calls[c].key, s.calls[c].pc.r.value))
  {
    RunKeepsInv(es);
    var s := Run(es);
    forall c | c in s.calls && s.calls[c].pc.Done? && s.calls[c].pc.r.Ok?
      ensures Cached(s, s.calls[c].key, s.calls[c].pc.r)
    {
      assert ValueOk(s, c);
    }
  }

  /** In every run, every transport was built with the one client cached under the name it uses. */
  lemma {:induction false} TransportsUseCachedClients(es: seq<Event>, b: Built)
    requires b in Run(es).built && b.key.Transport?
    ensures var s, k := Run(es), Client(b.uses);
            b.client.Some? && k in s.cache && s.cache[k] == b.client.value && WasBuilt(s.built, k, b.client.value)
  {
    RunKeepsInv(es);
    assert BuiltOk(Run(es), b);
  }

  /** In every run, a cached value stays for good, and an event changes the caches only by storing a build
      that succeeded; a failed build leaves them alone. */
  lemma {:induction false} CacheOnlyGrows(es: seq<Event>, e: Event)
    ensures var s, s' := Run(es), Run(es + [e]);
            && CacheGrows(s.cache, s'.cache)
            && (s'.cache != s.cache ==> e.Step? && e.call in s.calls && s.calls[e.call].pc.StoreHeld?)
  {
    RunKeepsInv(es);
    assert (es + [e])[..|es|] == es;
    var s := Run(es);
    if e.Step? && e.call in s.calls {
      assert ValueOk(s, e.call);
      StepGrowsCache(s, e.call, e.ok);
    }
  }

  lemma StepGrowsCache(s: State, c: Id, ok: bool)
    requires c in s.calls && ValueOk(s, c)
    ensures var s' := StepCall(s, c, ok);
            CacheGrows(s.cache, s'.cache) && (s'.cache != s.cache ==> s.calls[c].pc.StoreHeld?)
  {
    var pc := s.calls[c].pc;
    if pc.StoreHeld? {
      assert CacheGrows(s.cache, Store(s, c, pc.f, pc.v).cache);
    } else {
      assert StepCall(s, c, ok).cache == s.cache;
    }
  }

  /** In every run, the mutex is free or held by one call inside one of its short sections; no call holds it while
      it builds, leads or waits for a flight, or is inside a nested call. */
  lemma {:induction false} MutexNeverHeldAcrossFlight(es: seq<Event>, c: Id)
    requires c in Run(es).calls
    ensures var s := Run(es);
            var pc := s.calls[c].pc;
            && (s.mutex == Some(c) <==> pc == FastHeld || pc.CheckHeld? || pc.StoreHeld?)
            && (pc == Join || pc.Preparing? || pc.Calling? || pc.Building? || pc.Waiting? || pc.Finish? ==>
                  s.mutex != Some(c))
  {
    RunKeepsInv(es);
  }

  predicate Unfinished(s: State, c: Id) {
    c in s.calls && !s.calls[c].pc.Done?
  }

  /** Whom a call waits for, other than for the mutex: the leader of the flight it joined, or its nested call. */
  ghost function WaitsFor(s: State, c: Id): Option<Id>
    requires c in s.calls
  {
    var pc := s.calls[c].pc;
    if pc.Waiting? && pc.f in s.flights && s.flights[pc.f].result.None? then Some(s.flights[pc.f].leader)
    else if pc.Calling? && NestedResult(s, pc.f) == None then Some(Nested(pc.f))
    else None
  }

  /** A transport follower waits for a transport leader, that one for its client call, that one for a client leader. */
  ghost function Rank(s: State, c: Id): nat
    requires c in s.calls
  {
    (if s.calls[c].key.Transport? then 2 else 0) + (if s.calls[c].pc.Waiting? then 1 else 0)
  }

  lemma WaitingIsOrdered(s: State, c: Id)
    requires Inv(s) && Unfinished(s, c) && WaitsFor(s, c).Some?
    ensures Unfinished(s, WaitsFor(s, c).value) && Rank(s, WaitsFor(s, c).value) < Rank(s, c)
  {
    assert CallOk(s, c) && NestOk(s, c);
    if s.calls[c].pc.Waiting? {
      assert ActiveOk(s, s.calls[c].key);
    }
  }

  /** The call at the end of the waiting chain. */
  lemma {:induction false} EndOfChain(s: State, c: Id) returns (d: Id)
    requires Inv(s) && Unfinished(s, c)
    ensures Unfinished(s, d) && WaitsFor(s, d) == None
    decreases Rank(s, c)
  {
    if WaitsFor(s, c).None? {
      d := c;
    } else {
      WaitingIsOrdered(s, c);
      d := EndOfChain(s, WaitsFor(s, c).value);
    }
  }

  /** In every run, as long as a call is unfinished some unfinished call can move: no deadlock, although transport
      flights wait for client flights and both for one mutex. */
  lemma {:induction false} NoDeadlock(es: seq<Event>, c: Id) returns (d: Id)
    requires Unfinished(Run(es), c)
    ensures Unfinished(Run(es), d) && StepCall(Run(es), d, true) != Run(es)
  {
    RunKeepsInv(es);
    var s := Run(es);
    if s.mutex.Some? {
      d := s.mutex.value;
    } else {
      d := EndOfChain(s, c);
    }
    assert CallOk(s, d);
    Moves(s, d);
  }

  lemma Moves(s: State, d: Id)
    requires Unfinished(s, d) && CallOk(s, d) && WaitsFor(s, d) == None
    requires s.mutex.Some? ==> Holds(s.calls[d].pc)
    ensures StepCall(s, d, true) != s
  {
    assert StepCall(s, d, true).calls[d].pc != s.calls[d].pc;
  }
}
