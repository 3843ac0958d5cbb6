/** pkg/controlplane/health.go: change notifications by a lazily made channel that is closed and forgotten,
    saturating delivery counters, and the accumulation of backpressure time.
 */
module ChangeNotification {
  /** Channels are numbered in the order they are made; the one after the closed ones may be open. */
  datatype Notifier = Notifier(closed: nat, open: bool)

  const FRESH := Notifier(0, false)

  predicate IsClosed(n: Notifier, chan: nat) {
    chan < n.closed
  }

  predicate IsOpen(n: Notifier, chan: nat) {
    n.open && chan == n.closed
  }

  function Ask(n: Notifier): Notifier {
    n.(open := true)
  }

  function Close(n: Notifier): Notifier {
    if n.open then Notifier(n.closed + 1, false) else n
  }

  /** The `changed` field of a health component: nil, or the open channel. */
  class Changed {
    var closed: nat
    var open: bool

    ghost function Abs(): Notifier
      reads this
    {
      Notifier(closed, open)
    }

    constructor ()
      ensures Abs() == FRESH
    {
      closed, open := 0, false;
    }

    method Changes() returns (chan: nat)
      modifies this
      ensures Abs() == Ask(old(Abs())) && IsOpen(Abs(), chan)
    {
      if !open {
        open := true;
      }
      chan := closed;
    }

    method Signal()
      modifies this
      ensures Abs() == Close(old(Abs()))
      ensures forall c: nat :: IsOpen(old(Abs()), c) || IsClosed(old(Abs()), c) ==> IsClosed(Abs(), c)
    {
      if open {
        closed, open := closed + 1, false;
      }
    }
  }

  // ----- Watchers in any interleaving -----------------------------------------------------------

  /** `since` and `seen` count the observations made when the channel was asked for and when the
      snapshot was taken. Early is a watcher that took its snapshot first, against the advice. */
  datatype Watcher =
    | Idle
    | Armed(chan: nat, since: nat)
    | Early(seen: nat)
    | Watching(chan: nat, since: nat, seen: nat)

  datatype System = System(notifier: Notifier, observed: nat, watchers: map<nat, Watcher>)

  datatype Event = Observe | Changes(w: nat) | Snapshot(w: nat) | Leave(w: nat)

  const START := System(FRESH, 0, map[])

  function Of(s: System, w: nat): Watcher {
    if w in s.watchers then s.watchers[w] else Idle
  }

  function Apply(s: System, e: Event): System {
    match e
    case Observe => System(Close(s.notifier), s.observed + 1, s.watchers)
    case Changes(w) =>
      var n := Ask(s.notifier);
      var watcher := Of(s, w);
      var next := if watcher.Early? then Watching(n.closed, s.observed, watcher.seen) else Armed(n.closed, s.observed);
      System(n, s.observed, s.watchers[w := next])
    case Snapshot(w) =>
      var watcher := Of(s, w);
      var next := if watcher.Armed? || watcher.Watching? then Watching(watcher.chan, watcher.since, s.observed)
                  else Early(s.observed);
      s.(watchers := s.watchers[w := next])
    case Leave(w) => s.(watchers := s.watchers[w := Idle])
  }

  function Run(events: seq<Event>): System {
    if events == [] then START else Apply(Run(events[..|events| - 1]), events[|events| - 1])
  }

  ghost predicate HasChannel(n: Notifier, chan: nat) {
    IsOpen(n, chan) || IsClosed(n, chan)
  }

  /** A held channel is closed exactly when something was observed since it was asked for. */
  ghost predicate WatcherInv(n: Notifier, observed: nat, w: Watcher) {
    match w
    case Idle => true
    case Early(seen) => seen <= observed
    case Armed(chan, since) => HasChannel(n, chan) && since <= observed && (IsClosed(n, chan) <==> since < observed)
    case Watching(chan, since, seen) =>
      HasChannel(n, chan) && since <= observed && seen <= observed && (IsClosed(n, chan) <==> since < observed)
  }

  ghost predicate Inv(s: System) {
    forall w :: w in s.watchers ==> WatcherInv(s.notifier, s.observed, s.watchers[w])
  }

  lemma {:induction false} RunKeepsInv(events: seq<Event>)
    ensures Inv(Run(events))
  {
    if events != [] {
      RunKeepsInv(events[..|events| - 1]);
    }
  }

  /** The watcher has not seen an observation and will not be told of it. */
  ghost predicate Misses(s: System, w: nat) {
    Of(s, w).Watching? && Of(s, w).seen < s.observed && !IsClosed(s.notifier, Of(s, w).chan)
  }

  /** Only a snapshot taken before an observation that precedes the call of Changes can be missed. */
  lemma {:induction false} MissesIff(events: seq<Event>, w: nat)
    requires Of(Run(events), w).Watching?
    ensures var s := Run(events);
            Misses(s, w) <==> Of(s, w).seen < Of(s, w).since == s.observed
  {
    RunKeepsInv(events);
  }

  /** Whether w, from its last step that was not a snapshot, asked for its channel first. */
  ghost predicate AskedFirst(events: seq<Event>, w: nat) {
    if events == [] then true
    else
      var init, last := events[..|events| - 1], events[|events| - 1];
      match last
      case Changes(v) => if v == w then !Of(Run(init), w).Early? else AskedFirst(init, w)
      case Leave(v) => v == w || AskedFirst(init, w)
      case _ => AskedFirst(init, w)
  }

  lemma {:induction false} AskedFirstOrder(events: seq<Event>, w: nat)
    requires AskedFirst(events, w)
    ensures Of(Run(events), w).Watching? ==> Of(Run(events), w).since <= Of(Run(events), w).seen
  {
    if events != [] {
      var init, last := events[..|events| - 1], events[|events| - 1];
      RunKeepsInv(init);
      if AskedFirst(init, w) {
        AskedFirstOrder(init, w);
      }
    }
  }

  /** A watcher that calls Changes before Snapshot has seen every observation or holds a closed channel,
      and a closed channel always means that there was an observation since it was asked for. */
  lemma {:induction false} ChangesThenSnapshot(events: seq<Event>, w: nat)
    requires AskedFirst(events, w) && Of(Run(events), w).Watching?
    ensures var s, watcher := Run(events), Of(Run(events), w);
            (watcher.seen == s.observed || IsClosed(s.notifier, watcher.chan)) &&
            (IsClosed(s.notifier, watcher.chan) <==> watcher.since < s.observed)
  {
    RunKeepsInv(events);
    AskedFirstOrder(events, w);
  }

  /** A snapshot shows all observations so far, and a watcher that holds a channel keeps it. */
  lemma SnapshotKeepsChannel(events: seq<Event>, w: nat)
    ensures var before, after := Of(Run(events), w), Of(Run(events + [Snapshot(w)]), w);
            && (after.Watching? || after.Early?) && after.seen == |KeepObserved(events)|
            && (before.Armed? || before.Watching? ==>
                  after.Watching? && after.chan == before.chan && after.since == before.since)
            && (before.Idle? || before.Early? ==> after.Early?)
  {
    assert (events + [Snapshot(w)])[..|events|] == events;
    ObservedCounts(events);
  }

  /** The observations of a run. */
  function KeepObserved(events: seq<Event>): seq<Event> {
    if events == [] then []
    else KeepObserved(events[..|events| - 1]) + if events[|events| - 1] == Observe then [Observe] else []
  }

  lemma {:induction false} ObservedCounts(events: seq<Event>)
    ensures Run(events).observed == |KeepObserved(events)|
  {
    if events != [] {
      ObservedCounts(events[..|events| - 1]);
    }
  }

  /** The other order loses an observation that falls in between. */
  lemma SnapshotFirstCanMiss(w: nat)
    ensures Misses(Run([Snapshot(w), Observe, Changes(w)]), w)
  {
    var a, b, c := Snapshot(w), Observe, Changes(w);
    assert [a, b, c][..2] == [a, b] && [a, b][..1] == [a] && [a][..0] == [];
    assert Run([a]) == Apply(START, a);
    assert Run([a, b]) == Apply(Run([a]), b);
    assert Run([a, b, c]) == Apply(Run([a, b]), c);
  }
}

/** DeliveryHealth: logical deliveries counted separately from attempts, every counter stopping at MAX. */
module DeliveryCounters {
  import opened Wrappers
  import ChangeNotification

  const MAX_UINT64: nat := 0xFFFF_FFFF_FFFF_FFFF

  function Saturated(n: nat): (r: nat)
    ensures r <= MAX_UINT64
  {
    if n <= MAX_UINT64 then n else MAX_UINT64
  }

  function Increment(n: nat): nat {
    if n < MAX_UINT64 then n + 1 else n
  }

  datatype Disposition = NotObserved | Accepted | Failed | Canceled | Other(name: string)

  /** Timestamps are 0 while unset. */
  datatype Details = Details(
    inProgress: nat, attempts: nat, retries: nat, completed: nat, accepted: nat, terminalFailures: nat,
    disposition: Disposition, category: string, httpStatus: int,
    lastAccepted: int, lastCompleted: int, lastFailure: int, observedAt: int)

  const INITIAL := Details(0, 0, 0, 0, 0, 0, NotObserved, "", 0, 0, 0, 0, 0)

  datatype Event =
    | Begin
    | Attempt(retry: bool)
    | AttemptFailed(now: int, category: string, status: int)
    | Finish(now: int, disposition: Disposition, category: string, status: int)

  function Apply(d: Details, e: Event): Details {
    match e
    case Begin => d.(inProgress := Increment(d.inProgress))
    case Attempt(retry) =>
      d.(attempts := Increment(d.attempts), retries := if retry then Increment(d.retries) else d.retries)
    case AttemptFailed(now, category, status) =>
      d.(lastFailure := now, category := category, httpStatus := status, observedAt := now)
    case Finish(now, disposition, category, status) =>
      var done := disposition != Failed && disposition != Canceled;
      d.(inProgress := if d.inProgress > 0 then d.inProgress - 1 else 0,
         observedAt := now, lastCompleted := now, disposition := disposition,
         category := category, httpStatus := status,
         terminalFailures := if disposition == Failed then Increment(d.terminalFailures) else d.terminalFailures,
         lastFailure := if disposition == Failed then now else d.lastFailure,
         completed := if done then Increment(d.completed) else d.completed,
         accepted := if disposition == Accepted then Increment(d.accepted) else d.accepted,
         lastAccepted := if disposition == Accepted then now else d.lastAccepted)
  }

  class DeliveryHealth {
    const changed: ChangeNotification.Changed
    var details: Details

    constructor ()
      ensures details == INITIAL && changed.Abs() == ChangeNotification.FRESH && fresh(changed)
    {
      changed := new ChangeNotification.Changed();
      details := INITIAL;
    }

    method Begin()
      modifies this, changed
      ensures details == Apply(old(details), Event.Begin)
      ensures changed.Abs() == ChangeNotification.Close(old(changed.Abs()))
    {
      details := details.(inProgress := Increment(details.inProgress));
      changed.Signal();
    }

    method Attempt(retry: bool)
      modifies this, changed
      ensures details == Apply(old(details), Event.Attempt(retry))
      ensures changed.Abs() == ChangeNotification.Close(old(changed.Abs()))
    {
      details := details.(attempts := Increment(details.attempts));
      if retry {
        details := details.(retries := Increment(details.retries));
      }
      changed.Signal();
    }

    method AttemptFailed(now: int, category: string, status: int)
      modifies this, changed
      ensures details == Apply(old(details), Event.AttemptFailed(now, category, status))
      ensures changed.Abs() == ChangeNotification.Close(old(changed.Abs()))
    {
      details := details.(lastFailure := now, category := category, httpStatus := status);
      details := details.(observedAt := now);
      changed.Signal();
    }

    method Finish(now: int, disposition: Disposition, category: string, status: int)
      modifies this, changed
      ensures details == Apply(old(details), Event.Finish(now, disposition, category, status))
      ensures changed.Abs() == ChangeNotification.Close(old(changed.Abs()))
    {
      if details.inProgress > 0 {
        details := details.(inProgress := details.inProgress - 1);
      }
      details := details.(observedAt := now, lastCompleted := now, disposition := disposition);
      details := details.(category := category, httpStatus := status);
      if disposition == Failed {
        details := details.(terminalFailures := Increment(details.terminalFailures));
        details := details.(lastFailure := now);
      } else if disposition != Canceled {
        details := details.(completed := Increment(details.completed));
        if disposition == Accepted {
          details := details.(accepted := Increment(details.accepted));
          details := details.(lastAccepted := now);
        }
      }
      changed.Signal();
    }
  }

  // ----- What the counters mean after any run ---------------------------------------------------

  function Run(events: seq<Event>): Details {
    if events == [] then INITIAL else Apply(Run(events[..|events| - 1]), events[|events| - 1])
  }

  ghost function Count(p: Event -> bool, events: seq<Event>): nat {
    if events == [] then 0
    else Count(p, events[..|events| - 1]) + if p(events[|events| - 1]) then 1 else 0
  }

  lemma {:induction false} CountImplies(p: Event -> bool, q: Event -> bool, events: seq<Event>)
    requires forall e :: p(e) ==> q(e)
    ensures Count(p, events) <= Count(q, events)
  {
    if events != [] {
      CountImplies(p, q, events[..|events| - 1]);
    }
  }

  predicate IsBegin(e: Event) { e.Begin? }
  predicate IsFinish(e: Event) { e.Finish? }
  predicate IsAttempt(e: Event) { e.Attempt? }
  predicate IsRetry(e: Event) { e.Attempt? && e.retry }
  predicate IsAccepted(e: Event) { e.Finish? && e.disposition == Accepted }
  predicate IsFailed(e: Event) { e.Finish? && e.disposition == Failed }
  predicate IsCompleted(e: Event) { e.Finish? && e.disposition != Failed && e.disposition != Canceled }

  /** Every counter is the number of its events, cut at the 64-bit bound. */
  lemma {:induction false} CountersCount(events: seq<Event>)
    ensures var d := Run(events);
            && d.attempts == Saturated(Count(IsAttempt, events))
            && d.retries == Saturated(Count(IsRetry, events))
            && d.completed == Saturated(Count(IsCompleted, events))
            && d.accepted == Saturated(Count(IsAccepted, events))
            && d.terminalFailures == Saturated(Count(IsFailed, events))
  {
    if events != [] {
      CountersCount(events[..|events| - 1]);
    }
  }

  /** The order of the counters survives saturation. */
  lemma {:induction false} CountersAreOrdered(events: seq<Event>)
    ensures Run(events).accepted <= Run(events).completed
    ensures Run(events).retries <= Run(events).attempts
  {
    CountersCount(events);
    CountImplies(IsAccepted, IsCompleted, events);
    CountImplies(IsRetry, IsAttempt, events);
  }

  /** The last event of a kind. */
  function Latest(p: Event -> bool, events: seq<Event>): Option<Event> {
    if events == [] then None
    else if p(events[|events| - 1]) then Some(events[|events| - 1])
    else Latest(p, events[..|events| - 1])
  }

  function TimeOf(e: Option<Event>): int {
    match e
    case Some(AttemptFailed(now, _, _)) => now
    case Some(Finish(now, _, _, _)) => now
    case _ => 0
  }

  predicate IsFailure(e: Event) { e.AttemptFailed? || IsFailed(e) }
  predicate IsOutcome(e: Event) { e.AttemptFailed? || e.Finish? }

  /** After every run each time stamp is that of the last event of its kind, the disposition that of the last finish,
      and category and status those of the last outcome. */
  lemma {:induction false} LatestIsShown(events: seq<Event>)
    ensures var d := Run(events);
            && d.lastAccepted == TimeOf(Latest(IsAccepted, events))
            && d.lastCompleted == TimeOf(Latest(IsFinish, events))
            && d.lastFailure == TimeOf(Latest(IsFailure, events))
            && d.observedAt == TimeOf(Latest(IsOutcome, events))
    ensures var d, last := Run(events), Latest(IsFinish, events);
            d.disposition == if last.Some? && last.value.Finish? then last.value.disposition else NotObserved
    ensures var d, last := Run(events), Latest(IsOutcome, events);
            match last
            case Some(AttemptFailed(_, category, status)) => d.category == category && d.httpStatus == status
            case Some(Finish(_, _, category, status)) => d.category == category && d.httpStatus == status
            case _ => d.category == "" && d.httpStatus == 0
  {
    if events != [] {
      LatestIsShown(events[..|events| - 1]);
    }
  }

  ghost function Balance(events: seq<Event>): int {
    Count(IsBegin, events) - Count(IsFinish, events)
  }

  lemma {:induction false} InProgressBound(events: seq<Event>)
    ensures Run(events).inProgress <= MAX_UINT64
  {
    if events != [] {
      InProgressBound(events[..|events| - 1]);
    }
  }

  ghost predicate NeverOutOfRange(events: seq<Event>) {
    0 <= Balance(events) <= MAX_UINT64 && (events == [] || NeverOutOfRange(events[..|events| - 1]))
  }

  ghost predicate AlwaysExact(events: seq<Event>) {
    Run(events).inProgress == Balance(events) && (events == [] || AlwaysExact(events[..|events| - 1]))
  }

  /** inProgress is begins minus finishes throughout a run exactly when that difference stays a uint64. */
  lemma {:induction false} InProgressIff(events: seq<Event>)
    ensures AlwaysExact(events) <==> NeverOutOfRange(events)
  {
    InProgressBound(events);
    if events != [] {
      InProgressIff(events[..|events| - 1]);
    }
  }
}

/** QueueHealth.Backpressure: how long the queue has been under pressure. */
module Backpressure {
  import ChangeNotification

  const MAX_DURATION: int := 0x7FFF_FFFF_FFFF_FFFF
  const MIN_DURATION: int := -0x8000_0000_0000_0000

  /** Times are positive nanoseconds; 0 is Go's zero time. */
  datatype Pressure = Pressure(total: int, start: int)

  function Min(a: int, b: int): int {
    if a <= b then a else b
  }

  /** time.Time.Sub saturates. */
  function Sub(a: int, b: int): int {
    if a - b > MAX_DURATION then MAX_DURATION
    else if a - b < MIN_DURATION then MIN_DURATION
    else a - b
  }

  function Elapsed(now: int, since: int): int {
    if since == 0 || now < since then 0 else Sub(now, since)
  }

  function Observe(p: Pressure, now: int, active: bool): Pressure {
    if active then
      if p.start == 0 then p.(start := now) else p
    else if p.start == 0 then p
    else
      var delta := Sub(now, p.start);
      var total := if delta <= 0 then p.total
                   else if delta > MAX_DURATION - p.total then MAX_DURATION
                   else p.total + delta;
      Pressure(total, 0)
  }

  /** The sum behind BackpressureSeconds of Snapshot, in exact nanoseconds, before the conversion to seconds. */
  function ReportedNanos(p: Pressure, now: int): int {
    p.total + Elapsed(now, p.start)
  }

  class QueueHealth {
    const changed: ChangeNotification.Changed
    var pressureStart: int
    var pressure: int

    ghost function Abs(): Pressure
      reads this
    {
      Pressure(pressure, pressureStart)
    }

    constructor ()
      ensures Abs() == Pressure(0, 0) && changed.Abs() == ChangeNotification.FRESH && fresh(changed)
    {
      changed := new ChangeNotification.Changed();
      pressureStart, pressure := 0, 0;
    }

    method Backpressure(now: int, active: bool)
      modifies this`pressure, this`pressureStart, changed
      ensures Abs() == Observe(old(Abs()), now, active)
      ensures changed.Abs() == ChangeNotification.Close(old(changed.Abs()))
    {
      if active {
        if pressureStart == 0 {
          pressureStart := now;
        }
        changed.Signal();
        return;
      }
      if pressureStart != 0 {
        var delta := Sub(now, pressureStart);
        if delta > 0 {
          if delta > MAX_DURATION - pressure {
            pressure := MAX_DURATION;
          } else {
            pressure := pressure + delta;
          }
        }
        pressureStart := 0;
      }
      changed.Signal();
    }
  }

  /** Whatever the clock does, an observation never takes back accumulated time, and ends pressure or leaves it. */
  lemma TotalNeverFalls(p: Pressure, now: int, active: bool)
    requires 0 <= p.total <= MAX_DURATION
    ensures var q := Observe(p, now, active);
            && p.total <= q.total <= MAX_DURATION && (now <= p.start ==> q.total == p.total)
            && q.start == (if !active then 0 else if p.start == 0 then now else p.start)
            && (active ==> q.total == p.total)
  {
  }

  // ----- Runs with a clock that does not go back ------------------------------------------------

  datatype Observation = Observation(time: int, active: bool)

  function After(h: seq<Observation>): Pressure {
    if h == [] then Pressure(0, 0)
    else Observe(After(h[..|h| - 1]), h[|h| - 1].time, h[|h| - 1].active)
  }

  function LastTime(h: seq<Observation>): int {
    if h == [] then 1 else h[|h| - 1].time
  }

  ghost predicate Clocked(h: seq<Observation>) {
    h != [] ==> Clocked(h[..|h| - 1]) && LastTime(h[..|h| - 1]) <= LastTime(h)
  }

  /** The latest observation up to t said active. */
  ghost predicate ActiveAt(h: seq<Observation>, t: int) {
    if h == [] then false
    else if h[|h| - 1].time <= t then h[|h| - 1].active
    else ActiveAt(h[..|h| - 1], t)
  }

  ghost function ActiveInstants(h: seq<Observation>, now: int): set<int> {
    set t | 1 <= t < now && ActiveAt(h, t)
  }

  /** The instants from a up to, not including, b. */
  ghost function Interval(a: int, b: int): (r: set<int>)
    ensures forall t :: t in r <==> a <= t < b
    ensures a <= b ==> |r| == b - a
    decreases b - a
  {
    if a < b then Interval(a, b - 1) + {b - 1} else {}
  }

  lemma {:induction false} NothingBeforeStart(h: seq<Observation>, t: int)
    requires Clocked(h) && t < 1
    ensures !ActiveAt(h, t) && LastTime(h) >= 1
  {
    if h != [] {
      NothingBeforeStart(h[..|h| - 1], t);
    }
  }

  /** The last observation decides from its own time on and nothing before. */
  lemma InstantsStep(h: seq<Observation>, now: int)
    requires h != [] && Clocked(h) && LastTime(h) <= now
    ensures var before := ActiveInstants(h[..|h| - 1], LastTime(h));
            |ActiveInstants(h, now)| == |before| + if h[|h| - 1].active then now - LastTime(h) else 0
  {
    var last := h[|h| - 1];
    var before := ActiveInstants(h[..|h| - 1], last.time);
    NothingBeforeStart(h, 0);
    if last.active {
      assert ActiveInstants(h, now) == before + Interval(last.time, now);
      assert before !! Interval(last.time, now);
    } else {
      assert ActiveInstants(h, now) == before;
    }
  }

  /** Active instants before the current stretch of pressure, and within it. */
  ghost function Closed(h: seq<Observation>): nat {
    if h == [] then 0
    else if !h[|h| - 1].active then |ActiveInstants(h, LastTime(h))|
    else Closed(h[..|h| - 1])
  }

  lemma {:induction false} PressureMeans(h: seq<Observation>, now: int)
    requires Clocked(h) && LastTime(h) <= now
    ensures var p := After(h);
            && p.total == Min(Closed(h), MAX_DURATION)
            && (p.start != 0 <==> h != [] && h[|h| - 1].active)
            && (p.start != 0 ==> 1 <= p.start <= LastTime(h) && |ActiveInstants(h, now)| == Closed(h) + now - p.start)
            && (p.start == 0 ==> |ActiveInstants(h, now)| == Closed(h))
  {
    NothingBeforeStart(h, 0);
    if h == [] {
      assert ActiveInstants(h, now) == {};
    } else {
      var init := h[..|h| - 1];
      PressureMeans(init, LastTime(h));
      InstantsStep(h, now);
      InstantsStep(h, LastTime(h));
    }
  }

  /** Below the 63-bit bound the sum is the number of nanoseconds during which the queue was under pressure. */
  lemma {:induction false} NanosAreActiveTime(h: seq<Observation>, now: int)
    requires Clocked(h) && LastTime(h) <= now
    ensures |ActiveInstants(h, now)| <= MAX_DURATION ==> ReportedNanos(After(h), now) == |ActiveInstants(h, now)|
    ensures ReportedNanos(After(h), now) ==
              Min(Closed(h), MAX_DURATION) + Min(|ActiveInstants(h, now)| - Closed(h), MAX_DURATION)
  {
    PressureMeans(h, now);
  }

  lemma {:induction false} EarlierInstantsStay(h: seq<Observation>, more: seq<Observation>, now: int, t: int)
    requires Clocked(h + more) && t < now && forall i :: 0 <= i < |more| ==> now <= more[i].time
    ensures ActiveAt(h + more, t) == ActiveAt(h, t) && Clocked(h)
  {
    if more == [] {
      assert h + more == h;
    } else {
      var init := more[..|more| - 1];
      assert (h + more)[..|h + more| - 1] == h + init;
      EarlierInstantsStay(h, init, now, t);
    }
  }

  lemma {:induction false} MoreInstants(h: seq<Observation>, now: int, more: seq<Observation>, later: int)
    requires Clocked(h + more) && now <= later && forall i :: 0 <= i < |more| ==> now <= more[i].time
    ensures Clocked(h) && |ActiveInstants(h, now)| <= |ActiveInstants(h + more, later)|
  {
    EarlierInstantsStay(h, more, now, now - 1);
    forall t | t in ActiveInstants(h, now) ensures t in ActiveInstants(h + more, later) {
      EarlierInstantsStay(h, more, now, t);
    }
    SubsetSize(ActiveInstants(h, now), ActiveInstants(h + more, later));
  }

  /** A later sum is never smaller, whatever was observed in between, while the later one is below the bound. */
  lemma {:induction false} NanosNeverDecrease(h: seq<Observation>, now: int, more: seq<Observation>, later: int)
    requires Clocked(h + more) && LastTime(h) <= now <= later && LastTime(h + more) <= later
    requires forall i :: 0 <= i < |more| ==> now <= more[i].time
    requires |ActiveInstants(h + more, later)| <= MAX_DURATION
    ensures ReportedNanos(After(h), now) <= ReportedNanos(After(h + more), later)
  {
    MoreInstants(h, now, more, later);
    NanosAreActiveTime(h, now);
    NanosAreActiveTime(h + more, later);
  }

  lemma SubsetSize(a: set<int>, b: set<int>)
    requires a <= b
    ensures |a| <= |b|
  {
    assert b == a + (b - a);
  }

  /** Past the bound the sum can fall: an observation makes it fall exactly when it ends pressure and the sum no
      longer fits. */
  lemma {:induction false} NanosDropIff(h: seq<Observation>, now: int, active: bool)
    requires Clocked(h) && LastTime(h) <= now
    ensures var p := After(h);
            ReportedNanos(Observe(p, now, active), now) < ReportedNanos(p, now) <==>
            !active && p.start != 0 && p.total > 0 && p.start < now && p.total + (now - p.start) > MAX_DURATION
  {
    PressureMeans(h, now);
  }

  /** Waiting never makes it fall, not even past the bound. */
  lemma {:induction false} NanosNeverDropByWaiting(h: seq<Observation>, now: int, later: int)
    requires Clocked(h) && LastTime(h) <= now <= later
    ensures ReportedNanos(After(h), now) <= ReportedNanos(After(h), later)
  {
    PressureMeans(h, now);
  }

  /** A run in which it does. */
  lemma NanosDrop() returns (h: seq<Observation>, now: int)
    ensures Clocked(h) && LastTime(h) <= now
    ensures ReportedNanos(Observe(After(h), now, false), now) < ReportedNanos(After(h), now)
  {
    var a, b, c := Observation(1, true), Observation(2, false), Observation(2, true);
    h, now := [a, b, c], 2 + MAX_DURATION;
    assert [a][..0] == [] && [a, b][..1] == [a] && h[..2] == [a, b];
    assert Clocked([a]) && Clocked([a, b]);
    assert After([a]) == Pressure(0, 1);
    assert After([a, b]) == Pressure(1, 0);
    assert After(h) == Pressure(1, 2);
  }
}
