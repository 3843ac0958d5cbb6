/** Three ring buffers in three encodings, each refining "the last `capacity` items appended":
    pkg/adminui/log_buffer.go keeps start and size, pkg/harpoon/call_buffer.go keeps next and count and walks
    backward, and the event history of pkg/codexappserver/bridge.go keeps next and count and indexes by modulus.
 */
module Rings {
  import opened Text

  /** The last n items, or all of them. */
  ghost function Last<T>(s: seq<T>, n: nat): (r: seq<T>)
    ensures |r| == if n <= |s| then n else |s|
  {
    if n <= |s| then s[|s| - n..] else s
  }

  ghost function Min(a: nat, b: nat): nat {
    if a <= b then a else b
  }

  /** An index one turn too low or too high, brought back into 0..n. */
  ghost function At(x: int, n: nat): (k: int)
    ensures 0 <= x + n && x < 2 * n ==> 0 <= k < n
  {
    if x < 0 then x + n else if x < n then x else x - n
  }

  /** The modulus, for an index at most one turn too high. */
  method Wrap(x: nat, n: nat) returns (k: nat)
    requires 0 <= x < 2 * n
    ensures k == At(x, n) && k < n
  {
    k := x % n;
    if x >= n {
      assert x - n < n && x == n * 1 + (x - n);
    }
  }

  /** Where item k of a history of the given length lives, when the newest one is just before `end`. */
  ghost function SlotOf(end: int, length: nat, k: int, n: nat): int {
    At(end - length + k, n)
  }

  /** The `count` slots before `end`, around the end of the ring, hold the last `count` items of the history. */
  ghost predicate Holds<T(!new)>(ring: seq<T>, end: int, history: seq<T>, count: nat) {
    && count <= |history| && count <= |ring|
    && 0 <= end <= 2 * |ring| && count <= end + |ring|
    && forall k {:trigger SlotOf(end, |history|, k, |ring|)} :: |history| - count <= k < |history| ==>
         ring[SlotOf(end, |history|, k, |ring|)] == history[k]
  }

  lemma HoldsOneTurnLower<T(!new)>(ring: seq<T>, end: int, history: seq<T>, count: nat)
    requires Holds(ring, end, history, count) && end >= |ring|
    ensures Holds(ring, end - |ring|, history, count)
  {
    forall k | |history| - count <= k < |history|
      ensures ring[SlotOf(end - |ring|, |history|, k, |ring|)] == history[k]
    {
      assert SlotOf(end - |ring|, |history|, k, |ring|) == SlotOf(end, |history|, k, |ring|);
    }
  }

  lemma HoldsAt<T(!new)>(ring: seq<T>, end: int, history: seq<T>, count: nat, i: nat)
    requires Holds(ring, end, history, count) && i < count
    ensures 0 <= At(end - 1 - i, |ring|) < |ring| && ring[At(end - 1 - i, |ring|)] == history[|history| - 1 - i]
  {
    assert SlotOf(end, |history|, |history| - 1 - i, |ring|) == At(end - 1 - i, |ring|);
  }

  lemma HoldsFrom<T(!new)>(ring: seq<T>, start: nat, size: nat, n: nat, first: int, i: nat, k: int, history: seq<T>)
    requires Holds(ring, start + size, history, size) && i < n <= size && start < |ring|
    requires first == At(start + size - n, |ring|) && k == At(first + i, |ring|)
    ensures 0 <= k < |ring| && ring[k] == history[|history| - n + i]
  {
    HoldsAt(ring, start + size, history, size, n - 1 - i);
  }

  ghost predicate EndsAlike<T(!new)>(out: seq<T>, history: seq<T>, n: nat) {
    |out| <= n <= |history| && forall j :: 0 <= j < |out| ==> out[j] == history[|history| - n + j]
  }

  lemma SnocAlike<T(!new)>(out: seq<T>, history: seq<T>, n: nat, x: T)
    requires EndsAlike(out, history, n) && |out| < n && x == history[|history| - n + |out|]
    ensures EndsAlike(out + [x], history, n)
  {
  }

  lemma AllAlike<T(!new)>(out: seq<T>, history: seq<T>, n: nat)
    requires EndsAlike(out, history, n) && |out| == n
    ensures out == Last(history, n)
  {
  }

  /** Writing at `end` extends the window by the new item; in a full ring that slot was the oldest item's. */
  lemma HoldsPush<T(!new)>(ring: seq<T>, end: int, history: seq<T>, count: nat, x: T)
    requires end < 2 * |ring| && Holds(ring, end, history, count) && count == Min(|history|, |ring|)
    ensures Holds(ring[At(end, |ring|) := x], end + 1, history + [x], Min(|history| + 1, |ring|))
  {
    var n, h := |ring|, history + [x];
    forall k | |h| - Min(|h|, n) <= k < |h| ensures ring[At(end, n) := x][SlotOf(end + 1, |h|, k, n)] == h[k] {
      if k < |history| {
        assert SlotOf(end + 1, |h|, k, n) == SlotOf(end, |history|, k, n) != At(end, n);
      }
    }
  }

  /** The encoding of pkg/adminui: `start` is the oldest slot and stays 0 until the ring is full. */
  ghost predicate StartSize<T(!new)>(ring: seq<T>, start: nat, size: nat, history: seq<T>) {
    && start < |ring|
    && size == Min(|history|, |ring|)
    && (size < |ring| ==> start == 0)
    && Holds(ring, start + size, history, size)
  }

  lemma StartSizePush<T(!new)>(ring: seq<T>, start: nat, size: nat, history: seq<T>, x: T)
    requires StartSize(ring, start, size, history)
    ensures size < |ring| ==> StartSize(ring[At(start + size, |ring|) := x], start, size + 1, history + [x])
    ensures size == |ring| ==> StartSize(ring[start := x], At(start + 1, |ring|), size, history + [x])
  {
    HoldsPush(ring, start + size, history, size, x);
    if size == |ring| == start + 1 {
      HoldsOneTurnLower(ring[start := x], start + size + 1, history + [x], size);
    }
  }

  /** The encoding of pkg/harpoon and of the bridge: `next` is the slot to write, `count` saturates. */
  ghost predicate NextCount<T(!new)>(ring: seq<T>, next: nat, count: nat, history: seq<T>) {
    && (|ring| > 0 ==> next < |ring|)
    && count == Min(|history|, |ring|)
    && (count < |ring| ==> next == count)
    && Holds(ring, next, history, count)
  }

  lemma NextCountPush<T(!new)>(ring: seq<T>, next: nat, count: nat, history: seq<T>, x: T)
    requires NextCount(ring, next, count, history) && |ring| > 0
    ensures NextCount(ring[next := x], At(next + 1, |ring|), Min(count + 1, |ring|), history + [x])
  {
    HoldsPush(ring, next, history, count, x);
    if next + 1 == |ring| {
      HoldsOneTurnLower(ring[next := x], next + 1, history + [x], Min(count + 1, |ring|));
    }
  }

  // ----- Log events: start and size -------------------------------------------------------------

  /** Times are integers; Go's zero time is 0. */
  const ZERO_TIME: int := 0
  const DEFAULT_RECENT := 200
  const DEFAULT_LOG_CAPACITY := 2000

  datatype LogEvent = LogEvent(seqNo: int, time: int, message: string)

  function RecentLimit(limit: int): (n: nat) {
    if limit <= 0 then DEFAULT_RECENT else limit
  }

  ghost function KeepIf<T>(p: T -> bool, s: seq<T>): seq<T> {
    FlatMap(x => if p(x) then [x] else [], s)
  }

  /** The newest items, in order: as many as asked for, or as the ring has slots, or all there are. */
  lemma RecentMeans<T>(history: seq<T>, capacity: nat, limit: int)
    ensures var out := Last(history, Min(RecentLimit(limit), capacity));
            var most := if limit > 0 then limit else DEFAULT_RECENT;
            && |out| <= |history| && out == history[|history| - |out|..]
            && |out| <= most && |out| <= capacity && (|out| == most || |out| == capacity || |out| == |history|)
  {
  }

  class LogBuffer {
    const ring: array<LogEvent>
    var start: nat
    var size: nat
    ghost var history: seq<LogEvent>   // everything appended so far

    ghost predicate Valid()
      reads this, ring
    {
      StartSize(ring[..], start, size, history)
    }

    constructor (capacity: int)
      ensures Valid() && history == [] && fresh(ring)
      ensures ring.Length == if capacity <= 0 then DEFAULT_LOG_CAPACITY else capacity
    {
      var n := if capacity <= 0 then DEFAULT_LOG_CAPACITY else capacity;
      ring := new LogEvent[n](_ => LogEvent(0, ZERO_TIME, ""));
      start, size, history := 0, 0, [];
    }

    method AppendLocked(e: LogEvent)
      requires Valid()
      modifies this, ring
      ensures Valid() && history == old(history) + [e]
    {
      StartSizePush(ring[..], start, size, history, e);
      history := history + [e];
      if size < ring.Length {
        var k := Wrap(start + size, ring.Length);
        ring[k] := e;
        size := size + 1;
        assert ring[..] == old(ring[..])[k := e];
        return;
      }
      ring[start] := e;
      assert ring[..] == old(ring[..])[start := e];
      start := Wrap(start + 1, ring.Length);
    }

    /** The newest events, oldest first, at most the clamped limit of them. */
    method Recent(limit: int) returns (out: seq<LogEvent>)
      requires Valid()
      ensures out == Last(history, Min(RecentLimit(limit), ring.Length))
      ensures |out| <= |history| && out == history[|history| - |out|..]
      ensures var most := if limit > 0 then limit else DEFAULT_RECENT;
              && |out| <= most && |out| <= ring.Length
              && (|out| == most || |out| == ring.Length || |out| == |history|)
    {
      RecentMeans(history, ring.Length, limit);
      var n := if limit <= 0 then DEFAULT_RECENT else limit;
      if n > ring.Length {
        n := ring.Length;
      }
      if size == 0 {
        return [];
      }
      if n > size {
        n := size;
      }
      out := Newest(n);
    }

    /** The loop of Recent. */
    method Newest(n: nat) returns (out: seq<LogEvent>)
      requires Valid() && 0 < size && n <= size
      ensures out == Last(history, n)
    {
      out := [];
      var first := Wrap(start + size - n, ring.Length);
      for i := 0 to n
        invariant |out| == i && EndsAlike(out, history, n)
      {
        var k := Wrap(first + i, ring.Length);
        HoldsFrom(ring[..], start, size, n, first, i, k, history);
        SnocAlike(out, history, n, ring[k]);
        out := out + [ring[k]];
      }
      AllAlike(out, history, n);
    }

    /** The limit applies before the time filter. */
    method Since(since: int, limit: int) returns (out: seq<LogEvent>)
      requires Valid()
      ensures var recent := Last(history, Min(RecentLimit(limit), ring.Length));
              out == if since == ZERO_TIME then recent
                     else KeepIf((e: LogEvent) => e.time != ZERO_TIME && since <= e.time, recent)
    {
      var events := Recent(limit);
      if since == ZERO_TIME {
        return events;
      }
      out := [];
      ghost var keep := (e: LogEvent) => e.time != ZERO_TIME && since <= e.time;
      for i := 0 to |events|
        invariant out == KeepIf(keep, events[..i])
      {
        assert events[..i + 1] == events[..i] + [events[i]];
        KeepIfSnoc(keep, events[..i], events[i]);
        if !(events[i].time == ZERO_TIME || events[i].time < since) {
          out := out + [events[i]];
        }
      }
      assert events[..|events|] == events;
    }
  }

  lemma KeepIfSnoc<T>(p: T -> bool, s: seq<T>, x: T)
    ensures KeepIf(p, s + [x]) == KeepIf(p, s) + if p(x) then [x] else []
  {
    FlatMapSnoc(x => if p(x) then [x] else [], s, x);
  }

  lemma {:induction false} KeepIfLength<T>(p: T -> bool, s: seq<T>)
    ensures |KeepIf(p, s)| <= |s|
  {
    if s != [] {
      LastSplit(s);
      KeepIfSnoc(p, s[..|s| - 1], s[|s| - 1]);
      KeepIfLength(p, s[..|s| - 1]);
    }
  }

  // ----- Harpoon calls: next and count, walked backward -----------------------------------------

  const CALL_BUFFER_SIZE := 100

  datatype CallEntry = CallEntry(target: string, url: string, status: int)

  /** The newest n items, newest first. */
  ghost function NewestFirst<T>(s: seq<T>, n: nat): (r: seq<T>)
    requires n <= |s|
    ensures |r| == n
  {
    if n == 0 then [] else NewestFirst(s, n - 1) + [s[|s| - n]]
  }

  predicate HasLabel(wanted: string, e: CallEntry) {
    wanted == "" || e.target == wanted
  }

  ghost function Matching(wanted: string, s: seq<CallEntry>): seq<CallEntry> {
    KeepIf(e => HasLabel(wanted, e), s)
  }

  lemma {:induction false} MatchingGrows(wanted: string, s: seq<CallEntry>, m: nat, n: nat)
    requires m <= n <= |s|
    ensures Matching(wanted, NewestFirst(s, m)) <= Matching(wanted, NewestFirst(s, n))
    decreases n
  {
    if m < n {
      MatchingGrows(wanted, s, m, n - 1);
      KeepIfSnoc(e => HasLabel(wanted, e), NewestFirst(s, n - 1), s[|s| - n]);
    }
  }

  ghost function SnapshotLimit(limit: int, capacity: nat): nat {
    if limit <= 0 || limit > capacity then capacity else limit
  }

  /** The newest entries with the label, newest first, cut at the clamped limit. */
  ghost function SnapshotOf(history: seq<CallEntry>, capacity: nat, limit: int, wanted: string): seq<CallEntry> {
    var kept := Matching(TrimSpace(wanted), NewestFirst(history, Min(|history|, capacity)));
    kept[..Min(|kept|, SnapshotLimit(limit, capacity))]
  }

  lemma MatchingStep(wanted: string, history: seq<CallEntry>, i: nat)
    requires i < |history|
    ensures var e := history[|history| - 1 - i];
            Matching(wanted, NewestFirst(history, i + 1)) ==
            if HasLabel(wanted, e) then Matching(wanted, NewestFirst(history, i)) + [e]
            else Matching(wanted, NewestFirst(history, i))
  {
    KeepIfSnoc(e => HasLabel(wanted, e), NewestFirst(history, i), history[|history| - 1 - i]);
  }

  /** A scan that stops at the end of the window or at n matches has found the first n matches. */
  lemma ScanIsCut(history: seq<CallEntry>, capacity: nat, limit: int, wanted: string, i: nat, out: seq<CallEntry>)
    requires i <= Min(|history|, capacity) && out == Matching(TrimSpace(wanted), NewestFirst(history, i))
    requires var n := Min(SnapshotLimit(limit, capacity), Min(|history|, capacity));
             |out| <= n && (i == Min(|history|, capacity) || |out| == n)
    ensures out == SnapshotOf(history, capacity, limit, wanted)
  {
    var count := Min(|history|, capacity);
    MatchingGrows(TrimSpace(wanted), history, i, count);
    KeepIfLength(e => HasLabel(TrimSpace(wanted), e), NewestFirst(history, count));
  }

  lemma {:induction false} NewestFirstAt<T>(s: seq<T>, n: nat, i: nat)
    requires i < n <= |s|
    ensures NewestFirst(s, n)[i] == s[|s| - 1 - i]
  {
    if i < n - 1 {
      NewestFirstAt(s, n - 1, i);
    }
  }

  lemma {:induction false} KeepIfOnly<T(!new)>(p: T -> bool, s: seq<T>)
    ensures forall x :: x in KeepIf(p, s) ==> p(x)
    ensures (forall x :: p(x)) ==> KeepIf(p, s) == s
  {
    if s != [] {
      LastSplit(s);
      KeepIfOnly(p, s[..|s| - 1]);
      KeepIfSnoc(p, s[..|s| - 1], s[|s| - 1]);
    }
  }

  /** What a snapshot shows: only entries with the label, at most as many as asked for; without a label the newest
      entries, newest first, as many as asked for or all there are. */
  lemma SnapshotMeans(history: seq<CallEntry>, capacity: nat, limit: int, wanted: string)
    ensures var out := SnapshotOf(history, capacity, limit, wanted);
            && (limit > 0 ==> |out| <= limit)
            && (forall i :: 0 <= i < |out| ==> TrimSpace(wanted) in ["", out[i].target])
            && (TrimSpace(wanted) == "" ==>
                  && |out| <= |history| && (forall i :: 0 <= i < |out| ==> out[i] == history[|history| - 1 - i])
                  && (|out| == limit || |out| == capacity || |out| == |history|))
  {
    var tag, window := TrimSpace(wanted), NewestFirst(history, Min(|history|, capacity));
    var out := SnapshotOf(history, capacity, limit, wanted);
    KeepIfOnly(e => HasLabel(tag, e), window);
    forall i | 0 <= i < |out| ensures tag in ["", out[i].target] {
      assert out[i] in Matching(tag, window);
    }
    if tag == "" {
      forall i | 0 <= i < |out| ensures out[i] == history[|history| - 1 - i] {
        NewestFirstAt(history, Min(|history|, capacity), i);
      }
    }
  }

  class CallBuffer {
    const entries: array<CallEntry>
    var next: nat
    var count: nat
    ghost var history: seq<CallEntry>   // everything recorded while the buffer had slots

    ghost predicate Valid()
      reads this, entries
    {
      NextCount(entries[..], next, count, history)
    }

    constructor New()
      ensures Valid() && history == [] && fresh(entries) && entries.Length == CALL_BUFFER_SIZE
    {
      entries := new CallEntry[CALL_BUFFER_SIZE](_ => CallEntry("", "", 0));
      next, count, history := 0, 0, [];
    }

    /** The zero value has no slots; it keeps nothing. */
    constructor Zero()
      ensures Valid() && history == [] && fresh(entries) && entries.Length == 0
    {
      entries := new CallEntry[0];
      next, count, history := 0, 0, [];
    }

    method RecordCall(e: CallEntry)
      requires Valid()
      modifies this, entries
      ensures Valid() && history == old(history) + [e]
    {
      if entries.Length == 0 {
        history := history + [e];
        return;
      }
      NextCountPush(entries[..], next, count, history, e);
      history := history + [e];
      entries[next] := e;
      assert entries[..] == old(entries[..])[next := e];
      next := Wrap(next + 1, entries.Length);
      if count < entries.Length {
        count := count + 1;
      }
    }

    /** The entry i steps back from the newest. */
    method EntryBack(i: nat) returns (e: CallEntry)
      requires Valid() && i < count
      ensures e == history[|history| - 1 - i]
    {
      var k := next - 1 - i;
      if k < 0 {
        k := k + entries.Length;
      }
      HoldsAt(entries[..], next, history, count, i);
      e := entries[k];
    }

    method Snapshot(limit: int, wanted: string) returns (out: seq<CallEntry>)
      requires Valid()
      ensures out == SnapshotOf(history, entries.Length, limit, wanted)
    {
      if entries.Length == 0 || count == 0 {
        ScanIsCut(history, entries.Length, limit, wanted, 0, []);
        return [];
      }
      var n := if limit <= 0 || limit > entries.Length then entries.Length else limit;
      if n > count {
        n := count;
      }
      ghost var i;
      out, i := Scan(TrimSpace(wanted), n);
      ScanIsCut(history, entries.Length, limit, wanted, i, out);
    }

    /** The loop of Snapshot: backward from the newest entry, until n entries with the label are found. */
    method Scan(wanted: string, n: nat) returns (out: seq<CallEntry>, ghost visited: nat)
      requires Valid()
      ensures visited <= count && out == Matching(wanted, NewestFirst(history, visited))
      ensures |out| <= n && (visited == count || |out| == n)
    {
      out := [];
      var i := 0;
      while i < count && |out| < n
        invariant i <= count && |out| <= n
        invariant out == Matching(wanted, NewestFirst(history, i))
      {
        var e := EntryBack(i);
        MatchingStep(wanted, history, i);
        if !(wanted != "" && e.target != wanted) {
          out := out + [e];
        }
        i := i + 1;
      }
      visited := i;
    }
  }

  // ----- Bridge events: next and count by modulus -----------------------------------------------

  datatype Event = Event(seqNo: int, time: int, summary: string)

  /** Sequence numbers count from one without a gap, and no event lacks a time. */
  ghost predicate Stamped(history: seq<Event>) {
    forall i :: 0 <= i < |history| ==> history[i].seqNo == i + 1 && history[i].time != ZERO_TIME
  }

  lemma StampedSnoc(history: seq<Event>, e: Event)
    requires Stamped(history) && e.seqNo == |history| + 1 && e.time != ZERO_TIME
    ensures Stamped(history + [e])
  {
  }

  lemma StampedEnd(history: seq<Event>, out: seq<Event>, n: nat)
    requires Stamped(history) && out == Last(history, n)
    ensures forall i :: 0 <= i < |out| ==> out[i].seqNo == |history| - |out| + 1 + i
  {
  }

  lemma EventsMean(history: seq<Event>, capacity: nat, limit: int)
    ensures var out := Last(history, SnapshotLimit(limit, capacity));
            && |out| <= |history| && out == history[|history| - |out|..] && (limit > 0 ==> |out| <= limit)
            && |out| <= capacity && (|out| == limit || |out| == capacity || |out| == |history|)
  {
  }

  class EventRing {
    const events: array<Event>
    var next: nat
    var count: nat
    var seqNo: nat
    ghost var history: seq<Event>   // everything published

    ghost predicate Valid()
      reads this, events
    {
      NextCount(events[..], next, count, history) && seqNo == |history| && Stamped(history)
    }

    constructor (capacity: nat)
      ensures Valid() && history == [] && fresh(events) && events.Length == capacity
    {
      events := new Event[capacity](_ => Event(0, ZERO_TIME, ""));
      next, count, seqNo, history := 0, 0, 0, [];
    }

    /** `now` is read from the clock and is never the zero time. */
    method PublishLocked(e: Event, now: int)
      requires Valid() && now != ZERO_TIME
      modifies this, events
      ensures Valid()
      ensures history == old(history) +
                [Event(old(|history|) + 1, if e.time == ZERO_TIME then now else e.time, e.summary)]
    {
      seqNo := seqNo + 1;
      var stamped := e.(seqNo := seqNo);
      if stamped.time == ZERO_TIME {
        stamped := stamped.(time := now);
      }
      StampedSnoc(history, stamped);
      Store(stamped);
      history := history + [stamped];
    }

    /** Write into the ring, if it has slots. */
    method Store(e: Event)
      requires NextCount(events[..], next, count, history)
      modifies this`next, this`count, events
      ensures NextCount(events[..], next, count, history + [e])
    {
      if events.Length > 0 {
        NextCountPush(events[..], next, count, history, e);
        events[next] := e;
        assert events[..] == old(events[..])[next := e];
        next := Wrap(next + 1, events.Length);
        if count < events.Length {
          count := count + 1;
        }
      }
    }

    /** A suffix of the published events, with consecutive sequence numbers ending at the newest. */
    method RecentEvents(limit: int) returns (out: seq<Event>)
      requires Valid()
      ensures out == Last(history, SnapshotLimit(limit, events.Length))
      ensures |out| <= |history| && out == history[|history| - |out|..]
      ensures limit > 0 ==> |out| <= limit
      ensures |out| <= events.Length && (|out| == limit || |out| == events.Length || |out| == |history|)
      ensures forall i :: 0 <= i < |out| ==> out[i].seqNo == seqNo - |out| + 1 + i
    {
      EventsMean(history, events.Length, limit);
      var n := if limit <= 0 || limit > count then count else limit;
      out := Newest(n);
      StampedEnd(history, out, n);
    }

    /** The loop of RecentEvents. */
    method Newest(n: nat) returns (out: seq<Event>)
      requires Valid() && n <= count
      ensures out == Last(history, n)
    {
      out := [];
      for i := count - n to count
        invariant |out| == i - (count - n) && EndsAlike(out, history, n)
      {
        var k := Wrap(next - count + i + events.Length, events.Length);
        HoldsAt(events[..], next, history, count, count - 1 - i);
        SnocAlike(out, history, n, events[k]);
        out := out + [events[k]];
      }
      AllAlike(out, history, n);
    }
  }
}
