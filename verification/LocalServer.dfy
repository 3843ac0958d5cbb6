/** `localServer` as it is written: the pending slice lives in a backing array that is shifted in place.
    Every method is one critical section of `mu` and is proved against the value-level queue.
 */
module LocalServer {
  import opened LocalQueue

  /** A slot of the backing array: nil or a request pointer. */
  datatype Slot = Nil | Ref(request: Request)

  ghost function Requests(slots: seq<Slot>): (rs: seq<Request>)
    requires forall i :: 0 <= i < |slots| ==> slots[i].Ref?
    ensures |rs| == |slots|
  {
    seq(|slots|, i requires 0 <= i < |slots| => slots[i].request)
  }

  /** Every first index with the id is where RemoveFirst cuts. */
  lemma {:induction false} RemoveFirstAt(rs: seq<Request>, id: nat, k: nat)
    requires k < |rs| && rs[k].id == id
    requires forall i :: 0 <= i < k ==> rs[i].id != id
    ensures RemoveFirst(rs, id) == rs[..k] + rs[k + 1..]
  {
    if k > 0 {
      RemoveFirstAt(rs[1..], id, k - 1);
      assert rs[..k] == [rs[0]] + rs[1..][..k - 1];
      assert rs[1..][k..] == rs[k + 1..];
    }
  }

  lemma {:induction false} RemoveFirstNone(rs: seq<Request>, id: nat)
    requires forall i :: 0 <= i < |rs| ==> rs[i].id != id
    ensures RemoveFirst(rs, id) == rs
  {
    if rs != [] {
      RemoveFirstNone(rs[1..], id);
    }
  }

  /** copy(a[at:], a[at+gap:n]): an overlapping move towards the front. */
  method CopyDown(a: array<Slot>, at: nat, gap: nat, n: nat)
    requires at + gap <= n <= a.Length
    modifies a
    ensures forall j {:trigger a[j]} :: at <= j < n - gap ==> a[j] == old(a[j + gap])
    ensures forall j {:trigger a[j]} :: 0 <= j < at || n - gap <= j < a.Length ==> a[j] == old(a[j])
  {
    ghost var before := a[..];
    for i := at to n - gap
      invariant forall j {:trigger a[j]} :: at <= j < i ==> a[j] == before[j + gap]
      invariant forall j {:trigger a[j]} :: 0 <= j < at || i <= j < a.Length ==> a[j] == before[j]
    {
      a[i] := a[i + gap];
    }
  }

  /** Set the vacated slots to nil so that they keep no request alive. */
  method ClearSlots(a: array<Slot>, from: nat, n: nat)
    requires from <= n <= a.Length
    modifies a
    ensures forall j :: from <= j < n ==> a[j] == Nil
    ensures forall j :: 0 <= j < from || n <= j < a.Length ==> a[j] == old(a[j])
  {
    ghost var before := a[..];
    for i := from to n
      invariant forall j :: from <= j < i ==> a[j] == Nil
      invariant forall j :: 0 <= j < from || i <= j < a.Length ==> a[j] == before[j]
    {
      a[i] := Nil;
    }
  }

  /** copy(a[at:], a[at+gap:n]) and nil out the vacated tail, as one change of a[..n]. */
  method ShiftSlots(a: array<Slot>, at: nat, gap: nat, n: nat)
    requires at + gap <= n <= a.Length
    modifies a
    ensures a[..n - gap] == old(a[..n])[..at] + old(a[..n])[at + gap..]
    ensures forall j :: n - gap <= j < n ==> a[j].Nil?
    ensures forall j :: n <= j < a.Length ==> a[j] == old(a[j])
  {
    ghost var before := a[..n];
    CopyDown(a, at, gap, n);
    ClearSlots(a, n - gap, n);
    CutOut(before, a[..n - gap], at, gap);
  }

  lemma CutOut(before: seq<Slot>, after: seq<Slot>, at: nat, gap: nat)
    requires at + gap <= |before| && |after| == |before| - gap
    requires forall j :: 0 <= j < at ==> after[j] == before[j]
    requires forall j :: at <= j < |after| ==> after[j] == before[j + gap]
    ensures after == before[..at] + before[at + gap..]
  {
  }

  lemma ShiftedRequests(before: seq<Slot>, at: nat, gap: nat)
    requires at + gap <= |before| && forall i :: 0 <= i < |before| ==> before[i].Ref?
    ensures var after := before[..at] + before[at + gap..];
            && (forall i :: 0 <= i < |after| ==> after[i].Ref?)
            && Requests(after) == Requests(before)[..at] + Requests(before)[at + gap..]
  {
    var after := before[..at] + before[at + gap..];
    forall i | 0 <= i < |after| ensures after[i] == before[if i < at then i else i + gap] {
    }
  }

  /** A larger backing array with the same contents. */
  method Grown(full: array<Slot>) returns (grown: array<Slot>)
    ensures fresh(grown) && grown.Length == 2 * full.Length + 1 && grown[..full.Length] == full[..]
    ensures forall j :: full.Length <= j < grown.Length ==> grown[j].Nil?
  {
    grown := new Slot[2 * full.Length + 1](_ => Nil);
    for i := 0 to full.Length
      invariant forall j :: 0 <= j < i ==> grown[j] == full[j]
      invariant forall j :: i <= j < grown.Length ==> grown[j].Nil?
    {
      grown[i] := full[i];
    }
  }

  lemma OneMoreRequest(slots: seq<Slot>, r: Request)
    requires forall i :: 0 <= i < |slots| ==> slots[i].Ref?
    ensures var more := slots + [Ref(r)];
            (forall i :: 0 <= i < |more| ==> more[i].Ref?) && Requests(more) == Requests(slots) + [r]
  {
  }

  /** The loop of dequeueLocked: file the first n requests and collect their commands. */
  method TakeBatch(slots: array<Slot>, n: nat, inFlight: map<nat, Request>)
    returns (commands: seq<string>, table: map<nat, Request>)
    requires n <= slots.Length && forall i :: 0 <= i < n ==> slots[i].Ref?
    ensures table == AddAll(inFlight, Requests(slots[..n]))
    ensures |commands| == n && forall i :: 0 <= i < n ==> commands[i] == Requests(slots[..n])[i].command
  {
    commands, table := [], inFlight;
    ghost var batch := Requests(slots[..n]);
    for i := 0 to n
      invariant |commands| == i && forall j :: 0 <= j < i ==> commands[j] == batch[j].command
      invariant table == AddAll(inFlight, batch[..i])
    {
      var request := slots[i].request;
      table := table[request.id := request];
      commands := commands + [request.command];
      assert batch[..i + 1][..i] == batch[..i] && batch[..i + 1][i] == request;
    }
    assert batch[..n] == batch;
  }

  class Server {
    var slots: array<Slot>           // backing array of `pending`
    var len: nat                     // its length; slots from `len` on are nil
    var inFlight: map<nat, Request>
    var gen: nat
    var polled: bool

    ghost predicate Valid()
      reads this, slots
    {
      && len <= slots.Length
      && (forall i :: 0 <= i < len ==> slots[i].Ref?)
      && (forall i :: len <= i < slots.Length ==> slots[i].Nil?)
    }

    ghost function Abs(): Queue
      reads this, slots
      requires Valid()
    {
      Queue(Requests(slots[..len]), inFlight, gen, polled)
    }

    constructor ()
      ensures Valid() && fresh(slots)
      ensures Abs() == EMPTY
    {
      slots := new Slot[0];
      len, inFlight, gen, polled := 0, map[], 0, false;
    }

    method SignalStateChange()
      requires Valid()
      modifies this`gen
      ensures Valid() && Abs() == Signal(old(Abs()))
    {
      gen := gen + 1;
    }

    /** append: in place while the backing array has room, otherwise into a larger copy. */
    method EnqueueRequest(r: Request)
      requires Valid()
      modifies this, slots
      ensures Valid() && (slots == old(slots) || fresh(slots))
      ensures Abs() == Enqueue(old(Abs()), r)
    {
      if len == slots.Length {
        slots := Grown(slots);
      }
      ghost var before := slots[..len];
      assert before == old(slots[..len]);
      slots[len] := Ref(r);
      len := len + 1;
      assert slots[..len] == before + [Ref(r)];
      OneMoreRequest(before, r);
      SignalStateChange();
    }

    /** copy(pending[at:], pending[at+gap:]), nil out the vacated tail, reslice. */
    method ShiftDown(at: nat, gap: nat)
      requires Valid() && at + gap <= len
      modifies this`len, slots
      ensures Valid()
      ensures Requests(slots[..len]) == old(Abs()).pending[..at] + old(Abs()).pending[at + gap..]
    {
      ghost var before := slots[..len];
      ShiftedRequests(before, at, gap);
      ShiftSlots(slots, at, gap, len);
      len := len - gap;
      assert forall i :: 0 <= i < len ==> slots[i] == slots[..len][i];
    }

    /** The loop of dequeueLocked, the shift and the signal, for a batch that is not empty. */
    method TakeOut(n: nat) returns (commands: seq<string>)
      requires Valid() && 0 < n <= len
      modifies this, slots
      ensures Valid() && slots == old(slots)
      ensures Abs() == Signal(old(Abs()).(pending := old(Abs()).pending[n..],
                                          inFlight := AddAll(old(inFlight), old(Abs()).pending[..n])))
      ensures |commands| == n && forall i :: 0 <= i < n ==> commands[i] == old(Abs()).pending[i].command
    {
      ghost var all := Abs().pending;
      assert Requests(slots[..n]) == all[..n];
      commands, inFlight := TakeBatch(slots, n, inFlight);
      ShiftDown(0, n);
      assert all[..0] + all[n..] == all[n..];
      SignalStateChange();
    }

    method DequeueLocked(limit: int) returns (commands: seq<string>)
      requires Valid()
      modifies this, slots
      ensures Valid() && slots == old(slots)
      ensures Abs() == Dequeue(old(Abs()), limit)
      ensures limit <= 0 ==> commands == []
      ensures limit > 0 ==> |commands| <= limit && (|commands| < limit ==> Abs().pending == [])
      ensures |commands| <= |old(Abs()).pending| && Abs().pending == old(Abs()).pending[|commands|..]
      ensures forall i :: 0 <= i < |commands| ==> commands[i] == old(Abs()).pending[i].command
    {
      commands := [];
      if limit <= 0 || len == 0 {
        return;
      }
      var n := if limit > len then len else limit;
      commands := TakeOut(n);
    }

    method CancelLocked(id: nat)
      requires Valid()
      modifies this, slots
      ensures Valid() && slots == old(slots)
      ensures Abs() == Cancel(old(Abs()), id)
    {
      inFlight := inFlight - {id};
      ghost var before := Abs().pending;
      var i := 0;
      while i < len && slots[i].request.id != id
        invariant 0 <= i <= len
        invariant forall j :: 0 <= j < i ==> slots[j].request.id != id
      {
        i := i + 1;
      }
      if i < len {
        RemoveFirstAt(before, id, i);
        ShiftDown(i, 1);
      } else {
        RemoveFirstNone(before, id);
      }
      SignalStateChange();
    }

    /** The critical section at the head of the handlePoll loop. */
    method PollLocked(limit: int) returns (commands: seq<string>)
      requires Valid()
      modifies this, slots
      ensures Valid() && slots == old(slots)
      ensures Abs() == Poll(old(Abs()), limit)
      ensures limit <= 0 ==> commands == []
      ensures limit > 0 ==> |commands| <= limit && (|commands| < limit ==> Abs().pending == [])
      ensures |commands| <= |old(Abs()).pending| && Abs().pending == old(Abs()).pending[|commands|..]
      ensures forall i :: 0 <= i < |commands| ==> commands[i] == old(Abs()).pending[i].command
    {
      polled := true;
      SignalStateChange();
      commands := DequeueLocked(limit);
    }

    /** The critical section of handleResponse; `found` is false where the handler answers 404. */
    method RespondLocked(id: nat, final: bool) returns (found: bool)
      requires Valid()
      modifies this`inFlight, this`gen
      ensures Valid() && Abs() == Respond(old(Abs()), id, final)
      ensures found <==> id in old(inFlight)
    {
      found := id in inFlight;
      if found && final {
        inFlight := inFlight - {id};
      }
      SignalStateChange();
    }
  }
}
