/** The queue half of the local control plane (`localServer` in pkg/localproxy/localproxy.go): what each
    critical section of its mutex does to the pending list, the in-flight table and the state channel.

    `stateCh` is closed and replaced on every change, so it is modelled by a generation number: the
    channel of generation g is closed exactly when g is smaller than the current generation.
 */
module LocalQueue {

  /** `localRequest`: the id is the value drawn from the shared atomic counter. */
  datatype Request = Request(id: nat, command: string)

  datatype Queue = Queue(
    pending: seq<Request>,
    inFlight: map<nat, Request>,
    gen: nat,
    polled: bool)

  const EMPTY := Queue([], map[], 0, false)

  // ----- Critical sections ----------------------------------------------------------------------

  /** signalStateChangeLocked: close the current channel, install a fresh one. */
  function Signal(q: Queue): Queue {
    q.(gen := q.gen + 1)
  }

  function Enqueue(q: Queue, r: Request): Queue {
    Signal(q.(pending := q.pending + [r]))
  }

  function AddAll(m: map<nat, Request>, rs: seq<Request>): map<nat, Request> {
    if rs == [] then m else AddAll(m, rs[..|rs| - 1])[rs[|rs| - 1].id := rs[|rs| - 1]]
  }

  function BatchSize(q: Queue, limit: int): nat {
    if limit <= 0 then 0 else if limit > |q.pending| then |q.pending| else limit
  }

  /** dequeueLocked: the first `limit` requests move to the in-flight table. */
  function Dequeue(q: Queue, limit: int): Queue {
    var n := BatchSize(q, limit);
    if n == 0 then q
    else Signal(q.(pending := q.pending[n..], inFlight := AddAll(q.inFlight, q.pending[..n])))
  }

  /** The section at the top of the handlePoll loop. */
  function Poll(q: Queue, limit: int): Queue {
    Dequeue(Signal(q.(polled := true)), limit)
  }

  /** The section of handleResponse: only a final response retires the request. */
  function Respond(q: Queue, id: nat, final: bool): Queue {
    Signal(if id in q.inFlight && final then q.(inFlight := q.inFlight - {id}) else q)
  }

  function RemoveFirst(rs: seq<Request>, id: nat): seq<Request> {
    if rs == [] then []
    else if rs[0].id == id then rs[1..]
    else [rs[0]] + RemoveFirst(rs[1..], id)
  }

  function Cancel(q: Queue, id: nat): Queue {
    Signal(q.(inFlight := q.inFlight - {id}, pending := RemoveFirst(q.pending, id)))
  }

  // ----- Request lists --------------------------------------------------------------------------

  function Ids(rs: seq<Request>): set<nat> {
    set r | r in rs :: r.id
  }

  ghost predicate DistinctIds(rs: seq<Request>) {
    forall i, j :: 0 <= i < j < |rs| ==> rs[i].id != rs[j].id
  }

  /** `rs` without the requests whose id is in `dropped`, order kept. */
  ghost function Keep(rs: seq<Request>, dropped: set<nat>): seq<Request> {
    if rs == [] then []
    else if rs[0].id in dropped then Keep(rs[1..], dropped)
    else [rs[0]] + Keep(rs[1..], dropped)
  }

  lemma KeepCons(r: Request, rest: seq<Request>, dropped: set<nat>)
    ensures Keep([r] + rest, dropped) == (if r.id in dropped then [] else [r]) + Keep(rest, dropped)
  {
    assert ([r] + rest)[1..] == rest;
  }

  lemma {:induction false} KeepAppend(a: seq<Request>, b: seq<Request>, dropped: set<nat>)
    ensures Keep(a + b, dropped) == Keep(a, dropped) + Keep(b, dropped)
  {
    if a == [] {
      assert a + b == b;
    } else {
      KeepAppend(a[1..], b, dropped);
      KeepCons(a[0], a[1..] + b, dropped);
      KeepCons(a[0], a[1..], dropped);
      assert a + b == [a[0]] + (a[1..] + b) && a == [a[0]] + a[1..];
    }
  }

  lemma {:induction false} KeepMembers(rs: seq<Request>, dropped: set<nat>)
    ensures forall r :: r in Keep(rs, dropped) <==> r in rs && r.id !in dropped
    ensures DistinctIds(rs) ==> DistinctIds(Keep(rs, dropped))
  {
    if rs != [] {
      KeepMembers(rs[1..], dropped);
      assert rs == [rs[0]] + rs[1..];
    }
  }

  lemma {:induction false} KeepTwice(rs: seq<Request>, dropped: set<nat>, id: nat)
    ensures Keep(rs, dropped + {id}) == Keep(Keep(rs, dropped), {id})
  {
    if rs != [] {
      KeepTwice(rs[1..], dropped, id);
    }
  }

  lemma {:induction false} KeepAll(rs: seq<Request>, dropped: set<nat>)
    requires forall i :: 0 <= i < |rs| ==> rs[i].id !in dropped
    ensures Keep(rs, dropped) == rs
  {
    if rs != [] {
      KeepAll(rs[1..], dropped);
    }
  }

  lemma {:induction false} RemoveFirstIsKeep(rs: seq<Request>, id: nat)
    requires DistinctIds(rs)
    ensures RemoveFirst(rs, id) == Keep(rs, {id})
  {
    if rs != [] {
      if rs[0].id == id {
        KeepAll(rs[1..], {id});
      } else {
        RemoveFirstIsKeep(rs[1..], id);
      }
    }
  }

  lemma {:induction false} AddAllContents(m: map<nat, Request>, rs: seq<Request>)
    requires DistinctIds(rs)
    ensures AddAll(m, rs).Keys == m.Keys + Ids(rs)
    ensures forall r :: r in rs ==> r.id in AddAll(m, rs) && AddAll(m, rs)[r.id] == r
    ensures forall id :: id in m && id !in Ids(rs) ==> AddAll(m, rs)[id] == m[id]
  {
    if rs != [] {
      var init, last := rs[..|rs| - 1], rs[|rs| - 1];
      AddAllContents(m, init);
      assert rs == init + [last];
      assert Ids(rs) == Ids(init) + {last.id};
      assert last.id !in Ids(init);
    }
  }
}
