/** The buffered response channel of one local request (pkg/localproxy/localproxy.go): posters admitted
    by handleResponse send after the mutex is released, one channel operation at a time, while the
    ingress handler receives.
 */
module ResponseChannel {

  const CAPACITY := 16

  /** A response payload; only the terminal response is `final`. */
  datatype Msg = Msg(final: bool, body: string)

  /** Where a poster stands: the first send, the eviction after it found a full buffer, the second send. */
  datatype Phase = First | Evicting | Retrying

  /** `disturbed`: some other poster's message entered the buffer after this one's eviction. */
  datatype Sending = Sending(msg: Msg, phase: Phase, disturbed: bool)

  /** What became of the final response. */
  datatype Outcome = NotPosted | InTransit(poster: nat) | Buffered | Lost

  /** The channel, the posters between the mutex and their last send, and the history of both. */
  datatype Channel = Channel(
    buf: seq<Msg>,
    sending: map<nat, Sending>,
    posted: seq<Msg>,     // admitted, in the order of the critical sections
    entered: seq<Msg>,    // put into the buffer, in order
    popped: seq<Msg>,     // taken out of the buffer, received or evicted, in order
    received: seq<Msg>,   // taken out by the caller
    evicted: seq<Msg>,
    dropped: seq<Msg>,    // admitted, and given up because the buffer was full
    outcome: Outcome,
    overlapped: bool)     // some post was admitted while another one was still sending

  const FRESH := Channel([], map[], [], [], [], [], [], [], NotPosted, false)

  // ----- Steps ----------------------------------------------------------------------------------

  function Admit(c: Channel, p: nat, m: Msg): Channel
    requires p !in c.sending
  {
    c.(sending := c.sending[p := Sending(m, First, false)],
       posted := c.posted + [m],
       outcome := if m.final then InTransit(p) else c.outcome,
       overlapped := c.overlapped || c.sending != map[])
  }

  function Disturb(s: Sending): Sending {
    if s.phase == Retrying then s.(disturbed := true) else s
  }

  function Enter(c: Channel, p: nat): Channel
    requires p in c.sending
  {
    var m := c.sending[p].msg;
    c.(buf := c.buf + [m],
       entered := c.entered + [m],
       sending := map q | q in c.sending && q != p :: Disturb(c.sending[q]),
       outcome := if m.final then Buffered else c.outcome)
  }

  function Drop(c: Channel, p: nat): Channel
    requires p in c.sending
  {
    c.(sending := c.sending - {p},
       dropped := c.dropped + [c.sending[p].msg],
       outcome := if c.sending[p].msg.final then Lost else c.outcome)
  }

  function Advance(c: Channel, p: nat, phase: Phase): Channel
    requires p in c.sending
  {
    c.(sending := c.sending[p := c.sending[p].(phase := phase)])
  }

  /** The eviction takes the oldest message out of the buffer, if there is one. */
  function Evict(c: Channel): Channel {
    if c.buf == [] then c
    else c.(buf := c.buf[1..], popped := c.popped + [c.buf[0]], evicted := c.evicted + [c.buf[0]])
  }

  /** One channel operation of poster `p`. */
  function Step(c: Channel, p: nat): Channel {
    if p !in c.sending then c
    else match c.sending[p].phase
      case First =>
        if |c.buf| < CAPACITY then Enter(c, p)
        else if c.sending[p].msg.final then Advance(c, p, Evicting)
        else Drop(c, p)
      case Evicting => Advance(Evict(c), p, Retrying)
      case Retrying =>
        if |c.buf| < CAPACITY then Enter(c, p) else Drop(c, p)
  }

  /** The caller's receive in handleMCP, handleOAuthProtectedResource and renderMCPEventStream. */
  function Receive(c: Channel): Channel {
    if c.buf == [] then c
    else c.(buf := c.buf[1..], popped := c.popped + [c.buf[0]], received := c.received + [c.buf[0]])
  }

  // ----- Subsequences ---------------------------------------------------------------------------

  /** `a` can be obtained from `b` by deleting elements. */
  ghost predicate Subsequence<T>(a: seq<T>, b: seq<T>) {
    if b == [] then a == []
    else
      || Subsequence(a, b[..|b| - 1])
      || (a != [] && a[|a| - 1] == b[|b| - 1] && Subsequence(a[..|a| - 1], b[..|b| - 1]))
  }

  lemma {:induction false} SubsequenceSnoc<T>(a: seq<T>, b: seq<T>, x: T)
    requires Subsequence(a, b)
    ensures Subsequence(a, b + [x])
    ensures Subsequence(a + [x], b + [x])
  {
    assert (b + [x])[..|b|] == b && (a + [x])[..|a|] == a;
  }

  lemma {:induction false} SubsequenceAppend<T>(a: seq<T>, b: seq<T>, tail: seq<T>)
    requires Subsequence(a, b)
    ensures Subsequence(a + tail, b + tail)
  {
    if tail == [] {
      assert a + tail == a && b + tail == b;
    } else {
      var init, last := tail[..|tail| - 1], tail[|tail| - 1];
      SubsequenceAppend(a, b, init);
      SubsequenceSnoc(a + init, b + init, last);
      assert a + tail == a + init + [last] && b + tail == b + init + [last];
    }
  }

  lemma {:induction false} SubsequenceTrans<T>(a: seq<T>, b: seq<T>, c: seq<T>)
    requires Subsequence(a, b) && Subsequence(b, c)
    ensures Subsequence(a, c)
    decreases |b| + |c|
  {
    if c != [] {
      if Subsequence(b, c[..|c| - 1]) {
        SubsequenceTrans(a, b, c[..|c| - 1]);
      } else if Subsequence(a, b[..|b| - 1]) {
        SubsequenceTrans(a, b[..|b| - 1], c[..|c| - 1]);
      } else {
        SubsequenceTrans(a[..|a| - 1], b[..|b| - 1], c[..|c| - 1]);
      }
    }
  }

  /** `c` is `a` and `b`, merged: both in order and nothing else. */
  ghost predicate Merges<T>(c: seq<T>, a: seq<T>, b: seq<T>) {
    if c == [] then a == [] && b == []
    else
      var init, last := c[..|c| - 1], c[|c| - 1];
      || (a != [] && a[|a| - 1] == last && Merges(init, a[..|a| - 1], b))
      || (b != [] && b[|b| - 1] == last && Merges(init, a, b[..|b| - 1]))
  }

  lemma MergesSnoc<T>(c: seq<T>, a: seq<T>, b: seq<T>, x: T)
    requires Merges(c, a, b)
    ensures Merges(c + [x], a + [x], b) && Merges(c + [x], a, b + [x])
  {
    assert (c + [x])[..|c|] == c && (a + [x])[..|a|] == a && (b + [x])[..|b|] == b;
  }

  /** What a merge says without naming the order. */
  lemma {:induction false} MergesMeans<T>(c: seq<T>, a: seq<T>, b: seq<T>)
    requires Merges(c, a, b)
    ensures |c| == |a| + |b| && multiset(c) == multiset(a) + multiset(b)
    ensures Subsequence(a, c) && (b == [] ==> a == c)
  {
    if c != [] {
      var init, last := c[..|c| - 1], c[|c| - 1];
      assert c == init + [last];
      if a != [] && a[|a| - 1] == last && Merges(init, a[..|a| - 1], b) {
        assert a == a[..|a| - 1] + [last];
        MergesMeans(init, a[..|a| - 1], b);
      } else {
        assert b == b[..|b| - 1] + [last];
        MergesMeans(init, a, b[..|b| - 1]);
      }
    }
  }

  // ----- Invariant ------------------------------------------------------------------------------

  ghost predicate NoFinal(ms: seq<Msg>) {
    forall i :: 0 <= i < |ms| ==> !ms[i].final
  }

  function Last<T>(s: seq<T>): T
    requires s != []
  {
    s[|s| - 1]
  }

  /** Messages flow through the buffer in order: what leaves it is received or evicted, only notifications are
      evicted, and what was admitted has entered, was dropped, or is still being sent. */
  ghost predicate Flow(c: Channel) {
    && |c.buf| <= CAPACITY
    && c.entered == c.popped + c.buf
    && Merges(c.popped, c.received, c.evicted)
    && NoFinal(c.evicted)
    && |c.posted| == |c.entered| + |c.dropped| + |c.sending|
  }

  /** At most one final response exists, and `outcome` says where it is. */
  ghost predicate OneFinal(c: Channel) {
    && (forall p :: p in c.sending && c.sending[p].msg.final ==> c.outcome == InTransit(p))
    && (forall p :: p in c.sending && c.sending[p].phase != First ==> c.sending[p].msg.final)
    && (c.outcome.InTransit? ==>
          c.outcome.poster in c.sending && c.sending[c.outcome.poster].msg.final)
    && (c.outcome != Buffered ==> NoFinal(c.entered))
    && (c.outcome == NotPosted ==> NoFinal(c.posted))
  }

  /** A retry that nobody disturbed finds room; disturbance and loss both need overlapping posts. */
  ghost predicate RoomToRetry(c: Channel) {
    && (forall p :: p in c.sending && c.sending[p].phase == Retrying && !c.sending[p].disturbed ==> |c.buf| < CAPACITY)
    && (forall p :: p in c.sending && c.sending[p].disturbed ==> c.overlapped)
    && (c.outcome == Lost ==> c.overlapped)
  }

  /** What holds as long as posts have come one at a time. */
  ghost predicate OneAtATime(c: Channel) {
    && (forall p, q :: p in c.sending && q in c.sending ==> p == q)
    && (c.sending == map[] ==> Merges(c.posted, c.entered, c.dropped))
    && (forall p :: p in c.sending ==>
          && c.posted != [] && Last(c.posted) == c.sending[p].msg
          && Merges(c.posted[..|c.posted| - 1], c.entered, c.dropped))
    && (c.outcome == Buffered ==>
          && c.sending == map[]
          && (if c.buf != [] then Last(c.buf).final else c.received != [] && Last(c.received).final))
  }

  ghost predicate Valid(c: Channel) {
    && Flow(c) && OneFinal(c) && RoomToRetry(c)
    && (!c.overlapped ==> OneAtATime(c))
  }

  lemma FreshValid()
    ensures Valid(FRESH)
  {
  }

  /** The queue admits a post only while no final response has been admitted. */
  lemma AdmitKeepsValid(c: Channel, p: nat, m: Msg)
    requires Valid(c) && p !in c.sending && c.outcome == NotPosted
    ensures Valid(Admit(c, p, m))
  {
    var d := Admit(c, p, m);
    assert d.posted[..|d.posted| - 1] == c.posted;
    OneMoreSender(c.sending, p, Sending(m, First, false));
  }

  lemma OneMoreSender(sending: map<nat, Sending>, p: nat, s: Sending)
    requires p !in sending
    ensures |sending[p := s]| == |sending| + 1
  {
    assert sending[p := s].Keys == sending.Keys + {p};
    assert |sending[p := s].Keys| == |sending.Keys| + 1;
  }

  lemma OneSenderLess(sending: map<nat, Sending>, sending': map<nat, Sending>, p: nat)
    requires p in sending && sending'.Keys == sending.Keys - {p}
    ensures |sending'| == |sending| - 1
  {
    assert |sending'.Keys| == |sending.Keys| - 1;
  }

  lemma EnterKeepsFlow(c: Channel, p: nat)
    requires Flow(c) && p in c.sending && |c.buf| < CAPACITY
    ensures Flow(Enter(c, p))
  {
    var m := c.sending[p].msg;
    assert c.popped + c.buf + [m] == c.popped + (c.buf + [m]);
    OneSenderLess(c.sending, Enter(c, p).sending, p);
  }

  lemma EnterKeepsFinal(c: Channel, p: nat)
    requires OneFinal(c) && p in c.sending
    ensures OneFinal(Enter(c, p))
  {
  }

  lemma EnterKeepsRoom(c: Channel, p: nat)
    requires RoomToRetry(c) && p in c.sending && (!c.overlapped ==> forall q :: q in c.sending ==> q == p)
    ensures RoomToRetry(Enter(c, p))
  {
  }

  /** With posts one at a time, the one that ends leaves nobody sending. */
  lemma NobodyElse(c: Channel, p: nat)
    requires OneAtATime(c) && p in c.sending
    ensures Enter(c, p).sending == map[] && Drop(c, p).sending == map[]
  {
  }

  lemma PostedMerges(c: Channel, p: nat)
    requires OneAtATime(c) && p in c.sending
    ensures var m := c.sending[p].msg;
            Merges(c.posted, c.entered + [m], c.dropped) && Merges(c.posted, c.entered, c.dropped + [m])
  {
    var init, m := c.posted[..|c.posted| - 1], c.sending[p].msg;
    MergesSnoc(init, c.entered, c.dropped, m);
    assert c.posted == init + [m];
  }

  lemma EnterKeepsOneAtATime(c: Channel, p: nat)
    requires OneAtATime(c) && OneFinal(c) && p in c.sending
    ensures OneAtATime(Enter(c, p))
  {
    NobodyElse(c, p);
    PostedMerges(c, p);
    assert Last(c.buf + [c.sending[p].msg]) == c.sending[p].msg;
  }

  lemma EnterKeepsValid(c: Channel, p: nat)
    requires Valid(c) && p in c.sending && |c.buf| < CAPACITY
    ensures Valid(Enter(c, p))
  {
    EnterKeepsFlow(c, p);
    EnterKeepsFinal(c, p);
    EnterKeepsRoom(c, p);
    if !c.overlapped {
      EnterKeepsOneAtATime(c, p);
    }
  }

  lemma DropKeepsFlow(c: Channel, p: nat)
    requires Flow(c) && p in c.sending
    ensures Flow(Drop(c, p))
  {
    OneSenderLess(c.sending, Drop(c, p).sending, p);
  }

  lemma DropKeepsFinal(c: Channel, p: nat)
    requires OneFinal(c) && p in c.sending
    ensures OneFinal(Drop(c, p))
  {
  }

  lemma DropKeepsRoom(c: Channel, p: nat)
    requires RoomToRetry(c) && p in c.sending && (c.sending[p].msg.final ==> c.sending[p].disturbed)
    ensures RoomToRetry(Drop(c, p))
  {
  }

  lemma DropKeepsOneAtATime(c: Channel, p: nat)
    requires OneAtATime(c) && p in c.sending
    ensures OneAtATime(Drop(c, p))
  {
    NobodyElse(c, p);
    PostedMerges(c, p);
  }

  lemma DropKeepsValid(c: Channel, p: nat)
    requires Valid(c) && p in c.sending
    requires c.sending[p].msg.final ==> c.sending[p].disturbed
    ensures Valid(Drop(c, p))
  {
    DropKeepsFlow(c, p);
    DropKeepsFinal(c, p);
    DropKeepsRoom(c, p);
    if !c.overlapped {
      DropKeepsOneAtATime(c, p);
    }
  }

  lemma EvictKeepsFlow(c: Channel)
    requires Flow(c) && (c.buf != [] ==> !c.buf[0].final)
    ensures Flow(Evict(c))
  {
    if c.buf != [] {
      assert c.buf == [c.buf[0]] + c.buf[1..];
      assert c.popped + [c.buf[0]] + c.buf[1..] == c.popped + c.buf;
      MergesSnoc(c.popped, c.received, c.evicted, c.buf[0]);
    }
  }

  lemma SameSenders(c: Channel, p: nat, phase: Phase)
    requires p in c.sending
    ensures |Advance(c, p, phase).sending| == |c.sending|
  {
    assert Advance(c, p, phase).sending.Keys == c.sending.Keys;
    assert |Advance(c, p, phase).sending.Keys| == |c.sending.Keys|;
  }

  lemma OldestIsNotification(c: Channel, p: nat)
    requires Flow(c) && OneFinal(c) && p in c.sending && c.sending[p].phase == Evicting && c.buf != []
    ensures !c.buf[0].final
  {
    assert c.entered[|c.popped|] == c.buf[0];
  }

  lemma AdvanceKeepsFinal(c: Channel, p: nat)
    requires OneFinal(c) && p in c.sending && c.sending[p].phase == Evicting
    ensures OneFinal(Advance(Evict(c), p, Retrying))
  {
  }

  lemma AdvanceKeepsRoom(c: Channel, p: nat)
    requires |c.buf| <= CAPACITY && RoomToRetry(c) && p in c.sending
    ensures RoomToRetry(Advance(Evict(c), p, Retrying))
  {
  }

  lemma AdvanceKeepsOneAtATime(c: Channel, p: nat)
    requires OneAtATime(c) && p in c.sending
    ensures OneAtATime(Advance(Evict(c), p, Retrying))
  {
  }

  lemma EvictKeepsValid(c: Channel, p: nat)
    requires Valid(c) && p in c.sending && c.sending[p].phase == Evicting
    ensures Valid(Advance(Evict(c), p, Retrying))
  {
    if c.buf != [] {
      OldestIsNotification(c, p);
    }
    EvictKeepsFlow(c);
    SameSenders(Evict(c), p, Retrying);
    AdvanceKeepsFinal(c, p);
    AdvanceKeepsRoom(c, p);
    if !c.overlapped {
      AdvanceKeepsOneAtATime(c, p);
    }
  }

  lemma StepKeepsValid(c: Channel, p: nat)
    requires Valid(c)
    ensures Valid(Step(c, p))
  {
    if p in c.sending {
      match c.sending[p].phase
      case First =>
        if |c.buf| < CAPACITY { EnterKeepsValid(c, p); }
        else if c.sending[p].msg.final { SameSenders(c, p, Evicting); }
        else { DropKeepsValid(c, p); }
      case Evicting => EvictKeepsValid(c, p);
      case Retrying =>
        if |c.buf| < CAPACITY { EnterKeepsValid(c, p); } else { DropKeepsValid(c, p); }
    }
  }

  lemma ReceiveKeepsFlow(c: Channel)
    requires Flow(c)
    ensures Flow(Receive(c))
  {
    if c.buf != [] {
      assert c.buf == [c.buf[0]] + c.buf[1..];
      assert c.popped + [c.buf[0]] + c.buf[1..] == c.popped + c.buf;
      MergesSnoc(c.popped, c.received, c.evicted, c.buf[0]);
    }
  }

  lemma ReceiveKeepsOneAtATime(c: Channel)
    requires OneAtATime(c)
    ensures OneAtATime(Receive(c))
  {
    if c.buf != [] {
      assert Last(c.received + [c.buf[0]]) == c.buf[0];
    }
  }

  lemma ReceiveKeepsRest(c: Channel)
    requires OneFinal(c) && RoomToRetry(c)
    ensures OneFinal(Receive(c)) && RoomToRetry(Receive(c))
  {
  }

  lemma ReceiveKeepsValid(c: Channel)
    requires Valid(c)
    ensures Valid(Receive(c))
  {
    ReceiveKeepsFlow(c);
    ReceiveKeepsRest(c);
    if !c.overlapped {
      ReceiveKeepsOneAtATime(c);
    }
  }

  // ----- What a valid channel promises ----------------------------------------------------------

  lemma ReceivedHasEntered(c: Channel)
    requires Flow(c)
    ensures Subsequence(c.received + c.buf, c.entered)
  {
    MergesMeans(c.popped, c.received, c.evicted);
    SubsequenceAppend(c.received, c.popped, c.buf);
  }

  lemma EnteredWasPosted(c: Channel)
    requires OneAtATime(c)
    ensures Subsequence(c.entered, c.posted)
  {
    if c.sending == map[] {
      MergesMeans(c.posted, c.entered, c.dropped);
    } else {
      var p :| p in c.sending;
      var init := c.posted[..|c.posted| - 1];
      MergesMeans(init, c.entered, c.dropped);
      SubsequenceSnoc(c.entered, init, Last(c.posted));
      assert c.posted == init + [Last(c.posted)];
    }
  }

  /** With posts one at a time, received plus buffered messages are posts in their order. */
  lemma InOrder(c: Channel)
    requires Valid(c) && !c.overlapped
    ensures Subsequence(c.received + c.buf, c.posted)
  {
    ReceivedHasEntered(c);
    EnteredWasPosted(c);
    SubsequenceTrans(c.received + c.buf, c.entered, c.posted);
  }

  // ----- Exactly when the final response can be lost --------------------------------------------

  /** What can still happen once the final response is admitted: the queue admits nothing more. */
  datatype Op = Send(poster: nat) | Take

  ghost function RunOps(c: Channel, ops: seq<Op>): Channel
    decreases |ops|
  {
    if ops == [] then c
    else RunOps(if ops[0].Send? then Step(c, ops[0].poster) else Receive(c), ops[1..])
  }

  /** The final response of poster `p` is still on its way, or buffered, and nothing can displace it:
      there is room for every message that may yet be sent. */
  ghost predicate Protected(c: Channel, p: nat) {
    && Valid(c)
    && (c.outcome == InTransit(p) || c.outcome == Buffered)
    && (c.outcome == InTransit(p) ==>
          match c.sending[p].phase
          case First => |c.buf| + |c.sending| <= CAPACITY + 1
          case Evicting => |c.sending| == 1
          case Retrying => |c.sending| == 1 && |c.buf| < CAPACITY)
  }

  /** How many are still sending after one step of q: one fewer if q is done, otherwise as many. */
  lemma SendersAfterStep(c: Channel, q: nat)
    requires q in c.sending
    ensures var d := Step(c, q); |d.sending| == if q in d.sending then |c.sending| else |c.sending| - 1
    ensures var d := Step(c, q);
            forall p :: p in c.sending && p != q ==> p in d.sending && d.sending[p].phase == c.sending[p].phase
  {
    var d := Step(c, q);
    if q in d.sending {
      assert d.sending.Keys == c.sending.Keys;
      assert |d.sending.Keys| == |c.sending.Keys|;
    } else {
      assert d.sending.Keys == c.sending.Keys - {q};
      assert |d.sending.Keys| == |c.sending.Keys| - 1;
    }
  }

  lemma OtherKeepsProtected(c: Channel, p: nat, q: nat)
    requires Protected(c, p) && q in c.sending && q != p && c.outcome == InTransit(p)
    ensures Protected(Step(c, q), p)
  {
    StepKeepsValid(c, q);
    SendersAfterStep(c, q);
    OnlyOne(c.sending, p, q);
    assert c.sending[q].phase == First && !c.sending[q].msg.final;
  }

  lemma OwnKeepsProtected(c: Channel, p: nat)
    requires Protected(c, p) && c.outcome == InTransit(p)
    ensures Protected(Step(c, p), p)
  {
    StepKeepsValid(c, p);
    SendersAfterStep(c, p);
  }

  lemma SendKeepsProtected(c: Channel, p: nat, q: nat)
    requires Protected(c, p)
    ensures Protected(Step(c, q), p)
  {
    if q in c.sending && c.outcome == InTransit(p) {
      if q == p {
        OwnKeepsProtected(c, p);
      } else {
        OtherKeepsProtected(c, p, q);
      }
    } else {
      StepKeepsValid(c, q);
    }
  }

  lemma OnlyOne(m: map<nat, Sending>, p: nat, q: nat)
    requires p in m && q in m && p != q
    ensures |m| > 1
  {
    assert p in m.Keys && q in m.Keys - {p};
    assert |m.Keys - {p}| == |m.Keys| - 1;
  }

  lemma {:induction false} ProtectedForever(c: Channel, p: nat, ops: seq<Op>)
    requires Protected(c, p)
    ensures Protected(RunOps(c, ops), p)
    decreases |ops|
  {
    if ops != [] {
      if ops[0].Send? {
        SendKeepsProtected(c, p, ops[0].poster);
        ProtectedForever(Step(c, ops[0].poster), p, ops[1..]);
      } else {
        ReceiveKeepsValid(c);
        ProtectedForever(Receive(c), p, ops[1..]);
      }
    }
  }

  lemma RunFour(c: Channel, p: nat, q: nat)
    ensures RunOps(c, [Send(p), Send(p), Send(q), Send(p)]) == Step(Step(Step(Step(c, p), p), q), p)
  {
    var ops := [Send(p), Send(p), Send(q), Send(p)];
    assert ops[1..] == [Send(p), Send(q), Send(p)] && ops[1..][1..] == [Send(q), Send(p)];
    assert ops[1..][1..][1..] == [Send(p)] && ops[1..][1..][1..][1..] == [];
    var c3 := Step(Step(Step(c, p), p), q);
    assert RunOps(c3, [Send(p)]) == Step(c3, p);
    assert RunOps(Step(Step(c, p), p), [Send(q), Send(p)]) == Step(c3, p);
  }

  /** A notification that finds room leaves the crowd as large as it was. */
  lemma OneMoreEnters(c: Channel, p: nat, q: nat)
    requires Valid(c) && c.outcome == InTransit(p) && c.sending[p].phase == First
    requires |c.buf| < CAPACITY && q in c.sending && q != p
    ensures var d := Step(c, q);
            && Valid(d) && d.outcome == InTransit(p) && p in d.sending && d.sending[p].phase == First
            && |d.buf| == |c.buf| + 1 && |d.sending| == |c.sending| - 1
  {
    var d := Step(c, q);
    StepKeepsValid(c, q);
    assert d.sending.Keys == c.sending.Keys - {q};
    assert |d.sending.Keys| == |c.sending.Keys| - 1;
  }

  /** With more pending messages than room, this schedule loses the final response: the others fill the
      buffer, the final response evicts one of them, and one more takes the freed slot. */
  lemma {:induction false} LosingSchedule(c: Channel, p: nat) returns (ops: seq<Op>)
    requires Valid(c) && c.outcome == InTransit(p) && c.sending[p].phase == First
    requires |c.buf| + |c.sending| > CAPACITY + 1
    ensures RunOps(c, ops).outcome == Lost
    decreases CAPACITY - |c.buf|
  {
    assert p in c.sending.Keys;
    assert |c.sending.Keys - {p}| == |c.sending.Keys| - 1;
    var q :| q in c.sending.Keys - {p};
    if |c.buf| < CAPACITY {
      OneMoreEnters(c, p, q);
      var rest := LosingSchedule(Step(c, q), p);
      ops := [Send(q)] + rest;
      assert ops[1..] == rest;
    } else {
      LosesWhenFull(c, p, q);
      RunFour(c, p, q);
      ops := [Send(p), Send(p), Send(q), Send(p)];
    }
  }

  lemma LosesWhenFull(c: Channel, p: nat, q: nat)
    requires Valid(c) && c.outcome == InTransit(p) && c.sending[p].phase == First
    requires |c.buf| == CAPACITY && q in c.sending && q != p
    ensures Step(Step(Step(Step(c, p), p), q), p).outcome == Lost
  {
    var afterFirst := Step(c, p);
    var afterEvict := Step(afterFirst, p);
    assert |afterEvict.buf| == CAPACITY - 1 && afterEvict.sending[q] == c.sending[q];
    var afterOther := Step(afterEvict, q);
    assert |afterOther.buf| == CAPACITY && afterOther.sending[p].phase == Retrying;
  }

  /** Exactly when some continuation drops the final response that `p` has just been admitted with:
      when the buffered messages and the other posters still sending outnumber the slots. */
  lemma FinalCanBeLostIff(c: Channel, p: nat)
    requires Valid(c) && c.outcome == InTransit(p) && c.sending[p].phase == First
    ensures (exists ops :: RunOps(c, ops).outcome == Lost) <==> |c.buf| + |c.sending| - 1 > CAPACITY
  {
    if |c.buf| + |c.sending| - 1 > CAPACITY {
      var ops := LosingSchedule(c, p);
    } else {
      forall ops ensures RunOps(c, ops).outcome != Lost {
        ProtectedForever(c, p, ops);
      }
    }
  }

  // ----- An overlapping run that loses it -------------------------------------------------------

  /** `n` notifications posted and sent one after another on a fresh channel. */
  ghost function Filled(n: nat): (c: Channel)
    ensures c.sending == map[]
  {
    if n == 0 then FRESH else Step(Admit(Filled(n - 1), n, Msg(false, "")), n)
  }

  lemma NotificationEnters(c: Channel, p: nat, m: Msg)
    requires c.sending == map[] && |c.buf| < CAPACITY && c.outcome == NotPosted && !m.final
    ensures var d := Step(Admit(c, p, m), p); |d.buf| == |c.buf| + 1 && d.outcome == NotPosted && d.sending == map[]
  {
  }

  /** A channel with n unread notifications and nothing under way. */
  ghost predicate Unread(c: Channel, n: nat) {
    Valid(c) && |c.buf| == n && c.sending == map[] && c.outcome == NotPosted
  }

  lemma OneMoreUnread(c: Channel, n: nat, p: nat, m: Msg)
    requires Unread(c, n) && n < CAPACITY && !m.final
    ensures Unread(Step(Admit(c, p, m), p), n + 1)
  {
    AdmitKeepsValid(c, p, m);
    StepKeepsValid(Admit(c, p, m), p);
    NotificationEnters(c, p, m);
  }

  lemma NoneUnread()
    ensures Unread(FRESH, 0)
  {
    FreshValid();
  }

  lemma {:induction false} FilledUnread(n: nat)
    requires n <= CAPACITY
    ensures Unread(Filled(n), n)
  {
    if n == 0 {
      NoneUnread();
    } else {
      FilledUnread(n - 1);
      OneMoreUnread(Filled(n - 1), n - 1, n, Msg(false, ""));
    }
  }

  /** A full buffer, one more notification whose sender is delayed, and the final response: the
      response can be lost, although it was admitted and is the only final response. */
  lemma OverlapLosesFinal(full: Channel)
    requires Valid(full) && |full.buf| == CAPACITY && full.sending == map[] && full.outcome == NotPosted
    ensures exists ops ::
              RunOps(Admit(Admit(full, 0, Msg(false, "late")), 1, Msg(true, "done")), ops).outcome == Lost
  {
    var c1 := Admit(full, 0, Msg(false, "late"));
    AdmitKeepsValid(full, 0, Msg(false, "late"));
    AdmitKeepsValid(c1, 1, Msg(true, "done"));
    var c := Admit(c1, 1, Msg(true, "done"));
    assert c.sending.Keys == {0, 1};
    assert |c.sending.Keys| == 2;
    FinalCanBeLostIff(c, 1);
  }

  /** Such a channel exists: sixteen unread notifications produce it. */
  lemma FullChannelExists() returns (full: Channel)
    ensures full == Filled(CAPACITY)
    ensures Valid(full) && |full.buf| == CAPACITY && full.sending == map[] && full.outcome == NotPosted
  {
    FilledUnread(CAPACITY);
    full := Filled(CAPACITY);
  }
}
