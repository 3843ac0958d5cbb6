/** Pollers that wait on an empty queue of the local control plane (pkg/localproxy/localproxy.go): every round of
    the poll loop signals, so two parked pollers keep waking each other.
 */
module IdlePolling {
  import opened LocalQueue
  import opened LocalControlPlane

  /** Only pollers that were parked in `s` move. */
  predicate OnlyParked(s: State, more: seq<Event>) {
    forall i :: 0 <= i < |more| ==> more[i].PollOnce? && more[i].poller in s.parked
  }

  ghost predicate AtMostOneParked(s: State) {
    forall p, p' :: p in s.parked && p' in s.parked ==> p == p'
  }

  lemma RunSnoc(es: seq<Event>, more: seq<Event>, e: Event)
    ensures Run(es + (more + [e])) == Apply(Run(es + more), e)
  {
    assert es + (more + [e]) == es + more + [e];
    RunLast(es + more, e);
  }

  lemma RunLast(es: seq<Event>, e: Event)
    ensures Run(es + [e]) == Apply(Run(es), e)
  {
    assert (es + [e])[..|es|] == es;
  }

  /** What a round of a woken poller does when nothing is pending. */
  lemma IdleRound(s: State, p: nat, limit: int)
    requires s.q.pending == [] && p in s.parked && s.parked[p] < s.q.gen
    ensures var t := Apply(s, PollOnce(p, limit));
            && t.q.pending == [] && t.q.gen == s.q.gen + 1 && t.parked == s.parked[p := t.q.gen]
            && t.delivered == s.delivered
  {
  }

  /** Of two parked pollers one holds a closed channel. */
  lemma OneIsAwake(es: seq<Event>) returns (p: nat)
    requires !AtMostOneParked(Run(es))
    ensures p in Run(es).parked && Run(es).parked[p] < Run(es).q.gen
  {
    var s := Run(es);
    NoLostWakeup(es);
    var k, k' :| k in s.parked && k' in s.parked && k != k';
    p := if s.parked[k] < s.q.gen then k else k';
  }

  /** With two pollers parked on an empty queue, one of them is always awake: the two can go round as often as they
      like, each round waking the other, and nothing is ever delivered. */
  lemma {:induction false} PollersSpin(es: seq<Event>, n: nat) returns (more: seq<Event>)
    requires Run(es).q.pending == [] && !AtMostOneParked(Run(es))
    ensures |more| == n && OnlyParked(Run(es), more)
    ensures var s, t := Run(es), Run(es + more);
            && t.q.gen == s.q.gen + n && t.q.pending == [] && t.delivered == s.delivered
            && t.parked.Keys == s.parked.Keys
  {
    var s := Run(es);
    if n == 0 {
      more := [];
      assert es + [] == es;
    } else {
      var init := PollersSpin(es, n - 1);
      var t := Run(es + init);
      assert !AtMostOneParked(t);
      var p := OneIsAwake(es + init);
      IdleRound(t, p, 1);
      RunSnoc(es, init, PollOnce(p, 1));
      more := init + [PollOnce(p, 1)];
    }
  }

  /** A poller alone on an empty queue: woken at most once, then parked on the current channel. */
  ghost predicate Alone(s: State, t: State) {
    && t.q.pending == [] && t.parked.Keys == s.parked.Keys
    && (|| (t.q.gen == s.q.gen && t.parked == s.parked)
        || (t.q.gen == s.q.gen + 1 && forall p :: p in t.parked ==> t.parked[p] == t.q.gen))
  }

  lemma AloneRound(s: State, t: State, e: Event)
    requires AtMostOneParked(s) && Alone(s, t) && e.PollOnce? && e.poller in s.parked
    requires forall p :: p in s.parked ==> s.parked[p] <= s.q.gen
    ensures Alone(s, Apply(t, e))
  {
    if t.parked[e.poller] < t.q.gen {
      IdleRound(t, e.poller, e.limit);
    }
  }

  lemma ParkedBefore(es: seq<Event>)
    ensures forall p :: p in Run(es).parked ==> Run(es).parked[p] <= Run(es).q.gen
  {
    RunKeepsInv(es);
  }

  lemma {:induction false} AloneIsQuiet(es: seq<Event>, more: seq<Event>)
    requires Run(es).q.pending == [] && AtMostOneParked(Run(es)) && OnlyParked(Run(es), more)
    ensures Alone(Run(es), Run(es + more))
  {
    if more == [] {
      assert es + more == es;
    } else {
      var init, e := more[..|more| - 1], more[|more| - 1];
      AloneIsQuiet(es, init);
      ParkedBefore(es);
      RunSnoc(es, init, e);
      assert init + [e] == more;
      AloneRound(Run(es), Run(es + init), e);
    }
  }

  ghost predicate Quiet(es: seq<Event>) {
    forall more :: OnlyParked(Run(es), more) ==> Run(es + more).q.gen <= Run(es).q.gen + 1
  }

  /** In every run that leaves the queue empty, the parked pollers fall silent, after one signal at most, exactly
      when there is at most one of them. */
  lemma IdlePollingIsQuietIff(es: seq<Event>)
    requires Run(es).q.pending == []
    ensures Quiet(es) <==> AtMostOneParked(Run(es))
  {
    if AtMostOneParked(Run(es)) {
      forall more | OnlyParked(Run(es), more) ensures Run(es + more).q.gen <= Run(es).q.gen + 1 {
        AloneIsQuiet(es, more);
      }
    } else {
      var more := PollersSpin(es, 2);
    }
  }

  /** Such a run: two polls before the first request. */
  lemma TwoPollersSpin(n: nat) returns (more: seq<Event>)
    ensures |more| == n && OnlyParked(Run([PollOnce(1, 1), PollOnce(2, 1)]), more)
    ensures Run([PollOnce(1, 1), PollOnce(2, 1)] + more).q.gen == 2 + n
    ensures Run([PollOnce(1, 1), PollOnce(2, 1)] + more).delivered == []
  {
    var es, one: seq<Event> := [PollOnce(1, 1), PollOnce(2, 1)], [PollOnce(1, 1)];
    assert es[..1] == one && one[..0] == [];
    var s := Run(one);
    assert s == Apply(INIT, PollOnce(1, 1));
    assert Run(es) == Apply(s, PollOnce(2, 1));
    assert 1 in Run(es).parked && 2 in Run(es).parked;
    more := PollersSpin(es, n);
  }
}
