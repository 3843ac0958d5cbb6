/** Progress of startups in the Codex app-server bridge (pkg/codexappserver/bridge.go): how far a startup goroutine
    is from closing its channel, and why that distance always can and never fails to go down.
 */
module BridgeProgress {
  import opened Bridge

  /** Steps from a live child to a closed waitDone. */
  function ChildDistance(l: Life, c: nat): nat {
    if c in l.reaped then 0 else if c in l.exiting then 1 else if c !in l.live then 2 else 3
  }

  /** Steps that are left until the startup channel of `g` is closed, at most. */
  function Distance(l: Life, g: nat): nat {
    if g !in l.starters then 0
    else match l.starters[g]
      case Begin => 8
      case Initializing(_) => 7
      case AwaitingExit(c) => 3 + ChildDistance(l, c)
      case Failing => 2
      case Finishing => 2
      case Closing => 1
  }

  /** The steps that `g` can take itself, whatever their outcome; while it waits for an exit, the step of the
      exit watcher, or the death of the killed child. */
  predicate MovesOn(l: Life, g: nat, e: LifeEvent) {
    g in l.starters &&
    match l.starters[g]
    case Begin => e == PipeFails(g) || (e.Launch? && e.g == g)
    case Initializing(_) => e.InitDone? && e.g == g
    case AwaitingExit(c) =>
      if c in l.reaped then e == SeesExit(g)
      else if c in l.exiting then e == CloseWait(c)
      else if c !in l.live then e == ExitSection(c)
      else e == ChildDies(c)
    case Failing => e == RecordStart(g)
    case Finishing => e == RecordStart(g)
    case Closing => e == CloseStartup(g)
  }

  lemma EnsureKeepsStarters(l: Life, caller: nat, delayOver: bool, g: nat)
    requires LifeInv(l) && g in l.starters
    ensures Distance(EnsureOnce(l, caller, delayOver), g) == Distance(l, g)
    ensures g in EnsureOnce(l, caller, delayOver).starters
  {
  }

  lemma LaunchIsCloser(l: Life, h: nat, ok: bool, g: nat)
    requires LifeInv(l) && g in l.starters
    ensures Distance(LaunchChild(l, h, ok), g) <= Distance(l, g)
    ensures g in LaunchChild(l, h, ok).starters
  {
  }

  lemma ExitIsCloser(l: Life, c: nat, g: nat)
    requires LifeInv(l) && g in l.starters
    ensures Distance(ExitChild(l, c), g) <= Distance(l, g)
    ensures g in ExitChild(l, c).starters
  {
  }

  lemma RecordIsCloser(l: Life, h: nat, g: nat)
    requires LifeInv(l) && g in l.starters
    ensures Distance(RecordOutcome(l, h), g) <= Distance(l, g)
    ensures g in RecordOutcome(l, h).starters
  {
  }

  /** No event of anyone sets a startup goroutine back, and it ends only by closing its channel. */
  lemma NeverFartherAway(l: Life, e: LifeEvent, g: nat)
    requires LifeInv(l) && g in l.starters
    ensures Distance(ApplyLife(l, e), g) <= Distance(l, g)
    ensures g in ApplyLife(l, e).starters || g in ApplyLife(l, e).startClosed
  {
    match e
    case EnsureStarted(k, d) => EnsureKeepsStarters(l, k, d, g);
    case Launch(h, ok) => LaunchIsCloser(l, h, ok, g);
    case ExitSection(c) => ExitIsCloser(l, c, g);
    case RecordStart(h) => RecordIsCloser(l, h, g);
    case _ =>
  }

  lemma MoveIsCloser(l: Life, e: LifeEvent, g: nat)
    requires LifeInv(l) && MovesOn(l, g, e)
    ensures Distance(ApplyLife(l, e), g) < Distance(l, g)
  {
  }

  /** A startup goroutine is never stuck: an unreaped child still has the watcher that it waits for. */
  lemma SomeoneMovesOn(l: Life, g: nat) returns (e: LifeEvent)
    requires LifeInv(l) && g in l.starters
    ensures MovesOn(l, g, e) && ApplyLife(l, e) != l
  {
    e := match l.starters[g]
    case Begin => PipeFails(g)
    case Initializing(_) => InitDone(g, false)
    case AwaitingExit(c) =>
      if c in l.reaped then SeesExit(g)
      else if c in l.exiting then CloseWait(c)
      else if c !in l.live then ExitSection(c)
      else ChildDies(c)
    case Failing => RecordStart(g)
    case Finishing => RecordStart(g)
    case Closing => CloseStartup(g);
    MoveIsCloser(l, e, g);
  }

  /** How many of the events after `es` moved `g` on. */
  function Moves(es: seq<Event>, more: seq<Event>, g: nat): nat {
    if more == [] then 0
    else
      var init, e := more[..|more| - 1], more[|more| - 1];
      Moves(es, init, g) + if e.OfLife? && MovesOn(Run(es + init).life, g, e.l) then 1 else 0
  }

  /** The startup channel of `g` is closed, or its goroutine is still there. */
  predicate Tracked(l: Life, g: nat) {
    g <= l.startups && (g in l.starters || g in l.startClosed)
  }

  predicate Ended(l: Life, g: nat) {
    g <= l.startups && g in l.startClosed && g !in l.starters
  }

  lemma EnsureKeepsEnded(l: Life, k: nat, delayOver: bool, g: nat)
    requires Ended(l, g)
    ensures Ended(EnsureOnce(l, k, delayOver), g)
  {
  }

  lemma LaunchKeepsEnded(l: Life, h: nat, ok: bool, g: nat)
    requires Ended(l, g)
    ensures Ended(LaunchChild(l, h, ok), g)
  {
    if At(l, h, Begin) {
      assert h != g;
    }
  }

  lemma ExitKeepsEnded(l: Life, c: nat, g: nat)
    requires Ended(l, g)
    ensures Ended(ExitChild(l, c), g)
  {
  }

  lemma RecordKeepsEnded(l: Life, h: nat, g: nat)
    requires Ended(l, g)
    ensures Ended(RecordOutcome(l, h), g)
  {
    if h in l.starters {
      assert h != g;
    }
  }

  /** A closed channel stays closed, and a goroutine that is gone does not come back under its number. */
  lemma StaysEnded(l: Life, e: LifeEvent, g: nat)
    requires Ended(l, g)
    ensures Ended(ApplyLife(l, e), g)
  {
    match e
    case EnsureStarted(k, d) => EnsureKeepsEnded(l, k, d, g);
    case Launch(h, ok) => LaunchKeepsEnded(l, h, ok, g);
    case ExitSection(c) => ExitKeepsEnded(l, c, g);
    case RecordStart(h) => RecordKeepsEnded(l, h, g);
    case _ =>
  }

  lemma StartupsGrow(l: Life, e: LifeEvent)
    ensures l.startups <= ApplyLife(l, e).startups
  {
    match e
    case EnsureStarted(k, d) => assert EnsureOnce(l, k, d).startups >= l.startups;
    case Launch(h, ok) => assert LaunchChild(l, h, ok).startups == l.startups;
    case ExitSection(c) => assert ExitChild(l, c).startups == l.startups;
    case RecordStart(h) => assert RecordOutcome(l, h).startups == l.startups;
    case _ =>
  }

  lemma LifeMoves(l: Life, e: LifeEvent, g: nat)
    requires LifeInv(l) && Tracked(l, g)
    ensures Tracked(ApplyLife(l, e), g)
    ensures Distance(ApplyLife(l, e), g) + (if MovesOn(l, g, e) then 1 else 0) <= Distance(l, g)
  {
    if g in l.starters {
      StartupsGrow(l, e);
      NeverFartherAway(l, e, g);
      if MovesOn(l, g, e) {
        MoveIsCloser(l, e, g);
      }
    } else {
      StaysEnded(l, e, g);
    }
  }

  lemma RunLast(es: seq<Event>, more: seq<Event>)
    requires more != []
    ensures Run(es + more) == Apply(Run(es + more[..|more| - 1]), more[|more| - 1])
  {
    var all := es + more;
    assert all[..|all| - 1] == es + more[..|more| - 1] && all[|all| - 1] == more[|more| - 1];
  }

  lemma StepMoves(s: State, e: Event, g: nat)
    requires LifeInv(s.life) && Tracked(s.life, g)
    ensures Tracked(Apply(s, e).life, g)
    ensures Distance(Apply(s, e).life, g) + (if e.OfLife? && MovesOn(s.life, g, e.l) then 1 else 0)
            <= Distance(s.life, g)
  {
    if e.OfLife? {
      TableChanges(s, e.l);
      LifeMoves(s.life, e.l, g);
    }
  }

  /** In every run, whatever else happens, eight steps that move a startup goroutine on close its channel, and as
      long as it is open such a step is possible: a caller blocked in EnsureStarted is released. */
  lemma {:induction false} StartupEndsInEightMoves(es: seq<Event>, more: seq<Event>, g: nat)
    requires g in Run(es).life.starters
    ensures var l := Run(es + more).life;
            && Moves(es, more, g) + Distance(l, g) <= Distance(Run(es).life, g) <= 8
            && (g in l.startClosed || (g in l.starters && exists e :: MovesOn(l, g, e) && ApplyLife(l, e) != l))
            && (Moves(es, more, g) == 8 ==> g in l.startClosed)
  {
    RunKeepsInv(es);
    RunKeepsInv(es + more);
    MovesBound(es, more, g);
    var l := Run(es + more).life;
    if g in l.starters {
      var e := SomeoneMovesOn(l, g);
    }
  }

  lemma {:induction false} MovesBound(es: seq<Event>, more: seq<Event>, g: nat)
    requires g in Run(es).life.starters
    ensures Tracked(Run(es + more).life, g)
    ensures Moves(es, more, g) + Distance(Run(es + more).life, g) <= Distance(Run(es).life, g)
  {
    if more == [] {
      RunKeepsInv(es);
      assert es + more == es;
    } else {
      var init := more[..|more| - 1];
      MovesBound(es, init, g);
      RunKeepsInv(es + init);
      RunLast(es, more);
      StepMoves(Run(es + init), more[|more| - 1], g);
    }
  }
}
