/** Which order of events keeps the registry of pkg/codexplugin/manager.go consistent without a lock around every
    command: a condition on what comes between a load and its save.
 */
module RegistryOrder {
  import opened Wrappers
  import opened Registry
  import opened RegistryRaces

  /** An event, and the world in which it happens. */
  datatype Moment = Moment(world: World, event: Event)

  /** The profile file is written. */
  ghost predicate SavesProfiles(m: Moment) {
    var w := m.world;
    match m.event
    case Save(n, ok) => n in w.tasks && Ready(w.tasks[n]) && ok && Writes(w.tasks[n])
    case SaveResolved(ok) =>
      w.holder.Some? && w.holder.value.resolving.Some? && ok
      && Writes(AsReport(w.holder.value, w.holder.value.resolving.value))
    case _ => false
  }

  ghost predicate Deletes(m: Moment) {
    m.event.Save? && SavesProfiles(m) && m.world.tasks[m.event.n].command.Delete?
  }

  predicate Records(m: Moment) {
    m.event.SaveAliasRecord? || m.event.SaveProcessRecord?
  }

  ghost predicate NoSave(ms: seq<Moment>) {
    forall i :: 0 <= i < |ms| ==> !SavesProfiles(ms[i])
  }

  ghost predicate NoDelete(ms: seq<Moment>) {
    forall i :: 0 <= i < |ms| ==> !Deletes(ms[i])
  }

  predicate NoRecord(ms: seq<Moment>) {
    forall i :: 0 <= i < |ms| ==> !Records(ms[i])
  }

  // ----- What lies between ----------------------------------------------------------------------

  /** Since command `n` loaded the profile file. */
  ghost function SinceLoad(es: seq<Event>, n: nat): seq<Moment> {
    if es == [] then []
    else
      var init, e := es[..|es| - 1], es[|es| - 1];
      if n !in Happened(init).tasks then [] else SinceLoad(init, n) + [Moment(Happened(init), e)]
  }

  /** Since the holder of the lock last loaded the profile file. */
  ghost function SinceHolderLoaded(es: seq<Event>): seq<Moment> {
    if es == [] then []
    else
      var init, e := es[..|es| - 1], es[|es| - 1];
      if e.LoadToResolve? then [] else SinceHolderLoaded(init) + [Moment(Happened(init), e)]
  }

  predicate HasAdmin(w: World) {
    w.holder.Some? && w.holder.value.admin.Some?
  }

  /** Since the holder resolved the profile for its records. */
  ghost function SinceResolved(es: seq<Event>): seq<Moment> {
    if es == [] then []
    else
      var init, e := es[..|es| - 1], es[|es| - 1];
      if !HasAdmin(Happened(init)) then [] else SinceResolved(init) + [Moment(Happened(init), e)]
  }

  /** Between a command's load and its save nobody else saves the profile file, and no record is added if the command
      deletes; between the resolution of a profile and a record for it nobody deletes a profile. */
  ghost predicate InOrder(es: seq<Event>, e: Event) {
    var w := Happened(es);
    match e
    case Save(n, _) =>
      SavesProfiles(Moment(w, e)) ==>
        NoSave(SinceLoad(es, n)) && (w.tasks[n].command.Delete? ==> NoRecord(SinceLoad(es, n)))
    case SaveResolved(_) => NoSave(SinceHolderLoaded(es))
    case SaveAliasRecord(_, _, _) => NoDelete(SinceResolved(es))
    case SaveProcessRecord(_, _, _, _) => NoDelete(SinceResolved(es))
    case _ => true
  }

  ghost predicate Orderly(es: seq<Event>) {
    es != [] ==> Orderly(es[..|es| - 1]) && InOrder(es[..|es| - 1], es[|es| - 1])
  }

  // ----- What order keeps current ---------------------------------------------------------------

  /** Whatever refers to a profile now did so when the command looked. */
  ghost predicate AliasesSeen(seen: map<string, AliasRecord>, now: map<string, AliasRecord>) {
    forall a :: a in now ==> a in seen && seen[a] == now[a]
  }

  ghost predicate ProcessesSeen(seen: map<string, ProcessRecord>, now: map<string, ProcessRecord>) {
    forall a :: a in now && now[a].mode != STOPPED ==> a in seen && seen[a] == now[a]
  }

  ghost predicate TablesSeen(t: Task, s: State) {
    && (t.loads >= 2 ==> AliasesSeen(t.loaded.aliases, s.aliases))
    && (t.loads >= 3 ==> ProcessesSeen(t.loaded.processes, s.processes))
  }

  ghost predicate TaskCurrent(es: seq<Event>, n: nat)
    requires n in Happened(es).tasks
  {
    var w, t := Happened(es), Happened(es).tasks[n];
    && (NoSave(SinceLoad(es, n)) ==> t.loaded.profiles == w.files.profiles)
    && (t.command.Delete? && NoRecord(SinceLoad(es, n)) ==> TablesSeen(t, w.files))
  }

  ghost predicate CopyCurrent(es: seq<Event>) {
    var w := Happened(es);
    w.holder.Some? && w.holder.value.resolving.Some? && NoSave(SinceHolderLoaded(es)) ==>
      w.holder.value.resolving.value.loaded.profiles == w.files.profiles
  }

  ghost predicate AdminCurrent(es: seq<Event>) {
    var w := Happened(es);
    HasAdmin(w) && NoDelete(SinceResolved(es)) ==> w.holder.value.admin.value in w.files.profiles
  }

  ghost predicate Current(es: seq<Event>) {
    CopyCurrent(es) && AdminCurrent(es) && forall n :: n in Happened(es).tasks ==> TaskCurrent(es, n)
  }

  // ----- One event ------------------------------------------------------------------------------

  /** Nothing but a save changes the profiles. */
  lemma ProfilesStay(w: World, e: Event)
    requires !SavesProfiles(Moment(w, e))
    ensures Happen(w, e).files.profiles == w.files.profiles
  {
    if e.SaveResolved? && w.holder.Some? && w.holder.value.resolving.Some? {
      ResolutionFacts(w.holder.value, w.holder.value.resolving.value, e.ok);
    }
  }

  lemma HolderTablesShrink(w: World, h: Holder, e: Event)
    requires w.holder == Some(h) && HolderOk(h, w.files) && !Records(Moment(w, e))
    ensures AliasesSeen(w.files.aliases, HolderStep(w, h, e).files.aliases)
    ensures ProcessesSeen(w.files.processes, HolderStep(w, h, e).files.processes)
  {
    if e.ForgetAlias? {
      assert HolderStep(w, h, e).files.aliases == w.files.aliases - {h.alias};
    } else if e.SaveResolved? && h.resolving.Some? {
      SaveKeepsTables(w, h, h.resolving.value, e.ok);
    }
  }

  lemma SaveKeepsTables(w: World, h: Holder, r: Resolving, ok: bool)
    ensures var s := SaveForHolder(w, h, r, ok).files;
            s.aliases == w.files.aliases && s.processes == w.files.processes
  {
  }

  /** Without a new record the tables only lose references. */
  lemma TablesShrink(w: World, e: Event)
    requires WorldOk(w) && !Records(Moment(w, e))
    ensures AliasesSeen(w.files.aliases, Happen(w, e).files.aliases)
    ensures ProcessesSeen(w.files.processes, Happen(w, e).files.processes)
  {
    if w.holder.Some? {
      HolderTablesShrink(w, w.holder.value, e);
    }
  }

  lemma DeletableIsUnneeded(t: Task, s: State, n: string)
    requires Inv(s) && TablesSeen(t, s) && t.loads == 3 && CanDelete(t.loaded, n)
    ensures !Needed(s, n)
  {
    forall a | a in s.aliases ensures s.aliases[a].adminProfile != n {
      assert a in t.loaded.aliases && t.loaded.aliases[a] == s.aliases[a];
    }
    forall a | a in s.processes && s.processes[a].mode != STOPPED ensures s.processes[a].adminProfile != n {
      assert ProcessSaved(a, s.processes[a], s.profiles);
      assert !Blocks(t.loaded.processes[a], n);
    }
  }

  lemma SaveIsSafe(es: seq<Event>, n: nat, ok: bool)
    requires Inv(Happened(es).files) && WorldOk(Happened(es)) && Current(es) && InOrder(es, Save(n, ok))
    ensures Safe(Happened(es), Save(n, ok))
  {
    var w := Happened(es);
    if SavesProfiles(Moment(w, Save(n, ok))) {
      assert TaskCurrent(es, n);
      if w.tasks[n].command.Delete? {
        DeletableIsUnneeded(w.tasks[n], w.files, RegistryRaces.Target(w.tasks[n]).value);
      }
      FreshIsSafe(w, n, ok);
    }
  }

  lemma OrderlyEventIsSafe(es: seq<Event>, e: Event)
    requires Inv(Happened(es).files) && WorldOk(Happened(es)) && Current(es) && InOrder(es, e)
    ensures Safe(Happened(es), e)
  {
    if e.Save? {
      SaveIsSafe(es, e.n, e.ok);
    } else if e.SaveResolved? {
      NeededIsSaved(Happened(es).files);
    }
  }

  // ----- ... keeps everything current -----------------------------------------------------------

  lemma SnocWindows(es: seq<Event>, e: Event, n: nat)
    ensures var w, all := Happened(es), es + [e];
            && Happened(all) == Happen(w, e)
            && SinceLoad(all, n) == (if n !in w.tasks then [] else SinceLoad(es, n) + [Moment(w, e)])
            && SinceHolderLoaded(all) == (if e.LoadToResolve? then [] else SinceHolderLoaded(es) + [Moment(w, e)])
            && SinceResolved(all) == (if !HasAdmin(w) then [] else SinceResolved(es) + [Moment(w, e)])
  {
    var all := es + [e];
    assert all[..|all| - 1] == es && all[|all| - 1] == e;
  }

  lemma WindowGrows(ms: seq<Moment>, m: Moment)
    ensures NoSave(ms + [m]) ==> NoSave(ms) && !SavesProfiles(m)
    ensures NoDelete(ms + [m]) ==> NoDelete(ms) && !Deletes(m)
    ensures NoRecord(ms + [m]) ==> NoRecord(ms) && !Records(m)
  {
    var all := ms + [m];
    assert all[|ms|] == m;
    assert forall i :: 0 <= i < |ms| ==> all[i] == ms[i];
  }

  /** What an event does to a task that stays or appears. */
  lemma TaskSteps(w: World, e: Event, n: nat)
    requires n in Happen(w, e).tasks
    ensures var t := Happen(w, e).tasks[n];
            if n in w.tasks
            then t == w.tasks[n] || (t == LoadNext(w.tasks[n], w.files) && Happen(w, e).files == w.files)
            else t.loaded == ProfileFile(w.files) && t.loads == 1 && Happen(w, e).files == w.files
  {
  }

  lemma TaskStaysCurrent(es: seq<Event>, e: Event, n: nat)
    requires WorldOk(Happened(es)) && Current(es) && n in Happened(es + [e]).tasks
    ensures TaskCurrent(es + [e], n)
  {
    var w := Happened(es);
    SnocWindows(es, e, n);
    TaskSteps(w, e, n);
    if n in w.tasks {
      assert TaskCurrent(es, n);
      WindowGrows(SinceLoad(es, n), Moment(w, e));
      if !SavesProfiles(Moment(w, e)) {
        ProfilesStay(w, e);
      }
      if !Records(Moment(w, e)) {
        TablesShrink(w, e);
      }
    }
  }

  /** A fresh copy is written back with every profile, unless one is deleted. */
  lemma FreshSaveKeepsNames(es: seq<Event>, e: Event)
    requires WorldOk(Happened(es)) && Current(es) && InOrder(es, e)
    requires SavesProfiles(Moment(Happened(es), e)) && !Deletes(Moment(Happened(es), e))
    ensures Happened(es).files.profiles.Keys <= Happen(Happened(es), e).files.profiles.Keys
  {
    var w := Happened(es);
    if e.Save? {
      assert TaskCurrent(es, e.n);
      OutcomeNames(w.tasks[e.n]);
    } else {
      var h := w.holder.value;
      ResolutionFacts(h, h.resolving.value, e.ok);
      OutcomeNames(AsReport(h, h.resolving.value));
    }
  }

  lemma AdminStays(w: World, e: Event)
    requires HasAdmin(w) && HasAdmin(Happen(w, e))
    ensures Happen(w, e).holder.value.admin == w.holder.value.admin
  {
  }

  lemma ResolvedIsThere(s: State, env: Env, req: ProfileRequest, fallback: string, ok: bool)
    ensures var (t, n) := ResolveAdminProfile(s, env, req, fallback, ok);
            n.Some? ==> n.value in t.profiles
  {
  }

  lemma NewAdminIsSaved(es: seq<Event>, e: Event)
    requires Current(es) && InOrder(es, e) && !HasAdmin(Happened(es)) && HasAdmin(Happen(Happened(es), e))
    ensures var w := Happen(Happened(es), e); w.holder.value.admin.value in w.files.profiles
  {
    var w := Happened(es);
    assert e.SaveResolved? && w.holder.value.resolving.Some?;
    var h, r := w.holder.value, w.holder.value.resolving.value;
    ResolvedIsThere(r.loaded, h.env, r.req, r.fallback, e.ok);
  }

  /** What an event does to the copy that the holder resolves from. */
  lemma CopySteps(w: World, e: Event)
    requires Happen(w, e).holder.Some? && Happen(w, e).holder.value.resolving.Some?
    ensures var r := Happen(w, e).holder.value.resolving;
            if e.LoadToResolve? then r.value.loaded == ProfileFile(w.files) && Happen(w, e).files == w.files
            else w.holder.Some? && w.holder.value.resolving == r
  {
  }

  lemma CopyStaysCurrent(es: seq<Event>, e: Event)
    requires Current(es)
    ensures CopyCurrent(es + [e])
  {
    var w, m := Happened(es), Moment(Happened(es), e);
    SnocWindows(es, e, 0);
    if Happen(w, e).holder.Some? && Happen(w, e).holder.value.resolving.Some? {
      CopySteps(w, e);
      WindowGrows(SinceHolderLoaded(es), m);
      if !SavesProfiles(m) {
        ProfilesStay(w, e);
      }
    }
  }

  lemma AdminStaysCurrent(es: seq<Event>, e: Event)
    requires WorldOk(Happened(es)) && Current(es) && InOrder(es, e)
    ensures AdminCurrent(es + [e])
  {
    var w, m := Happened(es), Moment(Happened(es), e);
    SnocWindows(es, e, 0);
    if HasAdmin(Happen(w, e)) {
      if !HasAdmin(w) {
        NewAdminIsSaved(es, e);
      } else {
        AdminStays(w, e);
        WindowGrows(SinceResolved(es), m);
        if !SavesProfiles(m) {
          ProfilesStay(w, e);
        } else if !Deletes(m) {
          FreshSaveKeepsNames(es, e);
        }
      }
    }
  }

  /** If no other save of the profile file falls between a command's load and its save, no record between the load and
      the save of a Delete, and no Delete between a resolution and its record, then no reference ever dangles. */
  lemma {:induction false} OrderlyNeverDangles(es: seq<Event>)
    requires Orderly(es)
    ensures AllSafe(es) && AlwaysInv(es) && Current(es)
  {
    if es != [] {
      var init, e := es[..|es| - 1], es[|es| - 1];
      OrderlyNeverDangles(init);
      NeverDanglesIff(init);
      OrderlyEventIsSafe(init, e);
      assert es == init + [e];
      CopyStaysCurrent(init, e);
      AdminStaysCurrent(init, e);
      forall n | n in Happened(es).tasks ensures TaskCurrent(es, n) {
        TaskStaysCurrent(init, e, n);
      }
    }
    NeverDanglesIff(es);
  }
}
