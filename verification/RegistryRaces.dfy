/** The registry with commands in parallel. Create, Connect, Stop, Remove and Cleanup hold the state lock; the commands
    on admin profiles, Status and ListRuntimes do not. Each loads a state file, and later writes the whole file back.
    Loads and saves are separate events here, interleaved in any order.
 */
module RegistryRaces {
  import opened Wrappers
  import opened Text
  import opened Registry

  /** A command without the lock, and what it has loaded: the profile file, then, to delete, the two tables. */
  datatype Task = Task(command: Command, env: Env, loaded: State, loads: nat)

  /** The command that holds the lock: the aliases it loaded, the profile file it loaded to resolve a profile, and the
      profile it resolved first. */
  datatype Holder = Holder(
    env: Env, alias: string, aliases: map<string, AliasRecord>, resolving: Option<Resolving>, admin: Option<string>)

  datatype Resolving = Resolving(req: ProfileRequest, fallback: string, loaded: State)

  datatype World = World(files: State, tasks: map<nat, Task>, holder: Option<Holder>)

  const START := World(EMPTY, map[], None)

  datatype Event =
    | Load(n: nat, command: Command, env: Env)
    | LoadTable(n: nat)
    | Save(n: nat, ok: bool)
    | Lock(env: Env, name: string)
    | LoadToResolve(req: ProfileRequest, fallback: string)
    | SaveResolved(ok: bool)
    | ForgetAlias
    | SaveAliasRecord(tunnel: string, profileName: string, path: string)
    | SaveProcessRecord(tunnel: string, profileName: string, path: string, mode: string)
    | MarkStopped
    | DropAliases(names: set<string>)
    | DropProcesses(names: set<string>)
    | Unlock

  predicate Unlocked(c: Command) {
    c.SetProfile? || c.Activate? || c.Delete? || c.Report?
  }

  predicate Ready(t: Task) {
    if t.command.Delete? then t.loads == 3 else t.loads == 1
  }

  /** The name the command works on. */
  function Target(t: Task): Option<string> {
    match t.command
    case SetProfile(req, _) => NormalizeAlias(t.env, req.name)
    case Activate(name) => NormalizeAlias(t.env, name)
    case Delete(name) => NormalizeAlias(t.env, name)
    case Report(req, fallback) => NormalizeAlias(t.env, RequestedName(t.env, req.name, fallback))
    case _ => None
  }

  /** Whether the command gets as far as saving the profile file. */
  ghost predicate Writes(t: Task) {
    Target(t).Some? &&
    var n := Target(t).value;
    match t.command
    case SetProfile(req, _) => t.env.validSecret(Resolved(t.loaded, t.env, n, req).adminKey)
    case Activate(_) => n in t.loaded.profiles
    case Delete(_) => CanDelete(t.loaded, n)
    case Report(req, _) =>
      var p := Resolved(t.loaded, t.env, n, req);
      t.env.validSecret(p.adminKey) && Outdated(ProfileAt(t.loaded, n), p)
    case _ => false
  }

  /** What a command that saves makes of the file it loaded. */
  ghost function Outcome(t: Task): State {
    Apply(t.loaded, Step(t.command, t.env, _ => true))
  }

  function WriteProfiles(s: State, from: State): State {
    s.(profiles := from.profiles, active := from.active)
  }

  /** A copy of the profile file. */
  function ProfileFile(s: State): State {
    State(s.profiles, s.active, map[], map[])
  }

  function LoadNext(t: Task, s: State): Task {
    if t.loads == 1 then t.(loaded := t.loaded.(aliases := s.aliases), loads := 2)
    else if t.loads == 2 then t.(loaded := t.loaded.(processes := s.processes), loads := 3)
    else t
  }

  ghost function SaveTask(w: World, n: nat, ok: bool): World {
    if n !in w.tasks || !Ready(w.tasks[n]) then w
    else
      var t := w.tasks[n];
      World(if ok && Writes(t) then WriteProfiles(w.files, Outcome(t)) else w.files, w.tasks - {n}, w.holder)
  }

  /** The save inside resolveAdminProfile; without a profile the command ends and the lock is released. */
  function SaveForHolder(w: World, h: Holder, r: Resolving, ok: bool): World {
    var (t, n) := ResolveAdminProfile(r.loaded, h.env, r.req, r.fallback, ok);
    if n.None? then w.(holder := None)
    else World(if t != r.loaded then WriteProfiles(w.files, t) else w.files, w.tasks,
               Some(h.(resolving := None, admin := if h.admin.None? then n else h.admin)))
  }

  function HolderStep(w: World, h: Holder, e: Event): World {
    match e
    case LoadToResolve(req, fallback) =>
      w.(holder := Some(h.(resolving := Some(Resolving(req, fallback, ProfileFile(w.files))))))
    case SaveResolved(ok) => if h.resolving.None? then w else SaveForHolder(w, h, h.resolving.value, ok)
    case ForgetAlias => w.(files := w.files.(aliases := h.aliases - {h.alias}))
    case SaveAliasRecord(tunnel, profileName, path) =>
      if h.admin.None? then w
      else w.(files := SaveAlias(w.files, h.aliases, AliasRecord(h.alias, tunnel, h.admin.value, profileName, path)))
    case SaveProcessRecord(tunnel, profileName, path, mode) =>
      if h.admin.None? || Blank(path) then w
      else w.(files := SaveProcess(w.files, ProcessRecord(h.alias, tunnel, h.admin.value, profileName, path, mode)))
    case MarkStopped =>
      if h.alias !in w.files.processes then w
      else w.(files := SaveProcess(w.files, w.files.processes[h.alias].(mode := STOPPED)))
    case DropAliases(names) =>
      World(w.files.(aliases := w.files.aliases - names), w.tasks, Some(h.(aliases := h.aliases - names)))
    case DropProcesses(names) => w.(files := w.files.(processes := w.files.processes - names))
    case Unlock => w.(holder := None)
    case _ => w
  }

  ghost function Happen(w: World, e: Event): World {
    match e
    case Load(n, command, env) =>
      if n in w.tasks || !Unlocked(command) then w
      else w.(tasks := w.tasks[n := Task(command, env, ProfileFile(w.files), 1)])
    case LoadTable(n) =>
      if n !in w.tasks || !w.tasks[n].command.Delete? then w
      else w.(tasks := w.tasks[n := LoadNext(w.tasks[n], w.files)])
    case Save(n, ok) => SaveTask(w, n, ok)
    case Lock(env, name) =>
      if w.holder.Some? || NormalizeAlias(env, name).None? then w
      else w.(holder := Some(Holder(env, NormalizeAlias(env, name).value, w.files.aliases, None, None)))
    case _ => if w.holder.None? then w else HolderStep(w, w.holder.value, e)
  }

  ghost function Happened(es: seq<Event>): World {
    if es == [] then START else Happen(Happened(es[..|es| - 1]), es[|es| - 1])
  }

  // ----- When a save is safe --------------------------------------------------------------------

  /** A profile that an alias or a live process needs. */
  ghost predicate Needed(s: State, n: string) {
    || (exists a :: a in s.aliases && s.aliases[a].adminProfile == n)
    || (exists a :: a in s.processes && s.processes[a].mode != STOPPED && s.processes[a].adminProfile == n)
  }

  /** The names in the file that the command is about to write. */
  ghost function Written(t: Task): set<string> {
    match t.command
    case SetProfile(_, _) => t.loaded.profiles.Keys + (if Target(t).Some? then {Target(t).value} else {})
    case Report(_, _) => t.loaded.profiles.Keys + (if Target(t).Some? then {Target(t).value} else {})
    case Delete(_) => t.loaded.profiles.Keys - (if Target(t).Some? then {Target(t).value} else {})
    case _ => t.loaded.profiles.Keys
  }

  ghost predicate Covers(names: set<string>, s: State) {
    forall n :: Needed(s, n) ==> n in names
  }

  /** The save inside resolveAdminProfile is that of Status, made by the holder. */
  function AsReport(h: Holder, r: Resolving): Task {
    Task(Report(r.req, r.fallback), h.env, r.loaded, 1)
  }

  ghost predicate SafeWrite(t: Task, ok: bool, s: State) {
    ok && Writes(t) ==> Covers(Written(t), s)
  }

  /** A save of the profile file must cover every profile needed by now; a new record needs a profile that is still
      saved. Every other event is safe. */
  ghost predicate Safe(w: World, e: Event) {
    match e
    case Save(n, ok) =>
      n in w.tasks && Ready(w.tasks[n]) ==> SafeWrite(w.tasks[n], ok, w.files)
    case SaveResolved(ok) =>
      w.holder.Some? && w.holder.value.resolving.Some? ==>
        SafeWrite(AsReport(w.holder.value, w.holder.value.resolving.value), ok, w.files)
    case SaveAliasRecord(_, _, _) =>
      w.holder.Some? && w.holder.value.admin.Some? ==> w.holder.value.admin.value in w.files.profiles
    case SaveProcessRecord(_, _, path, mode) =>
      w.holder.Some? && w.holder.value.admin.Some? && !Blank(path) && mode != STOPPED ==>
        w.holder.value.admin.value in w.files.profiles
    case _ => true
  }

  /** Copies of the profile file are consistent in themselves; the lock keeps the holder's aliases current. */
  ghost predicate HolderOk(h: Holder, s: State) {
    && h.alias != ""
    && h.aliases - {h.alias} == s.aliases - {h.alias}
    && (h.resolving.Some? ==> ActiveSaved(h.resolving.value.loaded))
  }

  ghost predicate TasksOk(tasks: map<nat, Task>) {
    forall n :: n in tasks ==> Unlocked(tasks[n].command) && ActiveSaved(tasks[n].loaded)
  }

  ghost predicate WorldOk(w: World) {
    TasksOk(w.tasks) && (w.holder.Some? ==> HolderOk(w.holder.value, w.files))
  }

  // ----- One event ------------------------------------------------------------------------------

  /** Replacing the profile file keeps the invariant exactly when no needed profile is missing. */
  lemma ReplaceProfiles(s: State, from: State)
    requires Inv(s) && ActiveSaved(from)
    ensures Inv(WriteProfiles(s, from)) <==> Covers(from.profiles.Keys, s)
  {
    var t := WriteProfiles(s, from);
    if Covers(from.profiles.Keys, s) {
      forall a | a in s.aliases ensures s.aliases[a].adminProfile in t.profiles {
        assert Needed(s, s.aliases[a].adminProfile);
      }
      forall a | a in s.processes ensures ProcessSaved(a, s.processes[a], t.profiles) {
        assert ProcessSaved(a, s.processes[a], s.profiles);
        assert s.processes[a].mode != STOPPED ==> Needed(s, s.processes[a].adminProfile);
      }
    }
    if Inv(t) {
      forall n | Needed(s, n) ensures n in from.profiles.Keys {
        if exists a :: a in s.processes && s.processes[a].mode != STOPPED && s.processes[a].adminProfile == n {
          var a :| a in s.processes && s.processes[a].mode != STOPPED && s.processes[a].adminProfile == n;
          assert ProcessSaved(a, t.processes[a], t.profiles);
        }
      }
    }
  }

  lemma OutcomeNames(t: Task)
    requires Unlocked(t.command) && Writes(t) && ActiveSaved(t.loaded)
    ensures Outcome(t).profiles.Keys == Written(t) && ActiveSaved(Outcome(t))
  {
  }

  lemma SaveIsSafeIff(w: World, n: nat, ok: bool)
    requires Inv(w.files) && TasksOk(w.tasks)
    ensures Inv(SaveTask(w, n, ok).files) <==> Safe(w, Save(n, ok))
  {
    if n in w.tasks && Ready(w.tasks[n]) && ok && Writes(w.tasks[n]) {
      OutcomeNames(w.tasks[n]);
      ReplaceProfiles(w.files, Outcome(w.tasks[n]));
    }
  }

  /** A resolution that saves is the outcome of the same report; any other changes nothing. */
  lemma ResolutionFacts(h: Holder, r: Resolving, ok: bool)
    ensures var (t, n) := ResolveAdminProfile(r.loaded, h.env, r.req, r.fallback, ok);
            if n.Some? && t != r.loaded then ok && Writes(AsReport(h, r)) && t == Outcome(AsReport(h, r))
            else n.None? || !Writes(AsReport(h, r))
    ensures var (t, n) := ResolveAdminProfile(r.loaded, h.env, r.req, r.fallback, ok);
            n.None? ==> !ok || !Writes(AsReport(h, r))
  {
  }

  lemma ResolvedIsSafeIff(w: World, h: Holder, r: Resolving, ok: bool)
    requires Inv(w.files) && ActiveSaved(r.loaded)
    ensures Inv(SaveForHolder(w, h, r, ok).files) <==> SafeWrite(AsReport(h, r), ok, w.files)
  {
    ResolutionFacts(h, r, ok);
    if ok && Writes(AsReport(h, r)) {
      OutcomeNames(AsReport(h, r));
      ReplaceProfiles(w.files, Outcome(AsReport(h, r)));
    }
  }

  lemma AliasSaveIsSafeIff(s: State, loaded: map<string, AliasRecord>, r: AliasRecord)
    requires Inv(s) && loaded - {r.alias} == s.aliases - {r.alias}
    ensures Inv(SaveAlias(s, loaded, r)) <==> r.adminProfile in s.profiles
  {
    var t := SaveAlias(s, loaded, r);
    if r.adminProfile in s.profiles {
      forall a | a in t.aliases ensures t.aliases[a].adminProfile in s.profiles {
        if a != r.alias {
          assert a in loaded - {r.alias} && (loaded - {r.alias})[a] == loaded[a];
          assert a in s.aliases && s.aliases[a] == loaded[a];
        }
      }
    } else {
      assert t.aliases[r.alias] == r;
    }
  }

  lemma ProcessSaveIsSafeIff(s: State, p: ProcessRecord)
    requires Inv(s) && p.alias != "" && !Blank(p.profilePath)
    ensures Inv(SaveProcess(s, p)) <==> p.mode == STOPPED || p.adminProfile in s.profiles
  {
    var t := SaveProcess(s, p);
    if p.mode == STOPPED || p.adminProfile in s.profiles {
      SaveProcessKeepsInv(s, p);
    } else {
      assert !ProcessSaved(p.alias, t.processes[p.alias], t.profiles);
    }
  }

  lemma DropKeepsInv(s: State, names: set<string>)
    requires Inv(s)
    ensures Inv(s.(aliases := s.aliases - names)) && Inv(s.(processes := s.processes - names))
  {
    var t := s.(processes := s.processes - names);
    forall a | a in t.processes ensures ProcessSaved(a, t.processes[a], t.profiles) {
      assert ProcessSaved(a, s.processes[a], s.profiles);
    }
  }

  lemma ForgetLoaded(s: State, loaded: map<string, AliasRecord>, alias: string)
    requires Inv(s) && loaded - {alias} == s.aliases - {alias}
    ensures Inv(s.(aliases := loaded - {alias}))
  {
    DropKeepsInv(s, {alias});
  }

  lemma StopIsSafe(s: State, alias: string)
    requires Inv(s) && alias in s.processes
    ensures Inv(SaveProcess(s, s.processes[alias].(mode := STOPPED)))
  {
    assert ProcessSaved(alias, s.processes[alias], s.profiles);
    ProcessSaveIsSafeIff(s, s.processes[alias].(mode := STOPPED));
  }

  lemma HolderStepIsSafeIff(w: World, e: Event)
    requires Inv(w.files) && w.holder.Some? && HolderOk(w.holder.value, w.files)
    requires !e.Load? && !e.LoadTable? && !e.Save? && !e.Lock?
    ensures Inv(HolderStep(w, w.holder.value, e).files) <==> Safe(w, e)
  {
    var h := w.holder.value;
    match e
    case SaveResolved(ok) =>
      if h.resolving.Some? {
        ResolvedIsSafeIff(w, h, h.resolving.value, ok);
      }
    case ForgetAlias => ForgetLoaded(w.files, h.aliases, h.alias);
    case SaveAliasRecord(tunnel, profileName, path) =>
      if h.admin.Some? {
        AliasSaveIsSafeIff(w.files, h.aliases, AliasRecord(h.alias, tunnel, h.admin.value, profileName, path));
      }
    case SaveProcessRecord(tunnel, profileName, path, mode) =>
      if h.admin.Some? && !Blank(path) {
        ProcessSaveIsSafeIff(w.files, ProcessRecord(h.alias, tunnel, h.admin.value, profileName, path, mode));
      }
    case MarkStopped =>
      if h.alias in w.files.processes {
        StopIsSafe(w.files, h.alias);
      }
    case DropAliases(names) => DropKeepsInv(w.files, names);
    case DropProcesses(names) => DropKeepsInv(w.files, names);
    case _ =>
  }

  /** One event keeps the invariant exactly when it is safe. */
  lemma EventIsSafeIff(w: World, e: Event)
    requires Inv(w.files) && WorldOk(w)
    ensures Inv(Happen(w, e).files) <==> Safe(w, e)
  {
    if e.Save? {
      SaveIsSafeIff(w, e.n, e.ok);
    } else if !e.Load? && !e.LoadTable? && !e.Lock? && w.holder.Some? {
      HolderStepIsSafeIff(w, e);
    }
  }

  // ----- The loaded copies stay consistent ------------------------------------------------------

  lemma RestAfterDrop(a: map<string, AliasRecord>, b: map<string, AliasRecord>, alias: string, names: set<string>)
    requires a - {alias} == b - {alias}
    ensures (a - names) - {alias} == (b - names) - {alias}
  {
    var x, y := (a - names) - {alias}, (b - names) - {alias};
    forall k ensures k in x <==> k in y {
      assert k in a - {alias} <==> k in b - {alias};
    }
    forall k | k in x ensures x[k] == y[k] {
      assert (a - {alias})[k] == (b - {alias})[k];
    }
  }

  lemma HolderStaysOk(w: World, e: Event)
    requires Inv(w.files) && WorldOk(w) && w.holder.Some?
    requires !e.Load? && !e.LoadTable? && !e.Save? && !e.Lock?
    ensures WorldOk(HolderStep(w, w.holder.value, e))
  {
    var h := w.holder.value;
    if e.DropAliases? {
      RestAfterDrop(h.aliases, w.files.aliases, h.alias, e.names);
    }
  }

  lemma WorldStaysOk(w: World, e: Event)
    requires Inv(w.files) && WorldOk(w)
    ensures WorldOk(Happen(w, e))
  {
    if !e.Load? && !e.LoadTable? && !e.Save? && !e.Lock? && w.holder.Some? {
      HolderStaysOk(w, e);
    }
  }

  // ----- All interleavings ----------------------------------------------------------------------

  ghost predicate AllSafe(es: seq<Event>) {
    es != [] ==> AllSafe(es[..|es| - 1]) && Safe(Happened(es[..|es| - 1]), es[|es| - 1])
  }

  ghost predicate AlwaysInv(es: seq<Event>) {
    Inv(Happened(es).files) && (es != [] ==> AlwaysInv(es[..|es| - 1]))
  }

  /** In every interleaving, no reference ever dangles exactly when every save is safe: it covers the profiles needed at
      that moment, or adds a record whose profile is still there. */
  lemma {:induction false} NeverDanglesIff(es: seq<Event>)
    ensures AlwaysInv(es) <==> AllSafe(es)
    ensures AllSafe(es) ==> WorldOk(Happened(es))
  {
    if es != [] {
      var init, last := es[..|es| - 1], es[|es| - 1];
      NeverDanglesIff(init);
      if AllSafe(init) {
        EventIsSafeIff(Happened(init), last);
        WorldStaysOk(Happened(init), last);
      }
    }
  }

  /** A command whose loaded copy still has every saved profile saves safely, unless it deletes a profile that has been
      put to use since it looked. */
  lemma FreshIsSafe(w: World, n: nat, ok: bool)
    requires Inv(w.files) && TasksOk(w.tasks) && n in w.tasks
    requires w.files.profiles.Keys <= w.tasks[n].loaded.profiles.Keys
    requires w.tasks[n].command.Delete? && Target(w.tasks[n]).Some? ==> !Needed(w.files, Target(w.tasks[n]).value)
    ensures Safe(w, Save(n, ok))
  {
    NeededIsSaved(w.files);
  }

  lemma NeededIsSaved(s: State)
    requires Inv(s)
    ensures Covers(s.profiles.Keys, s)
  {
    forall m | Needed(s, m) ensures m in s.profiles {
      if exists a :: a in s.processes && s.processes[a].mode != STOPPED && s.processes[a].adminProfile == m {
        var a :| a in s.processes && s.processes[a].mode != STOPPED && s.processes[a].adminProfile == m;
        assert ProcessSaved(a, s.processes[a], s.profiles);
      }
    }
  }

  // ----- Create, step by step -------------------------------------------------------------------

  /** Resolving reads nothing but the profile file. */
  lemma ResolveOnCopy(s: State, env: Env, req: ProfileRequest, fallback: string, ok: bool)
    ensures var (t, n) := ResolveAdminProfile(s, env, req, fallback, ok);
            var (u, m) := ResolveAdminProfile(ProfileFile(s), env, req, fallback, ok);
            n == m && t == WriteProfiles(s, u)
  {
  }

  lemma LockAndLoad(w: World, env: Env, name: string, req: ProfileRequest)
    requires w.holder == None && NormalizeAlias(env, name).Some?
    ensures Happen(Happen(w, Lock(env, name)), LoadToResolve(req, "")) ==
              w.(holder := Some(Holder(env, NormalizeAlias(env, name).value, w.files.aliases,
                                       Some(Resolving(req, "", ProfileFile(w.files))), None)))
  {
  }

  /** The save of a resolution that succeeds. */
  lemma ResolveOnce(w: World, h: Holder, r: Resolving, ok: bool)
    requires h.admin == None && r.loaded == ProfileFile(w.files)
    requires ResolveAdminProfile(w.files, h.env, r.req, r.fallback, ok).1.Some?
    ensures var (t, n) := ResolveAdminProfile(w.files, h.env, r.req, r.fallback, ok);
            SaveForHolder(w, h, r, ok) == World(t, w.tasks, Some(h.(resolving := None, admin := n)))
  {
    ResolveOnCopy(w.files, h.env, r.req, r.fallback, ok);
  }

  lemma SaveAndUnlock(w: World, h: Holder, admin: string, tunnel: string)
    requires w.holder == Some(h) && h.admin == Some(admin)
    ensures Happen(Happen(w, SaveAliasRecord(tunnel, "", "")), Unlock) ==
              World(SaveAlias(w.files, h.aliases, AliasRecord(h.alias, tunnel, admin, "", "")), w.tasks, None)
  {
  }

  /** Undisturbed, a Create for a new alias is these five events. */
  lemma CreateIsFiveEvents(w: World, env: Env, name: string, req: ProfileRequest, remote: Remote, saves: Saves)
    requires w.holder == None && NormalizeAlias(env, name).Some? && NormalizeAlias(env, name).value !in w.files.aliases
    requires remote.created.Some? && saves(3)
    requires ResolveAdminProfile(w.files, env, req, "", saves(0)).1.Some?
    ensures var w2 := Happen(Happen(w, Lock(env, name)), LoadToResolve(req, ""));
            var w3 := Happen(w2, SaveResolved(saves(0)));
            Happen(Happen(w3, SaveAliasRecord(remote.created.value, "", "")), Unlock)
            == w.(files := Create(w.files, env, name, req, true, remote, saves))
  {
    var alias := NormalizeAlias(env, name).value;
    var (t, n) := ResolveAdminProfile(w.files, env, req, "", saves(0));
    var r := Resolving(req, "", ProfileFile(w.files));
    var h := Holder(env, alias, w.files.aliases, Some(r), None);
    LockAndLoad(w, env, name, req);
    ResolveOnce(w.(holder := Some(h)), h, r, saves(0));
    var resolved := h.(resolving := None, admin := n);
    SaveAndUnlock(World(t, w.tasks, Some(resolved)), resolved, n.value, remote.created.value);
    CreateOfNewAlias(w.files, env, name, req, remote, saves);
  }

  lemma CreateOfNewAlias(s: State, env: Env, name: string, req: ProfileRequest, remote: Remote, saves: Saves)
    requires NormalizeAlias(env, name).Some? && NormalizeAlias(env, name).value !in s.aliases
    requires remote.created.Some? && saves(3) && ResolveAdminProfile(s, env, req, "", saves(0)).1.Some?
    ensures var (t, n) := ResolveAdminProfile(s, env, req, "", saves(0));
            Create(s, env, name, req, true, remote, saves) ==
            SaveAlias(t, s.aliases, AliasRecord(NormalizeAlias(env, name).value, remote.created.value, n.value, "", ""))
  {
  }

  // ----- Interleavings that do dangle -----------------------------------------------------------

  /** A name that trimming and NormalizeAlias leave alone, where every key reference is valid. */
  ghost predicate IsNormal(env: Env, n: string) {
    n != "" && TrimSpace(n) == n && env.simplify(n) == n && forall k :: env.validSecret(k)
  }

  function Named(name: string): ProfileRequest {
    ProfileRequest(name, "", "", "")
  }

  lemma HappenedSnoc(es: seq<Event>, e: Event)
    ensures Happened(es + [e]) == Happen(Happened(es), e)
    ensures AllSafe(es + [e]) <==> AllSafe(es) && Safe(Happened(es), e)
  {
    var all := es + [e];
    assert all[..|all| - 1] == es && all[|all| - 1] == e;
  }

  /** The world after the holder has resolved the new profile b. */
  ghost predicate HasResolved(w: World, before: World, alias: string, b: string) {
    && w.files.profiles.Keys == before.files.profiles.Keys + {b}
    && w.files.aliases == before.files.aliases && w.files.processes == before.files.processes
    && w.tasks == before.tasks
    && w.holder.Some? && w.holder.value.admin == Some(b) && w.holder.value.alias == alias
  }

  lemma ResolveNew(w: World, h: Holder, r: Resolving, b: string)
    requires IsNormal(h.env, b) && h.admin == None && r == Resolving(Named(b), "", ProfileFile(w.files))
    requires b !in w.files.profiles
    ensures HasResolved(SaveForHolder(w, h, r, true), w, h.alias, b)
    ensures Written(AsReport(h, r)) == w.files.profiles.Keys + {b}
  {
    assert RequestedName(h.env, b, "") == b;
  }

  lemma NothingNeeded(s: State)
    requires s.aliases == map[] && s.processes == map[]
    ensures forall names :: Covers(names, s)
  {
  }

  /** Taking the lock and loading the profile file are safe. */
  lemma LockInRun(es: seq<Event>, env: Env, alias: string, req: ProfileRequest) returns (more: seq<Event>)
    requires AllSafe(es) && Happened(es).holder == None && NormalizeAlias(env, alias) == Some(alias)
    ensures AllSafe(more) && Happened(more) == Locked(Happened(es), env, alias, req)
  {
    var lock, load := Lock(env, alias), LoadToResolve(req, "");
    more := es + [lock] + [load];
    HappenedSnoc(es, lock);
    HappenedSnoc(es + [lock], load);
    LockedAfter(Happened(es), env, alias, req);
    LoadIsSafe(Happened(es), lock, load);
  }

  function Locked(w: World, env: Env, alias: string, req: ProfileRequest): World {
    w.(holder := Some(Holder(env, alias, w.files.aliases, Some(Resolving(req, "", ProfileFile(w.files))), None)))
  }

  lemma LockedAfter(w: World, env: Env, alias: string, req: ProfileRequest)
    requires w.holder == None && NormalizeAlias(env, alias) == Some(alias)
    ensures Happen(Happen(w, Lock(env, alias)), LoadToResolve(req, "")) == Locked(w, env, alias, req)
  {
    LockAndLoad(w, env, alias, req);
  }

  lemma LoadIsSafe(w: World, lock: Event, load: Event)
    requires lock.Lock? && load.LoadToResolve?
    ensures Safe(w, lock) && Safe(Happen(w, lock), load)
  {
  }

  /** Three safe events in which a command takes the lock and resolves a new profile. */
  lemma ResolveInRun(es: seq<Event>, env: Env, alias: string, b: string) returns (more: seq<Event>)
    requires AllSafe(es) && Happened(es).holder == None && b !in Happened(es).files.profiles
    requires IsNormal(env, alias) && IsNormal(env, b)
    requires Happened(es).files.aliases == map[] && Happened(es).files.processes == map[]
    ensures AllSafe(more) && HasResolved(Happened(more), Happened(es), alias, b)
  {
    var w := Happened(es);
    var r := Resolving(Named(b), "", ProfileFile(w.files));
    var h := Holder(env, alias, w.files.aliases, Some(r), None);
    var locked := LockInRun(es, env, alias, Named(b));
    more := SaveNewInRun(locked, w, h, r, b);
  }

  lemma SaveNewInRun(es: seq<Event>, before: World, h: Holder, r: Resolving, b: string) returns (more: seq<Event>)
    requires AllSafe(es) && Happened(es) == before.(holder := Some(h)) && h.resolving == Some(r)
    requires IsNormal(h.env, b) && h.admin == None && r == Resolving(Named(b), "", ProfileFile(before.files))
    requires b !in before.files.profiles && before.files.aliases == map[] && before.files.processes == map[]
    ensures AllSafe(more) && HasResolved(Happened(more), before, h.alias, b)
  {
    HappenedSnoc(es, SaveResolved(true));
    ResolveNew(Happened(es), h, r, b);
    NothingNeeded(Happened(es).files);
    more := es + [SaveResolved(true)];
  }

  /** Saving the alias record next is safe, and makes the profile needed. */
  lemma AliasInRun(es: seq<Event>, alias: string, b: string) returns (more: seq<Event>)
    requires AllSafe(es) && b in Happened(es).files.profiles
    requires var h := Happened(es).holder; h.Some? && h.value.admin == Some(b) && h.value.alias == alias
    ensures AllSafe(more) && Happened(more).tasks == Happened(es).tasks && Needed(Happened(more).files, b)
  {
    var record := SaveAliasRecord("", "", "");
    HappenedSnoc(es, record);
    HappenedSnoc(es + [record], Unlock);
    more := es + [record] + [Unlock];
    NeedsProfile(Happened(more).files, alias, b);
  }

  lemma NeedsProfile(s: State, alias: string, n: string)
    requires alias in s.aliases && s.aliases[alias].adminProfile == n
    ensures Needed(s, n)
  {
  }

  /** An unsafe event after safe ones is where the invariant breaks. */
  lemma BreaksHere(es: seq<Event>, e: Event)
    requires AllSafe(es) && !Safe(Happened(es), e)
    ensures AlwaysInv(es) && !Inv(Happened(es + [e]).files)
  {
    NeverDanglesIff(es);
    EventIsSafeIff(Happened(es), e);
    HappenedSnoc(es, e);
  }

  /** A Set that loaded the profile file before Create saved its new profile writes that profile away: the alias that
      Create saved, long finished, is left without it. Every earlier event is safe. */
  lemma LostUpdateDangles(env: Env, a: string, b: string, alias: string) returns (es: seq<Event>)
    requires a != b && IsNormal(env, a) && IsNormal(env, b) && IsNormal(env, alias)
    ensures AllSafe(es) && AlwaysInv(es) && !Inv(Happened(es + [Save(0, true)]).files)
  {
    var loaded := SetLoadsInRun(env, a);
    var resolved := ResolveInRun(loaded, env, alias, b);
    es := AliasInRun(resolved, alias, b);
    StaleSetIsUnsafe(Happened(es), env, a, b);
    BreaksHere(es, Save(0, true));
  }

  lemma SetLoadsInRun(env: Env, a: string) returns (es: seq<Event>)
    ensures AllSafe(es)
    ensures Happened(es) == World(EMPTY, map[0 := Task(SetProfile(Named(a), false), env, ProfileFile(EMPTY), 1)], None)
  {
    var load := Load(0, SetProfile(Named(a), false), env);
    HappenedSnoc([], load);
    es := [] + [load];
  }

  lemma StaleSetIsUnsafe(w: World, env: Env, a: string, b: string)
    requires 0 in w.tasks && w.tasks[0] == Task(SetProfile(Named(a), false), env, ProfileFile(EMPTY), 1)
    requires IsNormal(env, a) && a != b && Needed(w.files, b)
    ensures !Safe(w, Save(0, true))
  {
    assert Written(w.tasks[0]) == {a};
  }

  lemma DeleteLoads(w: World, env: Env, b: string)
    requires 0 !in w.tasks
    ensures Happen(Happen(Happen(w, Load(0, Delete(b), env)), LoadTable(0)), LoadTable(0)) ==
              w.(tasks := w.tasks[0 := Task(Delete(b), env, w.files, 3)])
  {
  }

  lemma DeleteSaves(w: World, env: Env, b: string)
    requires 0 in w.tasks && w.tasks[0] == Task(Delete(b), env, w.files, 3)
    requires IsNormal(env, b) && b in w.files.profiles && w.files.aliases == map[] && w.files.processes == map[]
    ensures var t := SaveTask(w, 0, true);
            Safe(w, Save(0, true)) && t.holder == w.holder && b !in t.files.profiles
  {
    NothingNeeded(w.files);
    assert CanDelete(w.files, b);
  }

  /** Three safe events in which a Delete loads all that it looks at. */
  lemma DeleteLoadsInRun(es: seq<Event>, env: Env, b: string) returns (more: seq<Event>)
    requires AllSafe(es) && 0 !in Happened(es).tasks
    ensures AllSafe(more)
    ensures var w := Happened(es);
            Happened(more) == w.(tasks := w.tasks[0 := Task(Delete(b), env, w.files, 3)])
  {
    var load, table := Load(0, Delete(b), env), LoadTable(0);
    HappenedSnoc(es, load);
    HappenedSnoc(es + [load], table);
    HappenedSnoc(es + [load] + [table], table);
    DeleteLoads(Happened(es), env, b);
    more := es + [load] + [table] + [table];
  }

  /** Four safe events in which a Delete of an unused profile runs from its first load to its save. */
  lemma DeleteInRun(es: seq<Event>, env: Env, b: string) returns (more: seq<Event>)
    requires AllSafe(es) && IsNormal(env, b) && b in Happened(es).files.profiles && 0 !in Happened(es).tasks
    requires Happened(es).files.aliases == map[] && Happened(es).files.processes == map[]
    ensures AllSafe(more) && Happened(more).holder == Happened(es).holder && b !in Happened(more).files.profiles
  {
    var loaded := DeleteLoadsInRun(es, env, b);
    DeleteSaves(Happened(loaded), env, b);
    HappenedSnoc(loaded, Save(0, true));
    more := loaded + [Save(0, true)];
  }

  /** A Delete that runs between the save of the profile and the save of the alias, both of one Create. */
  lemma DeleteInsideCreateDangles(env: Env, b: string, alias: string) returns (es: seq<Event>)
    requires IsNormal(env, b) && IsNormal(env, alias)
    ensures AllSafe(es) && AlwaysInv(es) && !Inv(Happened(es + [SaveAliasRecord("", "", "")]).files)
  {
    var resolved := ResolveInRun([], env, alias, b);
    es := DeleteInRun(resolved, env, b);
    BreaksHere(es, SaveAliasRecord("", "", ""));
  }

  /** A Create that saves its alias while a Delete, which has seen no reference, is on its way to save. */
  lemma RecordInsideDeleteDangles(env: Env, b: string, alias: string) returns (es: seq<Event>)
    requires IsNormal(env, b) && IsNormal(env, alias)
    ensures AllSafe(es) && AlwaysInv(es) && !Inv(Happened(es + [Save(0, true)]).files)
  {
    var resolved := ResolveInRun([], env, alias, b);
    var loaded := DeleteLoadsInRun(resolved, env, b);
    es := AliasInRun(loaded, alias, b);
    LateDeleteIsUnsafe(Happened(es), env, b, Happened(resolved).files);
    BreaksHere(es, Save(0, true));
  }

  lemma LateDeleteIsUnsafe(w: World, env: Env, b: string, seen: State)
    requires 0 in w.tasks && w.tasks[0] == Task(Delete(b), env, seen, 3) && IsNormal(env, b)
    requires b in seen.profiles && seen.aliases == map[] && seen.processes == map[] && Needed(w.files, b)
    ensures !Safe(w, Save(0, true))
  {
    assert CanDelete(seen, b) && b !in Written(w.tasks[0]);
  }
}
