/** Every command of pkg/codexplugin/manager.go, undisturbed, is a run of the loads and saves of RegistryRaces: the two
    models of the registry agree.
 */
module RegistryCommands {
  import opened Wrappers
  import opened Registry
  import opened RegistryRaces

  /** The world after these events. */
  ghost function Play(w: World, es: seq<Event>): World
    decreases |es|
  {
    if es == [] then w else Play(Happen(w, es[0]), es[1..])
  }

  lemma {:induction false} PlayAppend(w: World, a: seq<Event>, b: seq<Event>)
    ensures Play(w, a + b) == Play(Play(w, a), b)
    decreases |a|
  {
    if a == [] {
      assert a + b == b;
    } else {
      PlayAppend(Happen(w, a[0]), a[1..], b);
      assert (a + b)[0] == a[0] && (a + b)[1..] == a[1..] + b;
    }
  }

  lemma PlayOne(w: World, e: Event)
    ensures Play(w, [e]) == Happen(w, e)
  {
    assert [e][1..] == [];
    assert Play(Happen(w, e), []) == Happen(w, e);
  }

  lemma PlayTwo(w: World, e: Event, f: Event)
    ensures Play(w, [e, f]) == Happen(Happen(w, e), f)
  {
    PlayOne(Happen(w, e), f);
    assert [e, f][1..] == [f];
  }

  // ----- Commands without the lock --------------------------------------------------------------

  /** The effect of a command on the files, from its effect on the copy that it looked at. */
  ghost predicate ByCopy(s: State, t: Task, saves: Saves) {
    Apply(s, Step(t.command, t.env, saves)) == if saves(0) && Writes(t) then WriteProfiles(s, Outcome(t)) else s
  }

  lemma SetOnCopy(s: State, t: Task, saves: Saves)
    requires t.command.SetProfile? && t.loaded.profiles == s.profiles && t.loaded.active == s.active
    ensures ByCopy(s, t, saves)
  {
  }

  lemma ActivateOnCopy(s: State, t: Task, saves: Saves)
    requires t.command.Activate? && t.loaded.profiles == s.profiles && t.loaded.active == s.active
    ensures ByCopy(s, t, saves)
  {
  }

  lemma ReportOnCopy(s: State, t: Task, saves: Saves)
    requires t.command.Report? && t.loaded.profiles == s.profiles && t.loaded.active == s.active
    ensures ByCopy(s, t, saves)
  {
  }

  lemma DeleteOnCopy(s: State, t: Task, saves: Saves)
    requires t.command.Delete? && t.loaded == s
    ensures ByCopy(s, t, saves)
  {
  }

  lemma CommandOnCopy(s: State, t: Task, saves: Saves)
    requires Unlocked(t.command) && t.loaded.profiles == s.profiles && t.loaded.active == s.active
    requires t.command.Delete? ==> t.loaded == s
    ensures ByCopy(s, t, saves)
  {
    match t.command
    case SetProfile(_, _) => SetOnCopy(s, t, saves);
    case Activate(_) => ActivateOnCopy(s, t, saves);
    case Report(_, _) => ReportOnCopy(s, t, saves);
    case _ => DeleteOnCopy(s, t, saves);
  }

  lemma LoadAndSave(w: World, n: nat, c: Command, env: Env, ok: bool)
    requires n !in w.tasks && Unlocked(c) && !c.Delete?
    ensures Happen(Happen(w, Load(n, c, env)), Save(n, ok)) ==
              var t := Task(c, env, ProfileFile(w.files), 1);
              w.(files := if ok && Writes(t) then WriteProfiles(w.files, Outcome(t)) else w.files)
  {
    var t := Task(c, env, ProfileFile(w.files), 1);
    assert w.tasks[n := t] - {n} == w.tasks;
  }

  lemma LoadsOfDelete(w: World, n: nat, name: string, env: Env)
    requires n !in w.tasks
    ensures Happen(Happen(Happen(w, Load(n, Delete(name), env)), LoadTable(n)), LoadTable(n)) ==
              w.(tasks := w.tasks[n := Task(Delete(name), env, w.files, 3)])
  {
  }

  lemma SaveOfDelete(w: World, n: nat, t: Task, ok: bool)
    requires n !in w.tasks && t.command.Delete? && t.loads == 3
    ensures Happen(w.(tasks := w.tasks[n := t]), Save(n, ok)) ==
              w.(files := if ok && Writes(t) then WriteProfiles(w.files, Outcome(t)) else w.files)
  {
    assert w.tasks[n := t] - {n} == w.tasks;
  }

  /** Set, Activate, Delete, Status and ListRuntimes: the loads, then the save. */
  lemma UnlockedIsEvents(w: World, n: nat, step: Step) returns (es: seq<Event>)
    requires n !in w.tasks && Unlocked(step.command)
    ensures Play(w, es) == w.(files := Apply(w.files, step))
  {
    var c, env, ok := step.command, step.env, step.saves(0);
    if c.Delete? {
      var load, table := Load(n, c, env), LoadTable(n);
      var t := Task(c, env, w.files, 3);
      es := [load, table] + [table, Save(n, ok)];
      PlayAppend(w, [load, table], [table, Save(n, ok)]);
      PlayTwo(w, load, table);
      PlayTwo(Happen(Happen(w, load), table), table, Save(n, ok));
      LoadsOfDelete(w, n, c.name, env);
      SaveOfDelete(w, n, t, ok);
      CommandOnCopy(w.files, t, step.saves);
    } else {
      es := [Load(n, c, env), Save(n, ok)];
      PlayTwo(w, Load(n, c, env), Save(n, ok));
      LoadAndSave(w, n, c, env, ok);
      CommandOnCopy(w.files, Task(c, env, ProfileFile(w.files), 1), step.saves);
    }
  }

  // ----- The holder of the lock -----------------------------------------------------------------

  function Holding(w: World, h: Holder): World {
    w.(holder := Some(h))
  }

  function NewHolder(w: World, env: Env, alias: string): Holder {
    Holder(env, alias, w.files.aliases, None, None)
  }

  lemma LockTakes(w: World, env: Env, name: string, alias: string)
    requires w.holder == None && NormalizeAlias(env, name) == Some(alias)
    ensures Happen(w, Lock(env, name)) == Holding(w, NewHolder(w, env, alias))
  {
  }

  lemma UnlockReleases(w: World)
    requires w.holder.Some?
    ensures Happen(w, Unlock) == w.(holder := None)
  {
  }

  /** Load and save for a profile: the command ends without one, and otherwise goes on with it. */
  lemma ResolveEvents(w: World, h: Holder, req: ProfileRequest, fallback: string, ok: bool)
    requires w.holder == Some(h) && h.resolving == None
    ensures var (t, n) := ResolveAdminProfile(w.files, h.env, req, fallback, ok);
            Play(w, [LoadToResolve(req, fallback), SaveResolved(ok)]) ==
            if n == None then w.(holder := None)
            else World(t, w.tasks, Some(h.(admin := if h.admin.None? then n else h.admin)))
  {
    var r := Resolving(req, fallback, ProfileFile(w.files));
    PlayTwo(w, LoadToResolve(req, fallback), SaveResolved(ok));
    LoadsForHolder(w, h, req, fallback);
    SaveAfterLoad(Holding(w, h.(resolving := Some(r))), h, r, ok);
  }

  lemma LoadsForHolder(w: World, h: Holder, req: ProfileRequest, fallback: string)
    requires w.holder == Some(h)
    ensures Happen(w, LoadToResolve(req, fallback)) ==
              Holding(w, h.(resolving := Some(Resolving(req, fallback, ProfileFile(w.files)))))
  {
  }

  lemma SaveAfterLoad(w: World, h: Holder, r: Resolving, ok: bool)
    requires w.holder == Some(h.(resolving := Some(r))) && h.resolving == None && r.loaded == ProfileFile(w.files)
    ensures var (t, n) := ResolveAdminProfile(w.files, h.env, r.req, r.fallback, ok);
            Happen(w, SaveResolved(ok)) ==
            if n == None then w.(holder := None)
            else World(t, w.tasks, Some(h.(admin := if h.admin.None? then n else h.admin)))
  {
    ResolveOnCopy(w.files, h.env, r.req, r.fallback, ok);
    assert Happen(w, SaveResolved(ok)) == SaveForHolder(w, w.holder.value, r, ok);
  }

  // ----- Remove and Cleanup ---------------------------------------------------------------------

  lemma DropBoth(w: World, h: Holder, names: set<string>, both: bool) returns (es: seq<Event>)
    requires w.holder == Some(h)
    ensures Play(w, es) ==
              World(w.files.(aliases := w.files.aliases - names,
                             processes := if both then w.files.processes - names else w.files.processes),
                    w.tasks, None)
  {
    var w1 := Happen(w, DropAliases(names));
    if both {
      var w2 := Happen(w1, DropProcesses(names));
      es := [DropAliases(names), DropProcesses(names)] + [Unlock];
      PlayAppend(w, [DropAliases(names), DropProcesses(names)], [Unlock]);
      PlayTwo(w, DropAliases(names), DropProcesses(names));
      PlayOne(w2, Unlock);
    } else {
      es := [DropAliases(names), Unlock];
      PlayTwo(w, DropAliases(names), Unlock);
    }
  }

  lemma RemoveIsEvents(w: World, env: Env, name: string, cleared: bool, saves: Saves) returns (es: seq<Event>)
    requires w.holder == None
    ensures Play(w, es) == w.(files := Remove(w.files, env, name, cleared, saves))
  {
    var t := Remove(w.files, env, name, cleared, saves);
    if t == w.files {
      es := [];
    } else {
      var alias := NormalizeAlias(env, name).value;
      var h := NewHolder(w, env, alias);
      LockTakes(w, env, name, alias);
      var rest := DropBoth(Holding(w, h), h, {alias}, saves(4));
      es := [Lock(env, name)] + rest;
      PlayAppend(w, [Lock(env, name)], rest);
      PlayOne(w, Lock(env, name));
    }
  }

  /** Cleanup takes the lock under no particular name. */
  lemma CleanupIsEvents(w: World, local: string -> Local, apply: bool, saves: Saves) returns (es: seq<Event>)
    requires w.holder == None
    ensures Play(w, es) == w.(files := Cleanup(w.files, local, apply, saves))
  {
    if !apply || !saves(3) {
      es := [];
    } else {
      var env := Env(s => s, _ => true, "", "", "");
      var h := NewHolder(w, env, "x");
      LockTakes(w, env, "x", "x");
      var rest := DropBoth(Holding(w, h), h, Stale(w.files, local), saves(4));
      es := [Lock(env, "x")] + rest;
      PlayAppend(w, [Lock(env, "x")], rest);
      PlayOne(w, Lock(env, "x"));
    }
  }

  // ----- Stop -----------------------------------------------------------------------------------

  /** Once the profile is resolved: mark the process, or leave it, and release the lock. */
  lemma StopEvents(w: World, h: Holder, process: ProcessRecord, stopped: bool, saves: Saves) returns (es: seq<Event>)
    requires w.holder == Some(h) && process == ProcessAt(w.files, h.alias)
    ensures Play(w, es) == World(StopProcess(w.files, process, stopped, saves), w.tasks, None)
  {
    if StopProcess(w.files, process, stopped, saves) == w.files {
      es := [Unlock];
      PlayOne(w, Unlock);
    } else {
      es := [MarkStopped, Unlock];
      PlayTwo(w, MarkStopped, Unlock);
    }
  }

  lemma StopIsEvents(w: World, env: Env, name: string, req: ProfileRequest, stopped: bool, saves: Saves)
    returns (es: seq<Event>)
    requires w.holder == None
    ensures Play(w, es) == w.(files := Stop(w.files, env, name, req, stopped, saves))
  {
    if NormalizeAlias(env, name).None? || NormalizeAlias(env, name).value !in w.files.aliases {
      es := [];
    } else {
      var alias := NormalizeAlias(env, name).value;
      var recorded := w.files.aliases[alias].adminProfile;
      var begin, w1, admin := ResolveFirst(w, env, name, req, recorded, saves(0));
      ResolveKeepsTables(w.files, env, req, recorded, saves(0));
      if admin == None {
        es := begin;
      } else {
        var rest := StopEvents(w1, w1.holder.value, ProcessAt(w.files, alias), stopped, saves);
        es := begin + rest;
        PlayAppend(w, begin, rest);
      }
    }
  }

  lemma ResolveKeepsTables(s: State, env: Env, req: ProfileRequest, recorded: string, saved: bool)
    ensures var (t, n) := ResolveAdminProfile(s, env, req, recorded, saved);
            t.aliases == s.aliases && t.processes == s.processes && (n == None ==> t == s)
  {
  }

  /** The beginning of every command with the lock: take it, load the profile file, save it. */
  lemma ResolveFirst(w: World, env: Env, name: string, req: ProfileRequest, recorded: string, ok: bool)
    returns (es: seq<Event>, w1: World, admin: Option<string>)
    requires w.holder == None && NormalizeAlias(env, name).Some?
    ensures Play(w, es) == w1 && admin == ResolveAdminProfile(w.files, env, req, recorded, ok).1
    ensures admin == None ==> w1 == w
    ensures admin.Some? ==>
              w1 == World(ResolveAdminProfile(w.files, env, req, recorded, ok).0, w.tasks,
                          Some(NewHolder(w, env, NormalizeAlias(env, name).value).(admin := admin)))
  {
    var alias := NormalizeAlias(env, name).value;
    var h := NewHolder(w, env, alias);
    var rest := [LoadToResolve(req, recorded), SaveResolved(ok)];
    LockTakes(w, env, name, alias);
    ResolveEvents(Holding(w, h), h, req, recorded, ok);
    es := [Lock(env, name)] + rest;
    PlayAppend(w, [Lock(env, name)], rest);
    PlayOne(w, Lock(env, name));
    w1 := Play(w, es);
    admin := ResolveAdminProfile(w.files, env, req, recorded, ok).1;
  }

  // ----- The tunnel of a known alias ------------------------------------------------------------

  /** What ResolveTunnel does, as events; the command may end on the way, when the profile on record does not
      resolve. */
  lemma TunnelEvents(w: World, h: Holder, remote: Remote, saves: Saves) returns (es: seq<Event>)
    requires w.holder == Some(h) && h.resolving == None && h.admin.Some? && h.aliases == w.files.aliases
    ensures var (t, tunnel) := ResolveTunnel(w.files, h.env, h.alias, remote, saves);
            if Ends(w.files, h.env, h.alias, saves)
            then t == w.files && tunnel == None && Play(w, es) == w.(holder := None)
            else Play(w, es) == World(t, w.tasks, Some(h))
  {
    var s := w.files;
    if h.alias !in s.aliases || s.aliases[h.alias].tunnelId == "" {
      es := [];
    } else {
      var recorded := s.aliases[h.alias].adminProfile;
      var resolve := [LoadToResolve(NO_REQUEST, recorded), SaveResolved(saves(1))];
      ResolveEvents(w, h, NO_REQUEST, recorded, saves(1));
      ResolveKeepsTables(s, h.env, NO_REQUEST, recorded, saves(1));
      es := resolve;
      if !Ends(s, h.env, h.alias, saves) && remote.lookup.NotFound? && saves(2) {
        es := resolve + [ForgetAlias];
        PlayAppend(w, resolve, [ForgetAlias]);
        PlayOne(Play(w, resolve), ForgetAlias);
      }
    }
  }

  /** The profile on record for the alias does not resolve. */
  predicate Ends(s: State, env: Env, alias: string, saves: Saves) {
    && alias in s.aliases && s.aliases[alias].tunnelId != ""
    && ResolveAdminProfile(s, env, NO_REQUEST, s.aliases[alias].adminProfile, saves(1)).1 == None
  }

  // ----- Create ---------------------------------------------------------------------------------

  lemma CreateEvents(w: World, h: Holder, admin: string, loaded: map<string, AliasRecord>, remote: Remote, saves: Saves)
    returns (es: seq<Event>)
    requires w.holder == Some(h) && h.resolving == None && h.admin == Some(admin)
    requires h.aliases == w.files.aliases == loaded
    ensures Play(w, es) == World(CreateWith(w.files, loaded, h.env, h.alias, admin, remote, saves), w.tasks, None)
  {
    var first := TunnelEvents(w, h, remote, saves);
    var (s1, tunnel) := ResolveTunnel(w.files, h.env, h.alias, remote, saves);
    if Ends(w.files, h.env, h.alias, saves) {
      es := first;
    } else {
      var w1 := World(s1, w.tasks, Some(h));
      var rest := if tunnel == None || !saves(3) then [Unlock] else [SaveAliasRecord(tunnel.value, "", ""), Unlock];
      es := first + rest;
      PlayAppend(w, first, rest);
      if tunnel == None || !saves(3) {
        PlayOne(w1, Unlock);
      } else {
        PlayTwo(w1, SaveAliasRecord(tunnel.value, "", ""), Unlock);
      }
    }
  }

  lemma CreateIsEvents(w: World, env: Env, name: string, req: ProfileRequest, scope: bool, remote: Remote, saves: Saves)
    returns (es: seq<Event>)
    requires w.holder == None
    ensures Play(w, es) == w.(files := Create(w.files, env, name, req, scope, remote, saves))
  {
    if NormalizeAlias(env, name).None? || !scope {
      es := [];
    } else {
      var alias := NormalizeAlias(env, name).value;
      var recorded := AliasAt(w.files, alias).adminProfile;
      var begin, w1, admin := ResolveFirst(w, env, name, req, recorded, saves(0));
      ResolveKeepsTables(w.files, env, req, recorded, saves(0));
      if admin == None {
        es := begin;
      } else {
        var rest := CreateEvents(w1, w1.holder.value, admin.value, w.files.aliases, remote, saves);
        es := begin + rest;
        PlayAppend(w, begin, rest);
      }
    }
  }

  // ----- Connect --------------------------------------------------------------------------------

  lemma ConnectWithEvents(w: World, h: Holder, admin: string, tunnel: string, launch: Launch, saves: Saves)
    returns (es: seq<Event>)
    requires w.holder == Some(h) && h.admin == Some(admin)
    ensures Play(w, es) == World(ConnectWith(w.files, h.aliases, h.alias, tunnel, admin, launch, saves), w.tasks, None)
  {
    if launch.configPath == None || Blank(launch.configPath.value) || !saves(3) {
      es := [Unlock];
      PlayOne(w, Unlock);
    } else {
      var path := launch.configPath.value;
      var alias := SaveAliasRecord(tunnel, launch.profileName, path);
      var w1 := Happen(w, alias);
      if launch.mode == None || !saves(4) {
        es := [alias, Unlock];
        PlayTwo(w, alias, Unlock);
      } else {
        var process := SaveProcessRecord(tunnel, launch.profileName, path, launch.mode.value);
        es := [alias, process] + [Unlock];
        PlayAppend(w, [alias, process], [Unlock]);
        PlayTwo(w, alias, process);
        PlayOne(Happen(w1, process), Unlock);
      }
    }
  }

  lemma ConnectEvents(w: World, h: Holder, admin: string, t: Target, launch: Launch, saves: Saves)
    returns (es: seq<Event>)
    requires w.holder == Some(h) && h.resolving == None && h.admin == Some(admin) && h.aliases == w.files.aliases
    requires t.given.None? && Ends(w.files, h.env, h.alias, saves) ==> !t.fallBack
    ensures Play(w, es) == World(ConnectAs(w.files, h.aliases, h.env, h.alias, AliasAt(w.files, h.alias), admin, t,
                                           launch, saves), w.tasks, None)
  {
    var (s1, tunnel) := ConnectTunnel(w.files, h.env, h.alias, AliasAt(w.files, h.alias), t, saves);
    var first: seq<Event> := [];
    if t.given.None? {
      first := TunnelEvents(w, h, t.remote, saves);
    }
    if t.given.None? && Ends(w.files, h.env, h.alias, saves) {
      es := first;
    } else {
      var w1 := World(s1, w.tasks, Some(h));
      assert Play(w, first) == w1;
      var rest := [Unlock];
      if tunnel == None {
        PlayOne(w1, Unlock);
      } else {
        rest := ConnectWithEvents(w1, h, admin, tunnel.value, launch, saves);
      }
      es := first + rest;
      PlayAppend(w, first, rest);
    }
  }

  lemma ConnectIsEvents(w: World, env: Env, name: string, req: ProfileRequest, valid: bool, t: Target, launch: Launch,
                        saves: Saves) returns (es: seq<Event>)
    requires w.holder == None && Consistent(w.files, env, name, req, t, saves)
    ensures Play(w, es) == w.(files := Connect(w.files, env, name, req, valid, t, launch, saves))
  {
    if NormalizeAlias(env, name).None? || !valid {
      es := [];
    } else {
      var alias := NormalizeAlias(env, name).value;
      var recorded := AliasAt(w.files, alias).adminProfile;
      var begin, w1, admin := ResolveFirst(w, env, name, req, recorded, saves(0));
      ResolveKeepsTables(w.files, env, req, recorded, saves(0));
      if admin == None {
        es := begin;
      } else {
        var rest := ConnectEvents(w1, w1.holder.value, admin.value, t, launch, saves);
        es := begin + rest;
        PlayAppend(w, begin, rest);
      }
    }
  }

  /** Connect falls back on the tunnel on record only after the control plane was asked, never because the profile on
      record did not resolve. */
  predicate Consistent(s: State, env: Env, name: string, req: ProfileRequest, t: Target, saves: Saves) {
    t.given.None? && t.fallBack && NormalizeAlias(env, name).Some? ==>
      var alias := NormalizeAlias(env, name).value;
      var s1 := ResolveAdminProfile(s, env, req, AliasAt(s, alias).adminProfile, saves(0)).0;
      !Ends(s1, env, alias, saves)
  }

  // ----- All commands ---------------------------------------------------------------------------

  /** Undisturbed, every command is a run of events with the same effect on the files, which leaves the lock free. */
  lemma CommandsAreEvents(w: World, n: nat, step: Step) returns (es: seq<Event>)
    requires w.holder == None && n !in w.tasks
    requires step.command.ConnectAlias? ==>
               Consistent(w.files, step.env, step.command.name, step.command.req, step.command.target, step.saves)
    ensures Play(w, es) == w.(files := Apply(w.files, step))
  {
    var env, saves := step.env, step.saves;
    match step.command
    case CreateAlias(name, req, scope, remote) => es := CreateIsEvents(w, env, name, req, scope, remote, saves);
    case ConnectAlias(name, req, valid, target, launch) =>
      es := ConnectIsEvents(w, env, name, req, valid, target, launch, saves);
    case StopAlias(name, req, stopped) => es := StopIsEvents(w, env, name, req, stopped, saves);
    case RemoveAlias(name, cleared) => es := RemoveIsEvents(w, env, name, cleared, saves);
    case CleanupAll(local, apply) => es := CleanupIsEvents(w, local, apply, saves);
    case _ => es := UnlockedIsEvents(w, n, step);
  }
}
