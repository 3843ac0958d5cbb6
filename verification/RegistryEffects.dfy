/** What the commands of pkg/codexplugin/manager.go record, after any run: which fields an admin profile gets, which
    tunnel, profile and mode an alias and its process carry.
 */
module RegistryEffects {
  import opened Wrappers
  import opened Text
  import opened Registry

  // ----- The first value that is not blank ------------------------------------------------------

  ghost predicate IsFirst(values: seq<string>, r: string) {
    if forall i :: 0 <= i < |values| ==> Blank(values[i]) then r == ""
    else exists k :: 0 <= k < |values| && !Blank(values[k]) && r == TrimSpace(values[k])
                     && forall i :: 0 <= i < k ==> Blank(values[i])
  }

  lemma {:induction false} FirstIsFirst(values: seq<string>)
    ensures IsFirst(values, FirstNonEmpty(values))
  {
    if values != [] {
      var rest := values[1..];
      FirstIsFirst(rest);
      if Blank(values[0]) {
        if k :| 0 <= k < |rest| && !Blank(rest[k]) && FirstNonEmpty(rest) == TrimSpace(rest[k])
                && forall i :: 0 <= i < k ==> Blank(rest[i]) {
          assert values[k + 1] == rest[k];
          forall i | 0 <= i < k + 1 ensures Blank(values[i]) {
            if i > 0 { assert values[i] == rest[i - 1]; }
          }
        } else {
          forall i | 0 <= i < |values| ensures Blank(values[i]) {
            if i > 0 { assert values[i] == rest[i - 1]; }
          }
        }
      }
    }
  }

  lemma FirstOfFour(a: string, b: string, c: string, d: string)
    ensures FirstNonEmpty([a, b, c, d]) ==
              if !Blank(a) then TrimSpace(a) else if !Blank(b) then TrimSpace(b)
              else if !Blank(c) then TrimSpace(c) else if !Blank(d) then TrimSpace(d) else ""
  {
    FirstOfThree(b, c, d);
    assert [a, b, c, d][1..] == [b, c, d];
  }

  lemma FirstOfThree(a: string, b: string, c: string)
    ensures FirstNonEmpty([a, b, c]) ==
              if !Blank(a) then TrimSpace(a) else if !Blank(b) then TrimSpace(b)
              else if !Blank(c) then TrimSpace(c) else ""
  {
    assert [a, b, c][1..] == [b, c] && [b, c][1..] == [c] && [c][1..] == [];
    assert FirstNonEmpty([c]) == if !Blank(c) then TrimSpace(c) else "";
    assert FirstNonEmpty([b, c]) == if !Blank(b) then TrimSpace(b) else FirstNonEmpty([c]);
  }

  // ----- The fields of a profile ----------------------------------------------------------------

  /** The field is the requested one, or else the saved one, or else that of the environment, or else the default. */
  ghost predicate Filled(field: string, requested: string, saved: string, variable: string, standard: string) {
    && (!Blank(requested) ==> field == TrimSpace(requested))
    && (Blank(requested) && !Blank(saved) ==> field == TrimSpace(saved))
    && (Blank(requested) && Blank(saved) && !Blank(variable) ==> field == TrimSpace(variable))
    && (Blank(requested) && Blank(saved) && Blank(variable) ==> field == TrimSpace(standard))
  }

  ghost predicate FilledFrom(p: AdminProfile, n: string, req: ProfileRequest, saved: AdminProfile, env: Env) {
    && p.name == n
    && Filled(p.baseUrl, req.baseUrl, saved.baseUrl, env.baseUrlVar, DEFAULT_BASE_URL)
    && Filled(p.urlPath, req.urlPath, saved.urlPath, env.urlPathVar, "")
    && Filled(p.adminKey, req.adminKey, saved.adminKey, "", DEFAULT_ADMIN_KEY)
  }

  lemma BlankIsEmpty(s: string)
    ensures Blank(s) ==> TrimSpace(s) == ""
    ensures TrimSpace("") == "" && Blank("")
  {
  }

  lemma ResolvedIsFilled(s: State, env: Env, n: string, req: ProfileRequest)
    ensures FilledFrom(Resolved(s, env, n, req), n, req, ProfileAt(s, n), env)
  {
    var saved := ProfileAt(s, n);
    FirstOfFour(req.baseUrl, saved.baseUrl, env.baseUrlVar, DEFAULT_BASE_URL);
    FirstOfThree(req.urlPath, saved.urlPath, env.urlPathVar);
    FirstOfThree(req.adminKey, saved.adminKey, DEFAULT_ADMIN_KEY);
    BlankIsEmpty("");
  }

  // ----- Set, Activate, Delete ------------------------------------------------------------------

  /** From s to t nothing but profile n and the active name changed. */
  ghost predicate OnlyProfile(s: State, t: State, n: string) {
    t.aliases == s.aliases && t.processes == s.processes && t.profiles - {n} == s.profiles - {n}
  }

  lemma SetCases(s: State, env: Env, req: ProfileRequest, activate: bool, saved: bool, n: string)
    requires NormalizeAlias(env, req.name) == Some(n)
    ensures var t, p := SetAdminProfile(s, env, req, activate, saved), Resolved(s, env, n, req);
            && OnlyProfile(s, t, n)
            && if saved && env.validSecret(p.adminKey)
               then && n in t.profiles && t.profiles[n] == p
                    && t.active == (if activate || s.active == "" then n else s.active)
               else t == s
  {
  }

  /** After any run, Set saves what was asked for, and what was not is filled from the saved profile, the environment
      and the defaults; the profile becomes active if wanted, or if none was. A bad key or a failed save changes
      nothing. */
  lemma SetSaves(steps: seq<Step>, env: Env, req: ProfileRequest, activate: bool, saved: bool) returns (p: AdminProfile)
    requires NormalizeAlias(env, req.name).Some?
    ensures var s, n := Run(steps), NormalizeAlias(env, req.name).value;
            var t := SetAdminProfile(s, env, req, activate, saved);
            && FilledFrom(p, n, req, ProfileAt(s, n), env)
            && OnlyProfile(s, t, n)
            && if saved && env.validSecret(p.adminKey)
               then && n in t.profiles && t.profiles[n] == p
                    && t.active == (if activate || s.active == "" then n else s.active)
               else t == s
  {
    var s, n := Run(steps), NormalizeAlias(env, req.name).value;
    p := Resolved(s, env, n, req);
    ResolvedIsFilled(s, env, n, req);
    SetCases(s, env, req, activate, saved, n);
  }

  /** After any run, Activate makes exactly a known profile active and changes nothing else. */
  lemma ActivateIff(steps: seq<Step>, env: Env, name: string)
    requires NormalizeAlias(env, name).Some?
    ensures var s, n := Run(steps), NormalizeAlias(env, name).value;
            ActivateAdminProfile(s, env, name, true) == if n in s.profiles then s.(active := n) else s
    ensures ActivateAdminProfile(Run(steps), env, name, false) == Run(steps)
  {
  }

  /** After any run, Delete touches no other profile and no table, and the active profile only if it is the one. */
  lemma DeleteTouchesOne(steps: seq<Step>, env: Env, name: string, saved: bool)
    requires NormalizeAlias(env, name).Some?
    ensures var s, n := Run(steps), NormalizeAlias(env, name).value;
            var t := AfterDelete(s, env, name, saved);
            && OnlyProfile(s, t, n) && (s.active != n ==> t.active == s.active) && (!saved ==> t == s)
            && (n in t.profiles ==> t == s)
  {
  }

  // ----- Resolving a profile --------------------------------------------------------------------

  /** The name that a command works with: the requested one, else the one recorded, else that of the environment. */
  ghost predicate NamedBy(n: string, env: Env, requested: string, recorded: string) {
    exists raw ::
      IsFirst([requested, recorded, env.profileVar, DEFAULT_PROFILE], raw) && NormalizeAlias(env, raw) == Some(n)
  }

  lemma ResolveIsNamed(s: State, env: Env, req: ProfileRequest, recorded: string, saved: bool)
    ensures var (t, n) := ResolveAdminProfile(s, env, req, recorded, saved);
            n.Some? ==> n.value in t.profiles && NamedBy(n.value, env, req.name, recorded)
  {
    FirstIsFirst([req.name, recorded, env.profileVar, DEFAULT_PROFILE]);
  }

  predicate SameFields(p: AdminProfile, q: AdminProfile) {
    p.baseUrl == q.baseUrl && p.urlPath == q.urlPath && p.adminKey == q.adminKey
  }

  /** The profile n of t is p, saved and made active, unless s had it just so already. */
  ghost predicate SavedAs(s: State, t: State, n: string, p: AdminProfile) {
    && n in t.profiles && SameFields(t.profiles[n], p) && t.profiles - {n} == s.profiles - {n}
    && t.aliases == s.aliases && t.processes == s.processes
    && (t == s || (t.active == n && t.profiles[n] == p))
  }

  lemma ResolveCases(s: State, env: Env, req: ProfileRequest, recorded: string, saved: bool, n: string)
    requires NormalizeAlias(env, RequestedName(env, req.name, recorded)) == Some(n)
    ensures var (t, m) := ResolveAdminProfile(s, env, req, recorded, saved);
            var p := Resolved(s, env, n, req);
            && (m.None? ==> t == s && (!saved || !env.validSecret(p.adminKey)))
            && (m.Some? ==> m == Some(n) && env.validSecret(p.adminKey) && SavedAs(s, t, n, p) && (saved || t == s))
  {
  }

  /** Resolving saves and activates the filled profile, unless it is saved just so already; it fails exactly for a name
      that is not one, a bad key or a failed save, and then changes nothing. */
  lemma ResolveSaves(s: State, env: Env, req: ProfileRequest, recorded: string, saved: bool) returns (p: AdminProfile)
    ensures var (t, m) := ResolveAdminProfile(s, env, req, recorded, saved);
            if m.None? then t == s
            else && NamedBy(m.value, env, req.name, recorded)
                 && FilledFrom(p, m.value, req, ProfileAt(s, m.value), env) && env.validSecret(p.adminKey)
                 && SavedAs(s, t, m.value, p) && (saved || t == s)
  {
    var raw := RequestedName(env, req.name, recorded);
    p := NO_PROFILE;
    if NormalizeAlias(env, raw).Some? {
      var n := NormalizeAlias(env, raw).value;
      p := Resolved(s, env, n, req);
      ResolveIsNamed(s, env, req, recorded, saved);
      ResolvedIsFilled(s, env, n, req);
      ResolveCases(s, env, req, recorded, saved, n);
    }
  }

  // ----- Which tunnel ---------------------------------------------------------------------------

  /** The alias has a tunnel on record, whose own profile can be resolved. */
  ghost predicate KnownTunnel(s: State, env: Env, alias: string) {
    && alias in s.aliases && s.aliases[alias].tunnelId != ""
    && ResolveAdminProfile(s, env, NO_REQUEST, s.aliases[alias].adminProfile, true).1.Some?
  }

  predicate NoTunnel(s: State, alias: string) {
    alias in s.aliases ==> s.aliases[alias].tunnelId == ""
  }

  /** The tunnel that the control plane knows for the alias, or else the one it found by name or created. */
  lemma TunnelFound(s: State, env: Env, alias: string, remote: Remote, saves: Saves)
    requires forall i :: saves(i)
    ensures var (t, id) := ResolveTunnel(s, env, alias, remote, saves);
            && (t.aliases == s.aliases || t.aliases == s.aliases - {alias})
            && (NoTunnel(s, alias) ==> id == remote.created && t == s)
            && (KnownTunnel(s, env, alias) ==>
                  && (remote.lookup.Found? ==> id == Some(remote.lookup.tunnelId) && t.aliases == s.aliases)
                  && (remote.lookup.Failed? ==> id == None && t.aliases == s.aliases)
                  && (remote.lookup.NotFound? ==> id == remote.created && t.aliases == s.aliases - {alias}))
            && t.processes == s.processes
  {
    if alias in s.aliases && s.aliases[alias].tunnelId != "" {
      ResolveLeavesTables(s, env, NO_REQUEST, s.aliases[alias].adminProfile, saves(1));
    }
  }

  /** What Connect and Create go by: a given tunnel, the one on record if the control plane still knows it, the one
      found or created, or at last the one on record. */
  ghost predicate Chosen(tunnel: string, s: State, env: Env, alias: string, t: Target) {
    && (t.given.Some? ==> t.given == Some(tunnel))
    && (t.given.None? && KnownTunnel(s, env, alias) && t.remote.lookup.Found? ==> tunnel == t.remote.lookup.tunnelId)
    && (t.given.None? && KnownTunnel(s, env, alias) && t.remote.lookup.NotFound? && t.remote.created.Some? ==>
          t.remote.created == Some(tunnel))
    && (t.given.None? && NoTunnel(s, alias) ==> t.remote.created == Some(tunnel))
    && (t.given.None? && KnownTunnel(s, env, alias) && !t.remote.lookup.Found? && t.remote.created.None? ==>
          tunnel == s.aliases[alias].tunnelId)
  }

  /** A tunnel can be had: a given one that is well formed, or one that the control plane knows, finds or creates, or
      one on record to fall back on. */
  ghost predicate Obtainable(s: State, env: Env, alias: string, t: Target) {
    if t.given.Some? then t.wellFormed
    else if NoTunnel(s, alias) then t.remote.created.Some?
    else
      || t.fallBack
      || (KnownTunnel(s, env, alias)
          && (t.remote.lookup.Found? || (t.remote.lookup.NotFound? && t.remote.created.Some?)))
  }

  lemma ConnectChooses(s: State, env: Env, alias: string, previous: AliasRecord, t: Target, saves: Saves)
    requires (forall i :: saves(i)) && previous == AliasAt(s, alias)
    ensures var (s', id) := ConnectTunnel(s, env, alias, previous, t, saves);
            && (id.Some? <==> Obtainable(s, env, alias, t))
            && (id.Some? ==> Chosen(id.value, s, env, alias, t))
            && s'.processes == s.processes
  {
    if alias in s.aliases && s.aliases[alias].tunnelId != "" && !KnownTunnel(s, env, alias) {
      assert saves(1);
    }
    TunnelFound(s, env, alias, t.remote, saves);
  }

  // ----- Connect and Create ---------------------------------------------------------------------

  /** Everything that Connect needs before it chooses a tunnel is in order. */
  ghost predicate Prepared(s: State, env: Env, alias: string, req: ProfileRequest, saves: Saves) {
    (forall i :: saves(i)) && ResolveAdminProfile(s, env, req, AliasAt(s, alias).adminProfile, true).1.Some?
  }

  lemma ConnectWithRecords(s: State, loaded: map<string, AliasRecord>, alias: string, tunnel: string, admin: string,
                           launch: Launch, saves: Saves)
    requires (forall i :: saves(i)) && launch.configPath.Some? && !Blank(launch.configPath.value) && launch.mode.Some?
    ensures var t, path := ConnectWith(s, loaded, alias, tunnel, admin, launch, saves), launch.configPath.value;
            && alias in t.aliases && t.aliases[alias] == AliasRecord(alias, tunnel, admin, launch.profileName, path)
            && alias in t.processes
            && t.processes[alias] == ProcessRecord(alias, tunnel, admin, launch.profileName, path, launch.mode.value)
  {
  }

  /** What a successful Connect or Create leaves: the record, its profile saved under the name that was asked for. */
  ghost predicate ProfileOf(t: State, admin: string, env: Env, req: ProfileRequest, recorded: string) {
    admin in t.profiles && NamedBy(admin, env, req.name, recorded)
  }

  lemma ConnectSteps(s: State, env: Env, name: string, req: ProfileRequest, target: Target, launch: Launch,
                     saves: Saves) returns (s1: State, admin: string, s2: State, tunnel: Option<string>)
    requires NormalizeAlias(env, name).Some? && Prepared(s, env, NormalizeAlias(env, name).value, req, saves)
    ensures var alias := NormalizeAlias(env, name).value;
            && ResolveAdminProfile(s, env, req, AliasAt(s, alias).adminProfile, true) == (s1, Some(admin))
            && ConnectTunnel(s1, env, alias, AliasAt(s1, alias), target, saves) == (s2, tunnel)
            && s1.aliases == s.aliases && s1.processes == s.processes
            && Connect(s, env, name, req, true, target, launch, saves) ==
               if tunnel == None then s2 else ConnectWith(s2, s.aliases, alias, tunnel.value, admin, launch, saves)
  {
    var alias := NormalizeAlias(env, name).value;
    var recorded := AliasAt(s, alias).adminProfile;
    ResolveLeavesTables(s, env, req, recorded, true);
    var resolved := ResolveAdminProfile(s, env, req, recorded, true);
    s1, admin := resolved.0, resolved.1.value;
    var chosen := ConnectTunnel(s1, env, alias, AliasAt(s1, alias), target, saves);
    s2, tunnel := chosen.0, chosen.1;
    assert saves(0);
  }

  lemma ResolveLeavesTables(s: State, env: Env, req: ProfileRequest, recorded: string, saved: bool)
    ensures var t := ResolveAdminProfile(s, env, req, recorded, saved).0;
            t.aliases == s.aliases && t.processes == s.processes && s.profiles.Keys <= t.profiles.Keys
  {
  }

  /** After any run, when the profile resolves, all saves and the launch succeed: if a tunnel can be had, the alias and
      its process both carry that tunnel, the resolved profile, the profile file and the mode of the launch; otherwise
      no process is recorded. */
  lemma ConnectRecords(steps: seq<Step>, env: Env, name: string, req: ProfileRequest, target: Target, launch: Launch,
                       saves: Saves) returns (s1: State, admin: string, tunnel: string)
    requires NormalizeAlias(env, name).Some? && Prepared(Run(steps), env, NormalizeAlias(env, name).value, req, saves)
    requires launch.configPath.Some? && !Blank(launch.configPath.value) && launch.mode.Some?
    ensures var s, alias, path := Run(steps), NormalizeAlias(env, name).value, launch.configPath.value;
            var t := Connect(s, env, name, req, true, target, launch, saves);
            && s1.aliases == s.aliases && ProfileOf(s1, admin, env, req, AliasAt(s, alias).adminProfile)
            && if Obtainable(s1, env, alias, target) then
                 && Chosen(tunnel, s1, env, alias, target)
                 && alias in t.aliases
                 && t.aliases[alias] == AliasRecord(alias, tunnel, admin, launch.profileName, path)
                 && alias in t.processes
                 && t.processes[alias] ==
                      ProcessRecord(alias, tunnel, admin, launch.profileName, path, launch.mode.value)
               else t.processes == s.processes
  {
    var s, alias := Run(steps), NormalizeAlias(env, name).value;
    var s2, id;
    s1, admin, s2, id := ConnectSteps(s, env, name, req, target, launch, saves);
    ResolveIsNamed(s, env, req, AliasAt(s, alias).adminProfile, true);
    ConnectChooses(s1, env, alias, AliasAt(s1, alias), target, saves);
    tunnel := if id.Some? then id.value else "";
    ConnectWithRecords(s2, s.aliases, alias, tunnel, admin, launch, saves);
  }

  /** After any run, when the profile resolves and all saves succeed, Create records the tunnel that the control plane
      still knows, found by name or created, with the resolved profile and no runtime; and it starts nothing. */
  lemma CreateRecords(steps: seq<Step>, env: Env, name: string, req: ProfileRequest, remote: Remote, saves: Saves)
    returns (s1: State, admin: string, tunnel: string)
    requires NormalizeAlias(env, name).Some? && Prepared(Run(steps), env, NormalizeAlias(env, name).value, req, saves)
    ensures var s, alias, target := Run(steps), NormalizeAlias(env, name).value, Target(None, false, remote, false);
            var t := Create(s, env, name, req, true, remote, saves);
            && s1.aliases == s.aliases && ProfileOf(s1, admin, env, req, AliasAt(s, alias).adminProfile)
            && t.processes == s.processes
            && if Obtainable(s1, env, alias, target) then
                 && Chosen(tunnel, s1, env, alias, target)
                 && alias in t.aliases && t.aliases[alias] == AliasRecord(alias, tunnel, admin, "", "")
                 && t.aliases - {alias} == s.aliases - {alias}
               else alias in t.aliases ==> alias in s.aliases && t.aliases == s.aliases
  {
    var s, alias := Run(steps), NormalizeAlias(env, name).value;
    var target := Target(None, false, remote, false);
    var recorded := AliasAt(s, alias).adminProfile;
    ResolveIsNamed(s, env, req, recorded, true);
    ResolveLeavesTables(s, env, req, recorded, true);
    var resolved := ResolveAdminProfile(s, env, req, recorded, true);
    s1, admin := resolved.0, resolved.1.value;
    TunnelFound(s1, env, alias, remote, saves);
    ConnectChooses(s1, env, alias, AliasAt(s1, alias), target, saves);
    var id := ResolveTunnel(s1, env, alias, remote, saves).1;
    tunnel := if id.Some? then id.value else "";
    CreateFrom(s, s1, env, name, req, admin, remote, saves);
    CreateOutcome(s, ResolveTunnel(s1, env, alias, remote, saves).0, alias, id, admin);
  }

  lemma CreateOutcome(s: State, s2: State, alias: string, id: Option<string>, admin: string)
    requires s2.processes == s.processes && (s2.aliases == s.aliases || s2.aliases == s.aliases - {alias})
    ensures var t := if id == None then s2 else SaveAlias(s2, s.aliases, AliasRecord(alias, id.value, admin, "", ""));
            && t.processes == s.processes
            && (id.Some? ==>
                  && alias in t.aliases && t.aliases[alias] == AliasRecord(alias, id.value, admin, "", "")
                  && t.aliases - {alias} == s.aliases - {alias})
            && (id.None? && alias in t.aliases ==> t.aliases == s.aliases)
  {
  }

  lemma CreateFrom(s: State, s1: State, env: Env, name: string, req: ProfileRequest, admin: string, remote: Remote,
                   saves: Saves)
    requires NormalizeAlias(env, name).Some? && forall i :: saves(i)
    requires ResolveAdminProfile(s, env, req, AliasAt(s, NormalizeAlias(env, name).value).adminProfile, true)
             == (s1, Some(admin))
    ensures var alias := NormalizeAlias(env, name).value;
            var (s2, id) := ResolveTunnel(s1, env, alias, remote, saves);
            Create(s, env, name, req, true, remote, saves) ==
            if id == None then s2 else SaveAlias(s2, s.aliases, AliasRecord(alias, id.value, admin, "", ""))
  {
    assert saves(0) && saves(3);
  }

  // ----- Stop, Remove ---------------------------------------------------------------------------

  /** After any run, Stop of a known alias whose profile resolves marks its process stopped exactly if the runtime could
      be stopped, or was stopped already, and touches nothing else in the tables. */
  lemma StopIff(steps: seq<Step>, env: Env, name: string, req: ProfileRequest, stopped: bool, saves: Saves)
    requires NormalizeAlias(env, name).Some? && (forall i :: saves(i))
    requires var s, alias := Run(steps), NormalizeAlias(env, name).value;
             alias in s.aliases && ResolveAdminProfile(s, env, req, s.aliases[alias].adminProfile, true).1.Some?
    ensures var s, alias := Run(steps), NormalizeAlias(env, name).value;
            var t := Stop(s, env, name, req, stopped, saves);
            && t.aliases == s.aliases && t.processes.Keys == s.processes.Keys
            && t.processes - {alias} == s.processes - {alias}
            && (alias in s.processes ==>
                  t.processes[alias] == if stopped || s.processes[alias].mode == STOPPED
                                        then s.processes[alias].(mode := STOPPED) else s.processes[alias])
  {
    var s, alias := Run(steps), NormalizeAlias(env, name).value;
    RunKeepsInv(steps);
    ResolveLeavesTables(s, env, req, s.aliases[alias].adminProfile, true);
    assert saves(0) && saves(4);
    var s1 := ResolveAdminProfile(s, env, req, s.aliases[alias].adminProfile, true).0;
    if alias in s.processes {
      assert ProcessSaved(alias, s.processes[alias], s.profiles);
    }
    StopRecords(s1, alias, stopped, saves);
    StopFrom(s, s1, env, name, req, stopped, saves);
  }

  lemma StopFrom(s: State, s1: State, env: Env, name: string, req: ProfileRequest, stopped: bool, saves: Saves)
    requires NormalizeAlias(env, name).Some? && NormalizeAlias(env, name).value in s.aliases && saves(0)
    requires var alias := NormalizeAlias(env, name).value;
             var r := ResolveAdminProfile(s, env, req, s.aliases[alias].adminProfile, true);
             r.0 == s1 && r.1.Some?
    ensures Stop(s, env, name, req, stopped, saves) ==
              StopProcess(s1, ProcessAt(s, NormalizeAlias(env, name).value), stopped, saves)
  {
  }

  lemma StopRecords(s: State, alias: string, stopped: bool, saves: Saves)
    requires saves(4) && (alias in s.processes ==> s.processes[alias].alias == alias != "")
    ensures var t := StopProcess(s, ProcessAt(s, alias), stopped, saves);
            && t.aliases == s.aliases && t.processes.Keys == s.processes.Keys
            && t.processes - {alias} == s.processes - {alias}
            && (alias in s.processes ==>
                  t.processes[alias] == if stopped || s.processes[alias].mode == STOPPED
                                        then s.processes[alias].(mode := STOPPED) else s.processes[alias])
  {
  }

  /** After any run, Remove changes nothing if the files of the alias could not be removed or the first save failed, and
      it never touches profiles. */
  lemma RemoveNeedsFiles(steps: seq<Step>, env: Env, name: string, cleared: bool, saves: Saves)
    ensures var s := Run(steps);
            var t := Remove(s, env, name, cleared, saves);
            && (!cleared || !saves(3) ==> t == s) && t.profiles == s.profiles && t.active == s.active
  {
  }
}
