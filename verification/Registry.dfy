/** The runtime and admin-profile registry of pkg/codexplugin/manager.go: three state files that refer to one
    another, changed by commands whose saves can fail half-way.
 */
module Registry {
  import opened Wrappers
  import opened Text
  import opened SortedText

  const DEFAULT_PROFILE := "default"
  const DEFAULT_BASE_URL := "https://api.openai.com"
  const DEFAULT_ADMIN_KEY := "env:OPENAI_ADMIN_KEY"
  const STOPPED := "stopped"

  datatype AdminProfile = AdminProfile(name: string, baseUrl: string, urlPath: string, adminKey: string)

  datatype AliasRecord =
    AliasRecord(alias: string, tunnelId: string, adminProfile: string, profileName: string, profilePath: string)

  datatype ProcessRecord = ProcessRecord(
    alias: string, tunnelId: string, adminProfile: string, profileName: string, profilePath: string, mode: string)

  /** What a Go map yields for a missing key. */
  const NO_PROFILE := AdminProfile("", "", "", "")
  const NO_ALIAS := AliasRecord("", "", "", "", "")
  const NO_PROCESS := ProcessRecord("", "", "", "", "", "")

  /** The contents of the state files. */
  datatype State = State(
    profiles: map<string, AdminProfile>,
    active: string,
    aliases: map<string, AliasRecord>,
    processes: map<string, ProcessRecord>)

  const EMPTY := State(map[], "", map[], map[])

  function ProfileAt(s: State, n: string): AdminProfile {
    if n in s.profiles then s.profiles[n] else NO_PROFILE
  }

  function AliasAt(s: State, n: string): AliasRecord {
    if n in s.aliases then s.aliases[n] else NO_ALIAS
  }

  function ProcessAt(s: State, n: string): ProcessRecord {
    if n in s.processes then s.processes[n] else NO_PROCESS
  }

  /** Environment variables and library functions: `simplify` is the rewriting part of NormalizeAlias. */
  datatype Env = Env(
    simplify: string -> string, validSecret: string -> bool,
    profileVar: string, baseUrlVar: string, urlPathVar: string)

  datatype ProfileRequest = ProfileRequest(name: string, baseUrl: string, urlPath: string, adminKey: string)

  function NormalizeAlias(env: Env, name: string): Option<string> {
    if env.simplify(name) == "" then None else Some(env.simplify(name))
  }

  predicate Blank(s: string) {
    TrimSpace(s) == ""
  }

  /** The first value that is not blank, trimmed. */
  function FirstNonEmpty(values: seq<string>): string {
    if values == [] then ""
    else if !Blank(values[0]) then TrimSpace(values[0])
    else FirstNonEmpty(values[1..])
  }

  /** The profile a request resolves to, filled from the saved one, the environment and the defaults. */
  function Resolved(s: State, env: Env, n: string, req: ProfileRequest): AdminProfile {
    var existing := ProfileAt(s, n);
    AdminProfile(
      n,
      FirstNonEmpty([req.baseUrl, existing.baseUrl, env.baseUrlVar, DEFAULT_BASE_URL]),
      FirstNonEmpty([req.urlPath, existing.urlPath, env.urlPathVar]),
      FirstNonEmpty([req.adminKey, existing.adminKey, DEFAULT_ADMIN_KEY]))
  }

  // ----- Commands -------------------------------------------------------------------------------

  function SetAdminProfile(s: State, env: Env, req: ProfileRequest, activate: bool, saved: bool): State {
    match NormalizeAlias(env, req.name)
    case None => s
    case Some(n) =>
      var profile := Resolved(s, env, n, req);
      if !env.validSecret(profile.adminKey) || !saved then s
      else s.(profiles := s.profiles[n := profile], active := if activate || s.active == "" then n else s.active)
  }

  function ActivateAdminProfile(s: State, env: Env, name: string, saved: bool): State {
    match NormalizeAlias(env, name)
    case None => s
    case Some(n) => if n in s.profiles && saved then s.(active := n) else s
  }

  ghost predicate ReferencedByAlias(s: State, n: string) {
    exists a :: a in s.aliases && s.aliases[a].adminProfile == n
  }

  predicate Blocks(p: ProcessRecord, n: string) {
    p.adminProfile == n && p.alias != "" && p.mode != STOPPED
  }

  ghost predicate ReferencedByProcess(s: State, n: string) {
    exists a :: a in s.processes && Blocks(s.processes[a], n)
  }

  ghost predicate IsLeast(n: string, names: set<string>) {
    n in names && forall m :: m in names ==> CompareText(n, m) <= 0
  }

  /** The first name in sorted order, or none. */
  ghost function FirstName(names: set<string>): (r: string)
    ensures names != {} ==> IsLeast(r, names)
  {
    if names == {} then "" else
      LeastExists(names);
      var n :| IsLeast(n, names);
      n
  }

  ghost function WithoutProfile(s: State, n: string): State {
    var left := s.profiles - {n};
    s.(profiles := left, active := if s.active == n then FirstName(left.Keys) else s.active)
  }

  ghost predicate CanDelete(s: State, n: string) {
    n in s.profiles && !ReferencedByAlias(s, n) && !ReferencedByProcess(s, n)
  }

  ghost function AfterDelete(s: State, env: Env, name: string, saved: bool): State {
    match NormalizeAlias(env, name)
    case None => s
    case Some(n) => if CanDelete(s, n) && saved then WithoutProfile(s, n) else s
  }

  function RequestedName(env: Env, requested: string, fallback: string): string {
    FirstNonEmpty([requested, fallback, env.profileVar, DEFAULT_PROFILE])
  }

  predicate Outdated(existing: AdminProfile, p: AdminProfile) {
    || existing.name == "" || existing.baseUrl != p.baseUrl
    || existing.urlPath != p.urlPath || existing.adminKey != p.adminKey
  }

  /** A new or changed profile is saved and made active. */
  function ResolveAdminProfile(s: State, env: Env, req: ProfileRequest, fallback: string, saved: bool): (State,
                               Option<string>)
  {
    match NormalizeAlias(env, RequestedName(env, req.name, fallback))
    case None => (s, None)
    case Some(n) =>
      var profile := Resolved(s, env, n, req);
      if !env.validSecret(profile.adminKey) then (s, None)
      else if !Outdated(ProfileAt(s, n), profile) then (s, Some(n))
      else if !saved then (s, None)
      else (s.(profiles := s.profiles[n := profile], active := n), Some(n))
  }

  /** Answers of the control plane: to the lookup of a known tunnel, then to the search or creation. */
  datatype Remote = Remote(lookup: Lookup, created: Option<string>)
  datatype Lookup = Found(tunnelId: string) | NotFound | Failed

  const NO_REQUEST := ProfileRequest("", "", "", "")

  /** The outcome of each save of a command, in program order. */
  type Saves = nat -> bool

  /** What the control plane says about the tunnel of a known alias, once its profile is resolved. */
  function AfterLookup(s: State, alias: string, admin: Option<string>, remote: Remote, saves: Saves)
    : (State, Option<string>)
  {
    if admin == None then (s, None)
    else match remote.lookup
         case Found(id) => (s, Some(id))
         case Failed => (s, None)
         case NotFound => if !saves(2) then (s, None) else (Forget(s, alias), remote.created)
  }

  function Forget(s: State, alias: string): State {
    s.(aliases := s.aliases - {alias})
  }

  function ResolveTunnel(s: State, env: Env, alias: string, remote: Remote, saves: Saves): (State, Option<string>) {
    var existing := AliasAt(s, alias);
    if alias in s.aliases && existing.tunnelId != "" then
      var (s1, admin) := ResolveAdminProfile(s, env, NO_REQUEST, existing.adminProfile, saves(1));
      AfterLookup(s1, alias, admin, remote, saves)
    else (s, remote.created)
  }

  function SaveAlias(s: State, loaded: map<string, AliasRecord>, r: AliasRecord): State {
    s.(aliases := loaded[r.alias := r])
  }

  /** `scope` says whether the scope flags are acceptable. */
  function Create(s: State, env: Env, name: string, req: ProfileRequest, scope: bool, remote: Remote,
                  saves: Saves): State
  {
    match NormalizeAlias(env, name)
    case None => s
    case Some(alias) =>
      if !scope then s
      else
        var (s1, admin) := ResolveAdminProfile(s, env, req, AliasAt(s, alias).adminProfile, saves(0));
        if admin == None then s1 else CreateWith(s1, s.aliases, env, alias, admin.value, remote, saves)
  }

  /** Create once its profile is resolved; `loaded` are the aliases read before. */
  function CreateWith(s: State, loaded: map<string, AliasRecord>, env: Env, alias: string, admin: string,
                      remote: Remote, saves: Saves): State
  {
    var (s1, tunnel) := ResolveTunnel(s, env, alias, remote, saves);
    if tunnel == None || !saves(3) then s1
    else SaveAlias(s1, loaded, AliasRecord(alias, tunnel.value, admin, "", ""))
  }

  /** The tunnel found or assumed for an id from the command line, if that id is well formed; and whether a
      failed resolution may fall back on the tunnel recorded for the alias. */
  datatype Target = Target(given: Option<string>, wellFormed: bool, remote: Remote, fallBack: bool)

  /** The written runtime profile, and the mode the runtime was launched in. */
  datatype Launch = Launch(profileName: string, configPath: Option<string>, mode: Option<string>)

  function ConnectTunnel(s: State, env: Env, alias: string, previous: AliasRecord, t: Target, saves: Saves): (State,
                         Option<string>)
  {
    if t.given.Some? then (s, if t.wellFormed then t.given else None)
    else
      var (s1, tunnel) := ResolveTunnel(s, env, alias, t.remote, saves);
      if tunnel == None && t.fallBack && previous.tunnelId != "" then (s1, Some(previous.tunnelId)) else (s1, tunnel)
  }

  /** `valid` says whether the flags checked before the state is loaded are acceptable. */
  function Connect(s: State, env: Env, name: string, req: ProfileRequest, valid: bool, t: Target, launch: Launch,
                   saves: Saves): State
  {
    match NormalizeAlias(env, name)
    case None => s
    case Some(alias) =>
      if !valid then s
      else
        var (s1, admin) := ResolveAdminProfile(s, env, req, AliasAt(s, alias).adminProfile, saves(0));
        if admin == None then s1
        else ConnectAs(s1, s.aliases, env, alias, AliasAt(s, alias), admin.value, t, launch, saves)
  }

  /** Connect once its profile is resolved; `loaded` are the aliases read before. */
  function ConnectAs(s: State, loaded: map<string, AliasRecord>, env: Env, alias: string, previous: AliasRecord,
                     admin: string,
                     t: Target, launch: Launch, saves: Saves): State {
    var (s1, tunnel) := ConnectTunnel(s, env, alias, previous, t, saves);
    if tunnel == None then s1 else ConnectWith(s1, loaded, alias, tunnel.value, admin, launch, saves)
  }

  /** Connect once its profile and tunnel are resolved: write the runtime profile, save, launch, save. */
  function ConnectWith(s: State, loaded: map<string, AliasRecord>, alias: string, tunnel: string, admin: string,
                       launch: Launch, saves: Saves): State
  {
    if launch.configPath == None || Blank(launch.configPath.value) || !saves(3) then s
    else
      var path := launch.configPath.value;
      var s1 := SaveAlias(s, loaded, AliasRecord(alias, tunnel, admin, launch.profileName, path));
      if launch.mode == None || !saves(4) then s1
      else SaveProcess(s1, ProcessRecord(alias, tunnel, admin, launch.profileName, path, launch.mode.value))
  }

  function SaveProcess(s: State, p: ProcessRecord): State {
    s.(processes := s.processes[p.alias := p])
  }

  /** `stopped` says whether the runtime could be stopped or was gone already. */
  function Stop(s: State, env: Env, name: string, req: ProfileRequest, stopped: bool, saves: Saves): State {
    match NormalizeAlias(env, name)
    case None => s
    case Some(alias) =>
      if alias !in s.aliases then s
      else
        var (s1, admin) := ResolveAdminProfile(s, env, req, s.aliases[alias].adminProfile, saves(0));
        if admin == None then s1 else StopProcess(s1, ProcessAt(s, alias), stopped, saves)
  }

  function StopProcess(s: State, process: ProcessRecord, stopped: bool, saves: Saves): State {
    if process.alias == "" || !saves(4) then s
    else if process.mode != STOPPED && !stopped then s
    else SaveProcess(s, process.(mode := STOPPED))
  }

  /** `cleared` says whether the files of the alias could be removed. */
  function Remove(s: State, env: Env, name: string, cleared: bool, saves: Saves): State {
    match NormalizeAlias(env, name)
    case None => s
    case Some(alias) =>
      var process := ProcessAt(s, alias);
      if alias !in s.aliases && process.alias == "" then s
      else if process.alias != "" && process.mode != "" && process.mode != STOPPED then s
      else if !cleared || !saves(3) then s
      else
        var s1 := s.(aliases := s.aliases - {alias});
        if saves(4) then s1.(processes := s1.processes - {alias}) else s1
  }

  // ----- Cleanup --------------------------------------------------------------------------------

  /** What the machine shows for an alias: a live runtime, an existing profile file. */
  datatype Local = Local(live: bool, profileExists: bool)

  datatype Classification = LiveRuntime | ValidProfile | MissingProfile | StaleAlias

  function Classify(s: State, local: Local, name: string): Classification {
    var record, process := AliasAt(s, name), ProcessAt(s, name);
    if local.live then LiveRuntime
    else if local.profileExists then ValidProfile
    else if !(Blank(process.profilePath) && Blank(record.profilePath)
              && Blank(process.profileName) && Blank(record.profileName)) then MissingProfile
    else StaleAlias
  }

  predicate IsStale(s: State, local: string -> Local, name: string) {
    Classify(s, local(name), name) == StaleAlias
  }

  ghost function Stale(s: State, local: string -> Local): set<string> {
    set n | n in s.aliases.Keys + s.processes.Keys && IsStale(s, local, n)
  }

  ghost function Cleanup(s: State, local: string -> Local, apply: bool, saves: Saves): State {
    if !apply || !saves(3) then s
    else
      var s1 := s.(aliases := s.aliases - Stale(s, local));
      if saves(4) then s1.(processes := s1.processes - Stale(s, local)) else s1
  }

  // ----- Runs -----------------------------------------------------------------------------------

  datatype Command =
    | SetProfile(req: ProfileRequest, activate: bool)
    | Activate(name: string)
    | Delete(name: string)
    | CreateAlias(name: string, req: ProfileRequest, scope: bool, remote: Remote)
    | ConnectAlias(name: string, req: ProfileRequest, valid: bool, target: Target, launch: Launch)
    | StopAlias(name: string, req: ProfileRequest, stopped: bool)
    | RemoveAlias(name: string, cleared: bool)
    | CleanupAll(local: string -> Local, apply: bool)
    | Report(req: ProfileRequest, fallback: string)   // status and list resolve a profile and save it

  datatype Step = Step(command: Command, env: Env, saves: Saves)

  ghost function Apply(s: State, step: Step): State {
    var env, saves := step.env, step.saves;
    match step.command
    case SetProfile(req, activate) => SetAdminProfile(s, env, req, activate, saves(0))
    case Activate(name) => ActivateAdminProfile(s, env, name, saves(0))
    case Delete(name) => AfterDelete(s, env, name, saves(0))
    case CreateAlias(name, req, scope, remote) => Create(s, env, name, req, scope, remote, saves)
    case ConnectAlias(name, req, valid, target, launch) => Connect(s, env, name, req, valid, target, launch, saves)
    case StopAlias(name, req, stopped) => Stop(s, env, name, req, stopped, saves)
    case RemoveAlias(name, cleared) => Remove(s, env, name, cleared, saves)
    case CleanupAll(local, apply) => Cleanup(s, local, apply, saves)
    case Report(req, fallback) => ResolveAdminProfile(s, env, req, fallback, saves(0)).0
  }

  ghost function Run(steps: seq<Step>): State {
    if steps == [] then EMPTY else Apply(Run(steps[..|steps| - 1]), steps[|steps| - 1])
  }

  ghost predicate ActiveSaved(s: State) {
    s.active == "" || s.active in s.profiles
  }

  ghost predicate AliasesSaved(aliases: map<string, AliasRecord>, profiles: map<string, AdminProfile>) {
    forall a :: a in aliases ==> aliases[a].adminProfile in profiles
  }

  ghost predicate ProcessSaved(a: string, p: ProcessRecord, profiles: map<string, AdminProfile>) {
    p.alias == a != "" && !Blank(p.profilePath) && (p.mode != STOPPED ==> p.adminProfile in profiles)
  }

  ghost predicate ProcessesSaved(processes: map<string, ProcessRecord>, profiles: map<string, AdminProfile>) {
    forall a :: a in processes ==> ProcessSaved(a, processes[a], profiles)
  }

  /** No dangling reference: the active profile, every alias's and every live process's are saved. */
  ghost predicate Inv(s: State) {
    ActiveSaved(s) && AliasesSaved(s.aliases, s.profiles) && ProcessesSaved(s.processes, s.profiles)
  }

  lemma {:induction false} RunKeepsInv(steps: seq<Step>)
    ensures Inv(Run(steps))
  {
    if steps != [] {
      RunKeepsInv(steps[..|steps| - 1]);
      StepKeepsInv(Run(steps[..|steps| - 1]), steps[|steps| - 1]);
    }
  }

  lemma StepKeepsInv(s: State, step: Step)
    requires Inv(s)
    ensures Inv(Apply(s, step))
  {
    var env, saves := step.env, step.saves;
    match step.command
    case SetProfile(_, _) =>
    case Activate(_) =>
    case Delete(name) => DeleteKeepsInv(s, env, name, saves(0));
    case CreateAlias(name, req, scope, remote) => CreateKeepsInv(s, env, name, req, scope, remote, saves);
    case ConnectAlias(name, req, valid, target, launch) =>
      ConnectKeepsInv(s, env, name, req, valid, target, launch, saves);
    case StopAlias(name, req, stopped) => StopKeepsInv(s, env, name, req, stopped, saves);
    case RemoveAlias(_, _) =>
    case CleanupAll(_, _) =>
    case Report(req, fallback) => ResolveKeepsInv(s, env, req, fallback, saves(0));
  }

  lemma DeleteKeepsInv(s: State, env: Env, name: string, saved: bool)
    requires Inv(s)
    ensures Inv(AfterDelete(s, env, name, saved))
  {
    var n := NormalizeAlias(env, name);
    if n.Some? && CanDelete(s, n.value) && saved {
      forall a | a in s.processes ensures ProcessSaved(a, s.processes[a], s.profiles - {n.value}) {
        assert !Blocks(s.processes[a], n.value);
      }
    }
  }

  /** Resolving a profile only adds to the profiles and leaves the two tables alone. */
  lemma ResolveKeepsInv(s: State, env: Env, req: ProfileRequest, fallback: string, saved: bool)
    requires Inv(s)
    ensures var (t, n) := ResolveAdminProfile(s, env, req, fallback, saved);
            && Inv(t) && t.aliases == s.aliases && t.processes == s.processes
            && s.profiles.Keys <= t.profiles.Keys
            && (n.Some? ==> n.value in t.profiles && n.value != "")
  {
  }

  lemma LookupChanges(s: State, alias: string, admin: Option<string>, remote: Remote, saves: Saves)
    ensures var t := AfterLookup(s, alias, admin, remote, saves).0; t == s || t == Forget(s, alias)
  {
  }

  lemma ForgetKeepsInv(s: State, alias: string)
    requires Inv(s)
    ensures Inv(Forget(s, alias))
  {
    var left := Forget(s, alias).aliases;
    forall a | a in left ensures left[a].adminProfile in s.profiles {
      assert left[a] == s.aliases[a];
    }
  }

  lemma TunnelKeepsInv(s: State, env: Env, alias: string, remote: Remote, saves: Saves)
    requires Inv(s)
    ensures var t := ResolveTunnel(s, env, alias, remote, saves).0;
            && Inv(t) && t.processes == s.processes && s.profiles.Keys <= t.profiles.Keys
            && (t.aliases == s.aliases || t.aliases == s.aliases - {alias})
  {
    if alias in s.aliases && s.aliases[alias].tunnelId != "" {
      var (s1, admin) := ResolveAdminProfile(s, env, NO_REQUEST, s.aliases[alias].adminProfile, saves(1));
      ResolveKeepsInv(s, env, NO_REQUEST, s.aliases[alias].adminProfile, saves(1));
      LookupChanges(s1, alias, admin, remote, saves);
      ForgetKeepsInv(s1, alias);
    }
  }

  lemma SaveAliasKeepsInv(s: State, loaded: map<string, AliasRecord>, r: AliasRecord)
    requires Inv(s) && AliasesSaved(loaded, s.profiles) && r.adminProfile in s.profiles
    ensures Inv(SaveAlias(s, loaded, r))
  {
  }

  lemma MoreProfilesKeepAliases(aliases: map<string, AliasRecord>, p: map<string, AdminProfile>, q: map<string,
                                AdminProfile>)
    requires AliasesSaved(aliases, p) && p.Keys <= q.Keys
    ensures AliasesSaved(aliases, q)
  {
  }

  lemma CreateKeepsInv(s: State, env: Env, name: string, req: ProfileRequest, scope: bool, remote: Remote, saves: Saves)
    requires Inv(s)
    ensures Inv(Create(s, env, name, req, scope, remote, saves))
  {
    var n := NormalizeAlias(env, name);
    if n.Some? && scope {
      var alias := n.value;
      var (s1, admin) := ResolveAdminProfile(s, env, req, AliasAt(s, alias).adminProfile, saves(0));
      ResolveKeepsInv(s, env, req, AliasAt(s, alias).adminProfile, saves(0));
      if admin.Some? {
        MoreProfilesKeepAliases(s.aliases, s.profiles, s1.profiles);
        CreateWithKeepsInv(s1, s.aliases, env, alias, admin.value, remote, saves);
      }
    }
  }

  lemma CreateWithKeepsInv(s: State, loaded: map<string, AliasRecord>, env: Env, alias: string, admin: string,
                           remote: Remote, saves: Saves)
    requires Inv(s) && AliasesSaved(loaded, s.profiles) && admin in s.profiles
    ensures Inv(CreateWith(s, loaded, env, alias, admin, remote, saves))
  {
    var (s1, tunnel) := ResolveTunnel(s, env, alias, remote, saves);
    TunnelKeepsInv(s, env, alias, remote, saves);
    if tunnel.Some? {
      MoreProfilesKeepAliases(loaded, s.profiles, s1.profiles);
      SaveAliasKeepsInv(s1, loaded, AliasRecord(alias, tunnel.value, admin, "", ""));
    }
  }

  lemma ConnectTunnelKeepsInv(s: State, env: Env, alias: string, previous: AliasRecord, t: Target, saves: Saves)
    requires Inv(s)
    ensures var s1 := ConnectTunnel(s, env, alias, previous, t, saves).0;
            && Inv(s1) && s1.processes == s.processes && s.profiles.Keys <= s1.profiles.Keys
            && (s1.aliases == s.aliases || s1.aliases == s.aliases - {alias})
  {
    TunnelKeepsInv(s, env, alias, t.remote, saves);
  }

  lemma SaveProcessKeepsInv(s: State, p: ProcessRecord)
    requires Inv(s) && ProcessSaved(p.alias, p, s.profiles)
    ensures Inv(SaveProcess(s, p))
  {
  }

  lemma ConnectKeepsInv(s: State, env: Env, name: string, req: ProfileRequest, valid: bool, t: Target,
                        launch: Launch, saves: Saves)
    requires Inv(s)
    ensures Inv(Connect(s, env, name, req, valid, t, launch, saves))
  {
    var n := NormalizeAlias(env, name);
    if n.Some? && valid {
      var alias := n.value;
      var (s1, admin) := ResolveAdminProfile(s, env, req, AliasAt(s, alias).adminProfile, saves(0));
      ResolveKeepsInv(s, env, req, AliasAt(s, alias).adminProfile, saves(0));
      if admin.Some? {
        MoreProfilesKeepAliases(s.aliases, s.profiles, s1.profiles);
        ConnectAsKeepsInv(s1, s.aliases, env, alias, AliasAt(s, alias), admin.value, t, launch, saves);
      }
    }
  }

  lemma ConnectAsKeepsInv(s: State, loaded: map<string, AliasRecord>, env: Env, alias: string,
                          previous: AliasRecord, admin: string,
                          t: Target, launch: Launch, saves: Saves)
    requires Inv(s) && AliasesSaved(loaded, s.profiles) && admin in s.profiles && alias != ""
    ensures Inv(ConnectAs(s, loaded, env, alias, previous, admin, t, launch, saves))
  {
    var (s1, tunnel) := ConnectTunnel(s, env, alias, previous, t, saves);
    ConnectTunnelKeepsInv(s, env, alias, previous, t, saves);
    if tunnel.Some? {
      MoreProfilesKeepAliases(loaded, s.profiles, s1.profiles);
      ConnectWithKeepsInv(s1, loaded, alias, tunnel.value, admin, launch, saves);
    }
  }

  lemma ConnectWithKeepsInv(s: State, loaded: map<string, AliasRecord>, alias: string, tunnel: string,
                            admin: string, launch: Launch, saves: Saves)
    requires Inv(s) && AliasesSaved(loaded, s.profiles) && admin in s.profiles && alias != ""
    ensures Inv(ConnectWith(s, loaded, alias, tunnel, admin, launch, saves))
  {
    if launch.configPath.Some? && !Blank(launch.configPath.value) {
      var path := launch.configPath.value;
      var record := AliasRecord(alias, tunnel, admin, launch.profileName, path);
      SaveAliasKeepsInv(s, loaded, record);
      if launch.mode.Some? {
        SaveProcessKeepsInv(SaveAlias(s, loaded, record),
                            ProcessRecord(alias, tunnel, admin, launch.profileName, path, launch.mode.value));
      }
    }
  }

  lemma StopKeepsInv(s: State, env: Env, name: string, req: ProfileRequest, stopped: bool, saves: Saves)
    requires Inv(s)
    ensures Inv(Stop(s, env, name, req, stopped, saves))
  {
    var n := NormalizeAlias(env, name);
    if n.Some? && n.value in s.aliases {
      var alias := n.value;
      ResolveKeepsInv(s, env, req, s.aliases[alias].adminProfile, saves(0));
      if alias in s.processes {
        var s1 := ResolveAdminProfile(s, env, req, s.aliases[alias].adminProfile, saves(0)).0;
        SaveProcessKeepsInv(s1, s.processes[alias].(mode := STOPPED));
      }
    }
  }

  // ----- Consequences ---------------------------------------------------------------------------

  /** After any run, a saved profile can be deleted exactly when no alias and no live process uses it;
      the active profile then falls back on the first one left. */
  lemma {:induction false} DeleteIff(steps: seq<Step>, env: Env, name: string)
    requires NormalizeAlias(env, name).Some?
    ensures var s, n := Run(steps), NormalizeAlias(env, name).value;
            var t := AfterDelete(s, env, name, true);
            && (n in s.profiles && n !in t.profiles <==>
                n in s.profiles && !ReferencedByAlias(s, n)
                && forall a :: a in s.processes && s.processes[a].adminProfile == n ==> s.processes[a].mode == STOPPED)
            && (n in s.profiles && n !in t.profiles && s.active == n ==>
                if t.profiles.Keys == {} then t.active == "" else IsLeast(t.active, t.profiles.Keys))
  {
    RunKeepsInv(steps);
    var s, n := Run(steps), NormalizeAlias(env, name).value;
    forall a | a in s.processes
      ensures Blocks(s.processes[a], n) <==> s.processes[a].adminProfile == n && s.processes[a].mode != STOPPED
    {
      assert ProcessSaved(a, s.processes[a], s.profiles);
    }
  }

  /** After any run, cleanup removes exactly the stale aliases, every one of them created but never connected,
      and no process record: a process always knows its profile file. */
  lemma {:induction false} CleanupRemovesOnlyUnconnected(steps: seq<Step>, local: string -> Local, saves: Saves)
    requires saves(3)
    ensures var s := Run(steps);
            var t := Cleanup(s, local, true, saves);
            && t.processes == s.processes && t.profiles == s.profiles && t.active == s.active
            && t.aliases == s.aliases - Stale(s, local)
            && forall a :: a in s.aliases && a !in t.aliases <==> Unconnected(s, local, a)
  {
    RunKeepsInv(steps);
    var s := Run(steps);
    StaleIsUnconnected(s, local);
    assert s.processes - Stale(s, local) == s.processes;
  }

  ghost predicate Unconnected(s: State, local: string -> Local, a: string) {
    && a in s.aliases && a !in s.processes && !local(a).live && !local(a).profileExists
    && Blank(s.aliases[a].profilePath) && Blank(s.aliases[a].profileName)
  }

  lemma StaleIsUnconnected(s: State, local: string -> Local)
    requires ProcessesSaved(s.processes, s.profiles)
    ensures forall a :: a in Stale(s, local) <==> Unconnected(s, local, a)
  {
    forall a | a in s.aliases.Keys + s.processes.Keys ensures IsStale(s, local, a) <==> Unconnected(s, local, a) {
      StaleIff(s, local, a);
    }
  }

  lemma StaleIff(s: State, local: string -> Local, a: string)
    requires ProcessesSaved(s.processes, s.profiles) && (a in s.aliases || a in s.processes)
    ensures IsStale(s, local, a) <==> Unconnected(s, local, a)
  {
    var record, process := AliasAt(s, a), ProcessAt(s, a);
    if a in s.processes {
      assert ProcessSaved(a, s.processes[a], s.profiles);
    }
  }

  /** Two records of one runtime. */
  ghost predicate Agree(r: AliasRecord, p: ProcessRecord) {
    r.alias == p.alias && r.tunnelId == p.tunnelId && r.adminProfile == p.adminProfile
    && r.profileName == p.profileName && r.profilePath == p.profilePath
  }

  /** From s to t nothing but `alias` changed in the tables, and a new process record agrees with the alias. */
  ghost predicate OnlyConnects(s: State, t: State, alias: string) {
    && t.aliases - {alias} == s.aliases - {alias}
    && t.processes - {alias} == s.processes - {alias}
    && s.profiles.Keys <= t.profiles.Keys
    && (t.processes != s.processes ==>
          && alias in t.aliases && alias in t.processes && Agree(t.aliases[alias], t.processes[alias])
          && t.aliases[alias].adminProfile in t.profiles)
  }

  /** Whatever fails on the way, connect touches no other alias and no other process; when it records a process,
      that record and the alias describe the same runtime, whose profile is saved. */
  lemma {:induction false} ConnectOutcome(
    steps: seq<Step>, env: Env, name: string, req: ProfileRequest, valid: bool,
    target: Target, launch: Launch, saves: Saves)
    requires NormalizeAlias(env, name).Some?
    ensures OnlyConnects(Run(steps), Connect(Run(steps), env, name, req, valid, target, launch, saves),
                         NormalizeAlias(env, name).value)
  {
    RunKeepsInv(steps);
    ConnectFrom(Run(steps), env, name, req, valid, target, launch, saves);
  }

  lemma ConnectFrom(s: State, env: Env, name: string, req: ProfileRequest, valid: bool, target: Target,
                    launch: Launch, saves: Saves)
    requires Inv(s) && NormalizeAlias(env, name).Some?
    ensures OnlyConnects(s, Connect(s, env, name, req, valid, target, launch, saves), NormalizeAlias(env, name).value)
  {
    var alias := NormalizeAlias(env, name).value;
    if valid {
      var (s1, admin) := ResolveAdminProfile(s, env, req, AliasAt(s, alias).adminProfile, saves(0));
      ResolveKeepsInv(s, env, req, AliasAt(s, alias).adminProfile, saves(0));
      if admin.Some? {
        ConnectAsOutcome(s, s1, env, alias, AliasAt(s, alias), admin.value, target, launch, saves);
      }
    }
  }

  lemma ConnectAsOutcome(s: State, s1: State, env: Env, alias: string, previous: AliasRecord, admin: string,
                         target: Target, launch: Launch, saves: Saves)
    requires Inv(s1) && s1.aliases == s.aliases && s1.processes == s.processes
    requires s.profiles.Keys <= s1.profiles.Keys && admin in s1.profiles
    ensures OnlyConnects(s, ConnectAs(s1, s.aliases, env, alias, previous, admin, target, launch, saves), alias)
  {
    var (s2, tunnel) := ConnectTunnel(s1, env, alias, previous, target, saves);
    ConnectTunnelKeepsInv(s1, env, alias, previous, target, saves);
    RemovalLeavesRest(s.aliases, alias);
    if tunnel.Some? {
      ConnectWithOutcome(s, s2, alias, tunnel.value, admin, launch, saves);
    }
  }

  lemma RemovalLeavesRest(aliases: map<string, AliasRecord>, alias: string)
    ensures aliases - {alias} - {alias} == aliases - {alias}
  {
  }

  lemma ConnectWithOutcome(s: State, s2: State, alias: string, tunnel: string, admin: string, launch: Launch,
                           saves: Saves)
    requires s2.aliases - {alias} == s.aliases - {alias} && s2.processes == s.processes
    requires s.profiles.Keys <= s2.profiles.Keys && admin in s2.profiles
    ensures OnlyConnects(s, ConnectWith(s2, s.aliases, alias, tunnel, admin, launch, saves), alias)
  {
  }

  /** After any run, an alias or process is removed from both tables exactly when its process is not running. */
  lemma {:induction false} RemoveIff(steps: seq<Step>, env: Env, name: string, saves: Saves)
    requires NormalizeAlias(env, name).Some? && saves(3) && saves(4)
    ensures var s, alias := Run(steps), NormalizeAlias(env, name).value;
            var t := Remove(s, env, name, true, saves);
            && (alias in s.aliases || alias in s.processes ==>
                  (alias !in t.aliases && alias !in t.processes <==>
                   alias !in s.processes || s.processes[alias].mode == STOPPED || s.processes[alias].mode == ""))
            && t.aliases - {alias} == s.aliases - {alias} && t.processes - {alias} == s.processes - {alias}
  {
    RunKeepsInv(steps);
  }

  /** Stopping a known alias makes it removable: afterwards it is in neither table and all others are as before. */
  lemma {:induction false} StopThenRemove(steps: seq<Step>, env: Env, name: string, req: ProfileRequest, saves: Saves)
    requires NormalizeAlias(env, name).Some? && NormalizeAlias(env, name).value in Run(steps).aliases
    requires saves(3) && saves(4)
    requires var s, alias := Run(steps), NormalizeAlias(env, name).value;
             ResolveAdminProfile(s, env, req, s.aliases[alias].adminProfile, saves(0)).1.Some?
    ensures var s, alias := Run(steps), NormalizeAlias(env, name).value;
            var t := Remove(Stop(s, env, name, req, true, saves), env, name, true, saves);
            t.aliases == s.aliases - {alias} && t.processes == s.processes - {alias}
  {
    RunKeepsInv(steps);
    StopOutcome(Run(steps), env, name, req, saves);
    RemoveStopped(Run(steps), Stop(Run(steps), env, name, req, true, saves), env, name, saves);
  }

  ghost function StoppedIn(processes: map<string, ProcessRecord>, alias: string): map<string, ProcessRecord> {
    if alias in processes then processes[alias := processes[alias].(mode := STOPPED)] else processes
  }

  lemma StopProcessOutcome(s: State, alias: string, saves: Saves)
    requires ProcessesSaved(s.processes, s.profiles) && saves(4)
    ensures var t := StopProcess(s, ProcessAt(s, alias), true, saves);
            t.aliases == s.aliases && t.processes == StoppedIn(s.processes, alias)
  {
    if alias in s.processes {
      assert ProcessSaved(alias, s.processes[alias], s.profiles);
    }
  }

  lemma StopOutcome(s: State, env: Env, name: string, req: ProfileRequest, saves: Saves)
    requires Inv(s) && NormalizeAlias(env, name).Some? && NormalizeAlias(env, name).value in s.aliases && saves(4)
    requires ResolveAdminProfile(s, env, req, s.aliases[NormalizeAlias(env, name).value].adminProfile, saves(0)).1.Some?
    ensures var t := Stop(s, env, name, req, true, saves);
            t.aliases == s.aliases && t.processes == StoppedIn(s.processes, NormalizeAlias(env, name).value)
  {
    var alias := NormalizeAlias(env, name).value;
    ResolveKeepsInv(s, env, req, s.aliases[alias].adminProfile, saves(0));
    var s1 := ResolveAdminProfile(s, env, req, s.aliases[alias].adminProfile, saves(0)).0;
    StopProcessOutcome(s1, alias, saves);
  }

  lemma RemoveStopped(s: State, t: State, env: Env, name: string, saves: Saves)
    requires NormalizeAlias(env, name).Some? && NormalizeAlias(env, name).value in s.aliases && saves(3) && saves(4)
    requires t.aliases == s.aliases && t.processes == StoppedIn(s.processes, NormalizeAlias(env, name).value)
    ensures var u, alias := Remove(t, env, name, true, saves), NormalizeAlias(env, name).value;
            u.aliases == s.aliases - {alias} && u.processes == s.processes - {alias}
  {
  }

  // ----- The loops ------------------------------------------------------------------------------

  lemma {:induction false} LeastExists(names: set<string>)
    requires names != {}
    ensures exists n :: IsLeast(n, names)
  {
    var x :| x in names;
    if names == {x} {
      CompareTextAntisymmetric(x, x);
      assert IsLeast(x, names);
    } else {
      var rest := names - {x};
      assert names == rest + {x};
      LeastExists(rest);
      var m :| IsLeast(m, rest);
      CompareTextAntisymmetric(x, m);
      CompareTextAntisymmetric(x, x);
      var least := if CompareText(x, m) <= 0 then x else m;
      forall k | k in names ensures CompareText(least, k) <= 0 {
        if k != x && least == x {
          CompareTextTransitive(x, m, k);
        }
      }
      assert IsLeast(least, names);
    }
  }

  /** The first loop of DeleteAdminProfile; the map is ranged over in no particular order. */
  method UsedByAlias(aliases: map<string, AliasRecord>, n: string) returns (used: bool)
    ensures used <==> exists a :: a in aliases && aliases[a].adminProfile == n
  {
    var todo := aliases.Keys;
    while todo != {}
      invariant todo <= aliases.Keys
      invariant forall a :: a in aliases && a !in todo ==> aliases[a].adminProfile != n
      decreases |todo|
    {
      var a :| a in todo;
      if aliases[a].adminProfile == n {
        return true;
      }
      todo := todo - {a};
    }
    return false;
  }

  /** The second loop, over the runtimes that are not stopped. */
  method UsedByProcess(processes: map<string, ProcessRecord>, n: string) returns (used: bool)
    ensures used <==> exists a :: a in processes && Blocks(processes[a], n)
  {
    var todo := processes.Keys;
    while todo != {}
      invariant todo <= processes.Keys
      invariant forall a :: a in processes && a !in todo ==> !Blocks(processes[a], n)
      decreases |todo|
    {
      var a :| a in todo;
      if Blocks(processes[a], n) {
        return true;
      }
      todo := todo - {a};
    }
    return false;
  }

  class Files {
    var profiles: map<string, AdminProfile>
    var active: string
    var aliases: map<string, AliasRecord>
    var processes: map<string, ProcessRecord>

    ghost function Abs(): State
      reads this
    {
      State(profiles, active, aliases, processes)
    }

    constructor ()
      ensures Abs() == EMPTY
    {
      profiles, active, aliases, processes := map[], "", map[], map[];
    }

    method DeleteAdminProfile(env: Env, name: string, saved: bool) returns (ok: bool)
      modifies this
      ensures Abs() == AfterDelete(old(Abs()), env, name, saved)
      ensures ok <==> NormalizeAlias(env, name).Some? && saved && CanDelete(old(Abs()), NormalizeAlias(env, name).value)
    {
      var normalized := NormalizeAlias(env, name);
      if normalized == None || normalized.value !in profiles {
        return false;
      }
      var n := normalized.value;
      var byAlias := UsedByAlias(aliases, n);
      var byProcess := UsedByProcess(processes, n);
      if byAlias || byProcess {
        return false;
      }
      if !saved {
        return false;
      }
      profiles := profiles - {n};
      if active == n {
        active := FirstProfileName(profiles.Keys);
      }
      ok := true;
    }

    method CleanupInventory(local: string -> Local, apply: bool, saves: Saves) returns (removed: seq<string>)
      modifies this`aliases, this`processes
      ensures Abs() == Cleanup(old(Abs()), local, apply, saves)
      ensures apply ==> Elements(removed) == Stale(old(Abs()), local)
    {
      var names := Collect(aliases.Keys + processes.Keys);
      SortFacts(names);
      var keptAliases, keptProcesses;
      var loaded := State(profiles, active, aliases, processes);
      removed, keptAliases, keptProcesses := Sweep(loaded, local, apply, Sort(names));
      if apply && saves(3) {
        aliases := keptAliases;
        if saves(4) {
          processes := keptProcesses;
        }
      }
    }
  }

  /** The loop of CleanupInventory over the sorted names. */
  method Sweep(s: State, local: string -> Local, apply: bool, names: seq<string>)
    returns (removed: seq<string>, aliases: map<string, AliasRecord>, processes: map<string, ProcessRecord>)
    ensures Progress(s, local, apply, Elements(names), Elements(removed), aliases, processes)
  {
    var seen := {};
    removed, aliases, processes := [], s.aliases, s.processes;
    for i := 0 to |names|
      invariant seen == Elements(names[..i])
      invariant Progress(s, local, apply, seen, Elements(removed), aliases, processes)
    {
      var name := names[i];
      PrefixElements(names, i);
      if name in seen {
        assert seen + {name} == seen;
        continue;
      }
      VisitName(s, local, apply, seen, Elements(removed), aliases, processes, name);
      seen := seen + {name};
      if apply && Classify(s.(aliases := aliases, processes := processes), local(name), name) == StaleAlias {
        ElementsConcat(removed, [name]);
        aliases := aliases - {name};
        processes := processes - {name};
        removed := removed + [name];
      }
    }
    assert names[..|names|] == names;
  }

  lemma PrefixElements(s: seq<string>, i: nat)
    requires i < |s|
    ensures Elements(s[..i + 1]) == Elements(s[..i]) + {s[i]}
  {
    ElementsConcat(s[..i], [s[i]]);
    assert s[..i + 1] == s[..i] + [s[i]];
  }

  /** The stale names among those visited so far. */
  ghost function StaleAmong(s: State, local: string -> Local, visited: set<string>): set<string> {
    set n | n in visited && IsStale(s, local, n)
  }

  /** What the loop of cleanup has done after visiting some names. */
  ghost predicate Progress(
    s: State, local: string -> Local, apply: bool, visited: set<string>,
    gone: set<string>, aliases: map<string, AliasRecord>, processes: map<string, ProcessRecord>)
  {
    && gone == (if apply then StaleAmong(s, local, visited) else {})
    && aliases == s.aliases - gone
    && processes == s.processes - gone
  }

  /** Removing other names does not change how a name is classified. */
  lemma VisitName(
    s: State, local: string -> Local, apply: bool, visited: set<string>,
    gone: set<string>, aliases: map<string, AliasRecord>, processes: map<string, ProcessRecord>, name: string)
    requires Progress(s, local, apply, visited, gone, aliases, processes) && name !in visited
    ensures Classify(s.(aliases := aliases, processes := processes), local(name), name) ==
              Classify(s, local(name), name)
    ensures apply && IsStale(s, local, name) ==>
              Progress(s, local, apply, visited + {name}, gone + {name}, aliases - {name}, processes - {name})
    ensures !(apply && IsStale(s, local, name)) ==>
              Progress(s, local, apply, visited + {name}, gone, aliases, processes)
  {
    var t := s.(aliases := aliases, processes := processes);
    assert AliasAt(t, name) == AliasAt(s, name) && ProcessAt(t, name) == ProcessAt(s, name);
    if apply {
      StaleGrows(s, local, visited, name);
    }
  }

  lemma StaleGrows(s: State, local: string -> Local, visited: set<string>, name: string)
    ensures StaleAmong(s, local, visited + {name}) ==
              StaleAmong(s, local, visited) + if IsStale(s, local, name) then {name} else {}
  {
  }

  method Collect(names: set<string>) returns (list: seq<string>)
    ensures Elements(list) == names && Distinct(list)
  {
    list := [];
    var todo := names;
    while todo != {}
      invariant todo <= names && Distinct(list) && Elements(list) == names - todo
      decreases |todo|
    {
      var n :| n in todo;
      ElementsConcat(list, [n]);
      assert n !in Elements(list);
      list := list + [n];
      todo := todo - {n};
    }
  }

  method FirstProfileName(names: set<string>) returns (first: string)
    ensures first == FirstName(names)
  {
    var list := Collect(names);
    SortFacts(list);
    var sorted := Sort(list);
    if |sorted| == 0 {
      ElementsEmpty(sorted);
      return "";
    }
    first := sorted[0];
    assert first in Elements(sorted);
    var least := FirstName(names);
    assert least in Elements(sorted);
    CompareTextAntisymmetric(first, least);
  }
}
