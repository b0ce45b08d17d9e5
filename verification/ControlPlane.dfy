/**
 The multi-user control plane: users, tokens, servers, groups and settings, and the requests that
 change them (backend/app/api/users.py, tokens.py, servers.py, groups.py, settings.py). A request
 resolves its principal when it arrives, may then wait any time, and commits in one step under the
 config write lock, on what is stored by then.
 */
module ControlPlane {
  import opened Basics

  /** Ids are drawn afresh and never reused. */
  type Id = nat

  datatype Role = Admin | Member

  datatype User = User(role: Role, localRunners: bool)

  datatype Scope = All | Control | OfGroup(name: string) | OfServer(server: Id)

  datatype Token = Token(scope: Scope, user: Option<Id>)

  datatype Runner = Npx | Uvx | Command | Docker | Remote | OpenApi | GraphQl | Builtin

  /** `fields` holds the configuration but for the runner; an absent field reads as empty. */
  datatype Server = Server(owner: Option<Id>, runner: Runner, fields: map<string, string>, enabled: bool)

  datatype Members = Everything | Only(ids: set<Id>)

  datatype Mode = Auto | Always

  datatype Settings = Settings(mode: Mode, exposed: bool, lan: bool)

  datatype Db = Db(
    users: map<Id, User>,
    tokens: map<Id, Token>,
    servers: map<Id, Server>,
    groups: map<string, Members>,
    settings: Settings,
    nextId: Id)

  /** The environment: an off-host origin, a break-glass token, and the service's own validation
      of a configuration. */
  datatype Config = Config(offHost: bool, envToken: bool, accepts: Server -> bool)

  // ---------------------------------------------------------------- who is calling

  /** The bearer credential a request carries. */
  datatype Bearer = NoBearer | EnvBearer | TokenBearer(token: Id)

  /** `Stored` is bound to the token row it came from. */
  datatype Principal =
    | LocalOperator
    | EnvAdmin
    | Stored(token: Id, user: Option<Id>, role: Role, localRunners: bool)
  {
    predicate IsAdmin() {
      Stored? ==> role.Admin?
    }

    predicate RunsLocally() {
      Stored? ==> localRunners
    }

    function UserId(): Option<Id> {
      if Stored? then user else None
    }
  }

  /** `_enforced`. */
  predicate Enforced(cfg: Config, s: Settings) {
    s.mode.Always? || s.exposed || cfg.offHost || s.lan
  }

  function AsUser(token: Id, id: Id, user: User): Principal {
    Stored(token, Some(id), user.role, user.localRunners || user.role.Admin?)
  }

  /** `credential_principal`. */
  function CredentialPrincipal(cfg: Config, db: Db, bearer: Bearer): Option<Principal> {
    match bearer
    case NoBearer => None
    case EnvBearer => if cfg.envToken then Some(EnvAdmin) else None
    case TokenBearer(t) =>
      if t !in db.tokens || !db.tokens[t].scope.Control? then None
      else
        match db.tokens[t].user
        case None => Some(Stored(t, None, Admin, true))
        case Some(u) => if u in db.users then Some(AsUser(t, u, db.users[u])) else None
  }

  /** `_resolve_uncached`. */
  function Resolve(cfg: Config, db: Db, bearer: Bearer): Option<Principal> {
    if !Enforced(cfg, db.settings) then Some(LocalOperator) else CredentialPrincipal(cfg, db, bearer)
  }

  /** `refresh`. */
  function Refresh(cfg: Config, db: Db, p: Principal): Option<Principal> {
    match p
    case LocalOperator => if Enforced(cfg, db.settings) then None else Some(p)
    case EnvAdmin => Some(p)
    case Stored(t, user, _, _) =>
      if t !in db.tokens then None
      else
        match user
        case None => Some(p)
        case Some(u) => if u in db.users then Some(AsUser(t, u, db.users[u])) else None
  }

  predicate AdminNow(cfg: Config, db: Db, p: Principal) {
    var now := Refresh(cfg, db, p);
    now.Some? && now.value.IsAdmin()
  }

  /** `admin_credential_presented`. */
  predicate PresentsAdmin(cfg: Config, db: Db, bearer: Bearer) {
    var caller := CredentialPrincipal(cfg, db, bearer);
    caller.Some? && caller.value.IsAdmin()
  }

  // ---------------------------------------------------------------- what they may do

  predicate IsLocal(runner: Runner) {
    runner.Npx? || runner.Uvx? || runner.Command? || runner.Docker?
  }

  predicate CanView(p: Principal, s: Server) {
    p.IsAdmin() || (s.owner.Some? && s.owner == p.UserId())
  }

  predicate CanUse(p: Principal, runner: Runner) {
    p.IsAdmin() || !IsLocal(runner) || p.RunsLocally()
  }

  predicate Sees(db: Db, p: Principal, id: Id) {
    id in db.servers && CanView(p, db.servers[id])
  }

  /** `admin_credential_exists`: a login other than `besides`' that resolves to admin. */
  predicate AdminLogin(db: Db, besides: Option<Id>) {
    exists t :: t in db.tokens && IsAdminLogin(db, besides, db.tokens[t])
  }

  predicate IsAdminLogin(db: Db, besides: Option<Id>, t: Token) {
    t.scope.Control? &&
    match t.user
    case None => true
    case Some(u) => besides != Some(u) && u in db.users && db.users[u].role.Admin?
  }

  // ---------------------------------------------------------------- requests

  const LAUNCH_FIELDS: set<string> := {
    "command", "args", "run_args", "env", "cwd", "setup_script", "pin_mcp1", "repo_url", "repo_ref",
    "post_clone_script", "openapi_document", "graphql_schema", "health_check_command"
  }

  const BUILTIN_EDITABLE: set<string> := {
    "name", "mcp_http", "disabled_tools", "tool_overrides", "normalize_schema_dialect", "auth_provider", "idle_timeout_s"
  }

  /** A PATCH: `owner` is set when the request names an owner, even an empty one. */
  datatype Changes = Changes(runner: Option<Runner>, fields: map<string, string>, owner: Option<Option<Id>>)

  datatype Op =
    | CreateUser(user: User)
    | UpdateUser(id: Id, role: Option<Role>, localRunners: Option<bool>)
    | DeleteUser(id: Id)
    | MintLogin(id: Id)
    | CreateToken(scope: Scope)
    | DeleteToken(id: Id)
    | CreateServer(runner: Runner, fields: map<string, string>, enabled: bool)
    | UpdateServer(id: Id, changes: Changes)
    | DeleteServer(id: Id)
    | CloneServer(id: Id)
    | SetEnabled(id: Id, on: bool)
    | UpsertGroup(name: string, members: Members)
    | DeleteGroup(name: string)
    | WriteSettings(mode: Option<Mode>, exposed: Option<bool>, lan: Option<bool>, controlMcp: Option<bool>)

  /** The routers only an admin gets past. */
  predicate AdminOnly(op: Op) {
    op.CreateUser? || op.UpdateUser? || op.DeleteUser? || op.MintLogin? || op.UpsertGroup? || op.DeleteGroup? ||
    op.WriteSettings?
  }

  datatype Request = Request(bearer: Bearer, principal: Principal, op: Op)

  datatype Outcome =
    | Done
    | Unauthorized
    | Forbidden
    | NotFound
    | Invalid
    | LastAdmin
    | OwnsServers
    | LastControl

  function FieldOf(s: Server, key: string): string {
    if key in s.fields then s.fields[key] else ""
  }

  /** `_launch_touched`: would the change alter what the server executes? */
  predicate LaunchTouched(s: Server, c: Changes) {
    || (c.runner.Some? && c.runner.value != s.runner)
    || exists k :: k in c.fields && k in LAUNCH_FIELDS && c.fields[k] != FieldOf(s, k)
  }

  /** `_require_builtin_editable`: the built-in server's launch spec is derived, not edited. */
  predicate BuiltinTouched(s: Server, c: Changes) {
    || (c.runner.Some? && c.runner.value != s.runner)
    || exists k :: k in c.fields && k !in BUILTIN_EDITABLE && c.fields[k] != FieldOf(s, k)
  }

  function NewRunner(s: Server, c: Changes): Runner {
    if c.runner.Some? then c.runner.value else s.runner
  }

  function Edited(s: Server, c: Changes): Server {
    s.(runner := NewRunner(s, c), fields := s.fields + c.fields)
  }

  /** What a handler checks before the request is queued. */
  predicate PassesEntry(db: Db, p: Principal, op: Op) {
    && (AdminOnly(op) ==> p.IsAdmin())
    && match op
       case CreateServer(runner, _, _) => CanUse(p, runner)
       case UpdateServer(id, c) =>
         && Sees(db, p, id)
         && (c.owner.Some? ==>
               && p.IsAdmin()
               && !db.servers[id].runner.Builtin?
               && (c.owner.value.Some? ==> c.owner.value.value in db.users))
         && (LaunchTouched(db.servers[id], c) ==> CanUse(p, NewRunner(db.servers[id], c)))
       case DeleteServer(id) => Sees(db, p, id) && !db.servers[id].runner.Builtin?
       case CloneServer(id) => Sees(db, p, id) && CanUse(p, db.servers[id].runner)
       case SetEnabled(id, _) => Sees(db, p, id)
       case _ => true
  }

  // ---------------------------------------------------------------- commits

  function WithoutTokens(db: Db, ids: set<Id>): Db {
    db.(tokens := db.tokens - ids)
  }

  /** `_overprivileged_token_ids`: the tokens a member could not have minted. */
  predicate Overprivileged(db: Db, user: Id, t: Token) {
    && t.user == Some(user)
    && !t.scope.Control?
    && (t.scope.OfServer? ==> t.scope.server !in db.servers || db.servers[t.scope.server].owner != Some(user))
  }

  function OverprivilegedIds(db: Db, user: Id): set<Id> {
    set t | t in db.tokens && Overprivileged(db, user, db.tokens[t])
  }

  function CommitCreateUser(cfg: Config, db: Db, p: Principal, user: User): (Db, Outcome) {
    if !AdminNow(cfg, db, p) then (db, Forbidden)
    else (db.(users := db.users[db.nextId := user], nextId := db.nextId + 1), Done)
  }

  function CommitUpdateUser(
      cfg: Config, db: Db, p: Principal, id: Id, role: Option<Role>, localRunners: Option<bool>): (Db, Outcome)
  {
    if !AdminNow(cfg, db, p) then (db, Forbidden)
    else if id !in db.users then (db, NotFound)
    else
      var user := db.users[id];
      var newRole := if role.Some? then role.value else user.role;
      var edited := User(newRole, if localRunners.Some? then localRunners.value else user.localRunners);
      if user.role.Admin? && newRole.Member? && !cfg.envToken && !AdminLogin(db, Some(id)) then (db, LastAdmin)
      else
        var revoked := if user.role.Admin? && newRole.Member? then OverprivilegedIds(db, id) else {};
        (WithoutTokens(db, revoked).(users := db.users[id := edited]), Done)
  }

  function TokensOf(db: Db, user: Id): set<Id> {
    set t | t in db.tokens && db.tokens[t].user == Some(user)
  }

  predicate Owns(db: Db, user: Id) {
    exists s :: s in db.servers && db.servers[s].owner == Some(user)
  }

  function CommitDeleteUser(cfg: Config, db: Db, p: Principal, id: Id): (Db, Outcome) {
    if !AdminNow(cfg, db, p) then (db, Forbidden)
    else if id !in db.users then (db, NotFound)
    else if db.users[id].role.Admin? && !cfg.envToken && !AdminLogin(db, Some(id)) then (db, LastAdmin)
    else if Owns(db, id) then (db, OwnsServers)
    else (WithoutTokens(db, TokensOf(db, id)).(users := db.users - {id}), Done)
  }

  function Mint(db: Db, token: Token): Db {
    db.(tokens := db.tokens[db.nextId := token], nextId := db.nextId + 1)
  }

  function CommitMintLogin(cfg: Config, db: Db, p: Principal, id: Id): (Db, Outcome) {
    if !AdminNow(cfg, db, p) then (db, Forbidden)
    else if id !in db.users then (db, NotFound)
    else (Mint(db, Token(Control, Some(id))), Done)
  }

  function CommitCreateToken(cfg: Config, db: Db, p: Principal, scope: Scope): (Db, Outcome) {
    var now := Refresh(cfg, db, p);
    if now.None? then (db, Unauthorized)
    else if scope.OfServer? && scope.server !in db.servers then (db, Invalid)
    else if !now.value.IsAdmin() && !scope.OfServer? then (db, Forbidden)
    else if scope.OfServer? && !CanView(now.value, db.servers[scope.server]) then (db, Invalid)
    else if scope.OfGroup? && scope.name !in db.groups then (db, Invalid)
    else (Mint(db, Token(scope, p.UserId())), Done)
  }

  function CommitDeleteToken(cfg: Config, db: Db, p: Principal, id: Id): (Db, Outcome) {
    var now := Refresh(cfg, db, p);
    if now.None? then (db, Unauthorized)
    else if id !in db.tokens then (db, NotFound)
    else if !now.value.IsAdmin() && (db.tokens[id].user.None? || db.tokens[id].user != now.value.UserId()) then
      (db, NotFound)
    else
      var after := WithoutTokens(db, {id});
      if db.tokens[id].scope.Control? && Enforced(cfg, db.settings) && !cfg.envToken && !AdminLogin(after, None)
      then (db, LastControl)
      else (after, Done)
  }

  function AddServer(cfg: Config, db: Db, s: Server): (Db, Outcome) {
    if s.runner.Builtin? || !cfg.accepts(s) then (db, Invalid)
    else (db.(servers := db.servers[db.nextId := s], nextId := db.nextId + 1), Done)
  }

  function CommitCreateServer(
      cfg: Config, db: Db, p: Principal, runner: Runner, fields: map<string, string>, enabled: bool): (Db, Outcome)
  {
    var now := Refresh(cfg, db, p);
    if now.None? then (db, Unauthorized)
    else if !CanUse(now.value, runner) then (db, Forbidden)
    else AddServer(cfg, db, Server(p.UserId(), runner, fields, enabled))
  }

  /** The former owner's own tokens for a server that leaves them. */
  function StaleTokens(db: Db, owner: Option<Id>, next: Option<Id>, server: Id): set<Id> {
    if owner.None? || owner == next then {}
    else set t | t in db.tokens && db.tokens[t].user == owner && db.tokens[t].scope == OfServer(server)
  }

  function CommitUpdateServer(cfg: Config, db: Db, p: Principal, id: Id, c: Changes): (Db, Outcome) {
    var now := Refresh(cfg, db, p);
    if now.None? then (db, Unauthorized)
    else if !Sees(db, now.value, id) then (db, NotFound)
    else
      var current := db.servers[id];
      var edited := Edited(current, c);
      if LaunchTouched(current, c) && !CanUse(now.value, NewRunner(current, c)) then (db, Forbidden)
      else if c.owner.Some? && !now.value.IsAdmin() then (db, Forbidden)
      else if c.owner.Some? && c.owner.value.Some? && c.owner.value.value !in db.users then (db, Invalid)
      else if current.runner.Builtin? && BuiltinTouched(current, c) then (db, Invalid)
      else if edited.runner.Builtin? && !current.runner.Builtin? then (db, Invalid)
      else if !cfg.accepts(edited) then (db, Invalid)
      else if c.owner.None? then (db.(servers := db.servers[id := edited]), Done)
      else
        (WithoutTokens(db, StaleTokens(db, current.owner, c.owner.value, id)).(
           servers := db.servers[id := edited.(owner := c.owner.value)]),
         Done)
  }

  function Pruned(members: Members, server: Id): Members {
    if members.Everything? then members else Only(members.ids - {server})
  }

  function PrunedGroups(groups: map<string, Members>, server: Id): map<string, Members> {
    map g | g in groups :: Pruned(groups[g], server)
  }

  function CommitDeleteServer(cfg: Config, db: Db, p: Principal, id: Id): (Db, Outcome) {
    var now := Refresh(cfg, db, p);
    if id !in db.servers || now.None? || !CanView(now.value, db.servers[id]) then (db, NotFound)
    else (db.(servers := db.servers - {id}, groups := PrunedGroups(db.groups, id)), Done)
  }

  function CommitCloneServer(cfg: Config, db: Db, p: Principal, id: Id): (Db, Outcome) {
    var now := Refresh(cfg, db, p);
    if now.None? then (db, Unauthorized)
    else if !Sees(db, now.value, id) then (db, NotFound)
    else
      var src := db.servers[id];
      if !CanUse(now.value, src.runner) then (db, Forbidden)
      else AddServer(cfg, db, Server(p.UserId(), src.runner, src.fields, false))
  }

  function CommitSetEnabled(cfg: Config, db: Db, p: Principal, id: Id, on: bool): (Db, Outcome) {
    var now := Refresh(cfg, db, p);
    if now.None? then (db, Unauthorized)
    else if !Sees(db, now.value, id) then (db, NotFound)
    else
      var s := db.servers[id].(enabled := on);
      if on && !cfg.accepts(s) then (db, Invalid) else (db.(servers := db.servers[id := s]), Done)
  }

  function CommitUpsertGroup(cfg: Config, db: Db, p: Principal, name: string, members: Members): (Db, Outcome) {
    if !AdminNow(cfg, db, p) then (db, Forbidden)
    else if members.Only? && !(members.ids <= db.servers.Keys) then (db, Invalid)
    else (db.(groups := db.groups[name := members]), Done)
  }

  function TokensScoped(db: Db, scope: Scope): set<Id> {
    set t | t in db.tokens && db.tokens[t].scope == scope
  }

  function CommitDeleteGroup(cfg: Config, db: Db, p: Principal, name: string): (Db, Outcome) {
    if !AdminNow(cfg, db, p) then (db, Forbidden)
    else if name !in db.groups then (db, NotFound)
    else (WithoutTokens(db, TokensScoped(db, OfGroup(name))).(groups := db.groups - {name}), Done)
  }

  function Patched(s: Settings, mode: Option<Mode>, exposed: Option<bool>, lan: Option<bool>): Settings {
    Settings(if mode.Some? then mode.value else s.mode,
             if exposed.Some? then exposed.value else s.exposed,
             if lan.Some? then lan.value else s.lan)
  }

  /** The built-in server's enabled flag is the `control_mcp` setting. */
  function Toggled(servers: map<Id, Server>, controlMcp: Option<bool>): map<Id, Server> {
    if controlMcp.None? then servers
    else map s | s in servers :: if servers[s].runner.Builtin? then servers[s].(enabled := controlMcp.value) else servers[s]
  }

  /** The `guard` of a settings write: nobody turns enforcement on without an admin credential in
      hand, and the caller is judged again; the local operator on the policy before this write. */
  function CommitSettings(
      cfg: Config, db: Db, bearer: Bearer, p: Principal, mode: Option<Mode>, exposed: Option<bool>, lan: Option<bool>,
      controlMcp: Option<bool>): (Db, Outcome)
  {
    var settings := Patched(db.settings, mode, exposed, lan);
    var presented := PresentsAdmin(cfg, db, bearer);
    if !presented && Enforced(cfg, settings) then (db, Invalid)
    else if p.LocalOperator? && Enforced(cfg, db.settings) && !presented then (db, Forbidden)
    else if !p.LocalOperator? && !AdminNow(cfg, db, p) then (db, Forbidden)
    else (db.(settings := settings, servers := Toggled(db.servers, controlMcp)), Done)
  }

  function Commit(cfg: Config, db: Db, q: Request): (Db, Outcome) {
    var p := q.principal;
    match q.op
    case CreateUser(user) => CommitCreateUser(cfg, db, p, user)
    case UpdateUser(id, role, localRunners) => CommitUpdateUser(cfg, db, p, id, role, localRunners)
    case DeleteUser(id) => CommitDeleteUser(cfg, db, p, id)
    case MintLogin(id) => CommitMintLogin(cfg, db, p, id)
    case CreateToken(scope) => CommitCreateToken(cfg, db, p, scope)
    case DeleteToken(id) => CommitDeleteToken(cfg, db, p, id)
    case CreateServer(runner, fields, enabled) => CommitCreateServer(cfg, db, p, runner, fields, enabled)
    case UpdateServer(id, c) => CommitUpdateServer(cfg, db, p, id, c)
    case DeleteServer(id) => CommitDeleteServer(cfg, db, p, id)
    case CloneServer(id) => CommitCloneServer(cfg, db, p, id)
    case SetEnabled(id, on) => CommitSetEnabled(cfg, db, p, id, on)
    case UpsertGroup(name, members) => CommitUpsertGroup(cfg, db, p, name, members)
    case DeleteGroup(name) => CommitDeleteGroup(cfg, db, p, name)
    case WriteSettings(mode, exposed, lan, controlMcp) =>
      CommitSettings(cfg, db, q.bearer, p, mode, exposed, lan, controlMcp)
  }

  // ---------------------------------------------------------------- the running plane

  /** `queue` are the requests that passed entry and wait to commit. */
  datatype Plane = Plane(db: Db, queue: seq<Request>)

  datatype Event =
    | Arrives(bearer: Bearer, op: Op)
    | Commits(i: nat)
    | GivesUp(i: nat)

  function Without(queue: seq<Request>, i: nat): (rest: seq<Request>)
    requires i < |queue|
    ensures forall q :: q in rest ==> q in queue
  {
    queue[..i] + queue[i + 1..]
  }

  function Step(cfg: Config, s: Plane, e: Event): Plane {
    match e
    case Arrives(bearer, op) =>
      var p := Resolve(cfg, s.db, bearer);
      if p.Some? && PassesEntry(s.db, p.value, op)
      then s.(queue := s.queue + [Request(bearer, p.value, op)])
      else s
    case Commits(i) =>
      if i < |s.queue| then Plane(Commit(cfg, s.db, s.queue[i]).0, Without(s.queue, i)) else s
    case GivesUp(i) => if i < |s.queue| then s.(queue := Without(s.queue, i)) else s
  }

  function RunAll(cfg: Config, s: Plane, events: seq<Event>): Plane
    decreases |events|
  {
    if events == [] then s else RunAll(cfg, Step(cfg, s, events[0]), events[1..])
  }

  /** `ensure_control_token`: mint an admin login where there is none. */
  function EnsureControlToken(cfg: Config, db: Db): Db {
    if cfg.envToken || AdminLogin(db, None) then db else Mint(db, Token(Control, None))
  }

  /** `_bootstrap_control_plane_auth`: only an enforced plane gets a login, a new one if `forced`. */
  function Boot(cfg: Config, db: Db, forced: bool): Db {
    if !Enforced(cfg, db.settings) || cfg.envToken then db
    else if forced then Mint(db, Token(Control, None))
    else EnsureControlToken(cfg, db)
  }
}
