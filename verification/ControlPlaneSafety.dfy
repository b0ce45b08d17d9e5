/** What the control plane promises over every run, and who may commit what. */
module ControlPlaneSafety {
  import opened Basics
  import opened ControlPlane
  import opened ControlPlaneInvariant

  // ---------------------------------------------------------------- the policy's words

  /** A credential is demanded. */
  predicate Demanded(cfg: Config, s: Settings) {
    s.mode == Always || s.exposed || s.lan || cfg.offHost
  }

  /** It runs as a process here. */
  predicate OnThisBox(runner: Runner) {
    runner in {Npx, Uvx, Command, Docker}
  }

  const WHAT_RUNS: set<string> := {
    "args", "command", "cwd", "env", "graphql_schema", "health_check_command", "openapi_document", "pin_mcp1",
    "post_clone_script", "repo_ref", "repo_url", "run_args", "setup_script"
  }

  const BUILTIN_MAY_CHANGE: set<string> := {
    "auth_provider", "disabled_tools", "idle_timeout_s", "mcp_http", "name", "normalize_schema_dialect", "tool_overrides"
  }

  /** A field of the row, empty where it has none. */
  function Reads(s: Server, key: string): string {
    if key in s.fields then s.fields[key] else ""
  }

  /** Some field in `keys`, or its runner, would read otherwise. */
  predicate Alters(s: Server, c: Changes, keys: set<string>) {
    || (c.runner.Some? && c.runner != Some(s.runner))
    || exists k :: k in c.fields && k in keys && c.fields[k] != Reads(s, k)
  }

  function AskedRunner(s: Server, c: Changes): Runner {
    match c.runner
    case Some(runner) => runner
    case None => s.runner
  }

  /** The row the change asks for, but for its owner. */
  function AskedRow(s: Server, c: Changes): Server {
    Server(s.owner, AskedRunner(s, c), s.fields + c.fields, s.enabled)
  }

  /** An admin could still log in without the token `gone`, and without whatever user `lost` has. */
  predicate LoginLeft(db: Db, gone: Option<Id>, lost: Option<Id>) {
    exists t :: t in db.tokens && Some(t) != gone && OpensForAnAdmin(db, lost, db.tokens[t])
  }

  predicate OpensForAnAdmin(db: Db, lost: Option<Id>, t: Token) {
    t.scope == Control &&
    match t.user
    case Some(u) => t.user != lost && u in db.users && db.users[u].role == Admin
    case None => true
  }

  lemma WordsOfThePlane(cfg: Config, db: Db, user: Option<Id>)
    ensures Demanded(cfg, db.settings) <==> Enforced(cfg, db.settings)
    ensures LoginLeft(db, None, user) <==> AdminLogin(db, user)
    ensures forall runner :: OnThisBox(runner) <==> IsLocal(runner)
  {
    forall t | t in db.tokens
      ensures OpensForAnAdmin(db, user, db.tokens[t]) <==> IsAdminLogin(db, user, db.tokens[t])
    {
    }
  }

  lemma WordsOfARevocation(db: Db, t: Id)
    ensures LoginLeft(db, Some(t), None) <==> AdminLogin(WithoutTokens(db, {t}), None)
  {
    var after := WithoutTokens(db, {t});
    if LoginLeft(db, Some(t), None) {
      var k :| k in db.tokens && k != t && OpensForAnAdmin(db, None, db.tokens[k]);
      assert k in after.tokens && IsAdminLogin(after, None, after.tokens[k]);
    }
    if AdminLogin(after, None) {
      var k :| k in after.tokens && IsAdminLogin(after, None, after.tokens[k]);
      assert k in db.tokens && Some(k) != Some(t) && OpensForAnAdmin(db, None, db.tokens[k]);
    }
  }

  lemma WordsOfAnEdit(s: Server, c: Changes)
    ensures Alters(s, c, WHAT_RUNS) <==> LaunchTouched(s, c)
    ensures BuiltinTouched(s, c) <==> Alters(s, c, c.fields.Keys - BUILTIN_MAY_CHANGE)
    ensures AskedRow(s, c) == Edited(s, c) && AskedRunner(s, c) == NewRunner(s, c)
  {
    assert WHAT_RUNS == LAUNCH_FIELDS && BUILTIN_MAY_CHANGE == BUILTIN_EDITABLE;
    assert forall k :: FieldOf(s, k) == Reads(s, k);
  }

  // ---------------------------------------------------------------- every run

  /** Nothing stored points at a row that is gone, but for a token of a deleted server. */
  lemma EverythingStaysLinked(cfg: Config, db: Db, forced: bool, events: seq<Event>)
    requires Sound(db)
    ensures var after := RunAll(cfg, Plane(Boot(cfg, db, forced), []), events).db;
            && OwnersExist(after) && TokensLinked(after) && MembersKnown(after) && BuiltinUnowned(after)
  {
    StartupHolds(cfg, db, forced);
    EveryRunKeeps(cfg, Plane(Boot(cfg, db, forced), []), events);
  }

  /** A member's data-plane token opens a server they own; it outlives only the server itself. */
  lemma MemberTokensAreTheirs(cfg: Config, db: Db, forced: bool, events: seq<Event>, t: Id)
    requires Sound(db)
    ensures var after := RunAll(cfg, Plane(Boot(cfg, db, forced), []), events).db;
            t in after.tokens && !after.tokens[t].scope.Control? && OfAMember(after, after.tokens[t]) ==>
              && after.tokens[t].scope.OfServer?
              && var s := after.tokens[t].scope.server;
                 (s in after.servers && after.servers[s].owner == after.tokens[t].user) || s !in after.servers
  {
    StartupHolds(cfg, db, forced);
    EveryRunKeeps(cfg, Plane(Boot(cfg, db, forced), []), events);
  }

  /** The exception is real: a member who deletes their server keeps the token they minted for it. */
  lemma DeletedServerLeavesItsTokens(cfg: Config, db: Db, q: Request, t: Id)
    requires q.op.DeleteServer? && Commit(cfg, db, q).1.Done?
    requires t in db.tokens && db.tokens[t].scope == OfServer(q.op.id)
    ensures var after := Commit(cfg, db, q).0;
            t in after.tokens && after.tokens[t] == db.tokens[t] && q.op.id !in after.servers
  {
  }

  /** While a token is required, some stored login passes the gate as an admin. */
  lemma SomebodyCanLogIn(cfg: Config, db: Db, forced: bool, events: seq<Event>)
    requires Sound(db) && !cfg.envToken
    ensures var after := RunAll(cfg, Plane(Boot(cfg, db, forced), []), events).db;
            Demanded(cfg, after.settings) ==>
              exists t :: t in after.tokens && PassesTheGate(cfg, after, t)
  {
    StartupHolds(cfg, db, forced);
    EveryRunKeeps(cfg, Plane(Boot(cfg, db, forced), []), events);
    var after := RunAll(cfg, Plane(Boot(cfg, db, forced), []), events).db;
    if Demanded(cfg, after.settings) {
      var t :| t in after.tokens && IsAdminLogin(after, None, after.tokens[t]);
      assert PassesTheGate(cfg, after, t);
    }
  }

  predicate PassesTheGate(cfg: Config, db: Db, t: Id) {
    var p := Resolve(cfg, db, TokenBearer(t));
    p.Some? && p.value.IsAdmin()
  }

  // ---------------------------------------------------------------- who may commit

  /** What the stored rows say of a caller right now. */
  datatype Authority = Nobody | Caller(user: Option<Id>, admin: bool, runners: bool)

  function HeldAuthority(db: Db, t: Id): Authority {
    if t in db.tokens && db.tokens[t].scope.Control? then
      match db.tokens[t].user
      case None => Caller(None, true, true)
      case Some(u) =>
        if u in db.users then Caller(Some(u), db.users[u].role.Admin?, db.users[u].localRunners || db.users[u].role.Admin?)
        else Nobody
    else Nobody
  }

  /** The authority of the credential the request was let in on. */
  function AuthorityOf(cfg: Config, db: Db, q: Request): Authority {
    match q.principal
    case LocalOperator => if Demanded(cfg, db.settings) then Nobody else Caller(None, true, true)
    case EnvAdmin => Caller(None, true, true)
    case Stored(t, _, _, _) => HeldAuthority(db, t)
  }

  predicate IsAdmin(a: Authority) {
    a.Caller? && a.admin
  }

  predicate Reaches(db: Db, a: Authority, s: Id) {
    a.Caller? && s in db.servers && (a.admin || (a.user.Some? && db.servers[s].owner == a.user))
  }

  predicate MayRun(a: Authority, runner: Runner) {
    a.Caller? && (OnThisBox(runner) ==> a.runners)
  }

  predicate BearerIsAdmin(cfg: Config, db: Db, bearer: Bearer) {
    match bearer
    case NoBearer => false
    case EnvBearer => cfg.envToken
    case TokenBearer(t) => IsAdmin(HeldAuthority(db, t))
  }

  /** The policy, on what is stored when the request commits. */
  predicate May(cfg: Config, db: Db, q: Request) {
    var a := AuthorityOf(cfg, db, q);
    match q.op
    case CreateToken(scope) => IsAdmin(a) || (scope.OfServer? && Reaches(db, a, scope.server))
    case DeleteToken(t) => IsAdmin(a) || (a.Caller? && a.user.Some? && t in db.tokens && db.tokens[t].user == a.user)
    case CreateServer(runner, _, _) => MayRun(a, runner)
    case UpdateServer(s, c) =>
      && Reaches(db, a, s)
      && (Alters(db.servers[s], c, WHAT_RUNS) ==> MayRun(a, AskedRunner(db.servers[s], c)))
      && (c.owner.Some? ==> a.admin)
    case DeleteServer(s) => Reaches(db, a, s)
    case SetEnabled(s, _) => Reaches(db, a, s)
    case CloneServer(s) => Reaches(db, a, s) && MayRun(a, db.servers[s].runner)
    case WriteSettings(_, _, _, _) => IsAdmin(a) || (q.principal.LocalOperator? && BearerIsAdmin(cfg, db, q.bearer))
    case _ => IsAdmin(a)
  }

  /** Whose the caller's new rows are. */
  function CallersId(p: Principal): Option<Id> {
    match p
    case LocalOperator => None
    case EnvAdmin => None
    case Stored(_, user, _, _) => user
  }

  function AskedSettings(s: Settings, mode: Option<Mode>, exposed: Option<bool>, lan: Option<bool>): Settings {
    Settings(match mode case Some(m) => m case None => s.mode,
             match exposed case Some(on) => on case None => s.exposed,
             match lan case Some(on) => on case None => s.lan)
  }

  /** What a commit asks of everything but its caller. */
  predicate Fits(cfg: Config, db: Db, q: Request) {
    match q.op
    case CreateUser(_) => true
    case UpdateUser(u, role, _) =>
      u in db.users &&
      (db.users[u].role.Admin? && role == Some(Member) ==> cfg.envToken || LoginLeft(db, None, Some(u)))
    case DeleteUser(u) =>
      && u in db.users && (forall s :: s in db.servers ==> db.servers[s].owner != Some(u))
      && (db.users[u].role.Admin? ==> cfg.envToken || LoginLeft(db, None, Some(u)))
    case MintLogin(u) => u in db.users
    case CreateToken(scope) =>
      (scope.OfServer? ==> scope.server in db.servers) && (scope.OfGroup? ==> scope.name in db.groups)
    case DeleteToken(t) =>
      t in db.tokens &&
      (db.tokens[t].scope.Control? && Demanded(cfg, db.settings) ==> cfg.envToken || LoginLeft(db, Some(t), None))
    case CreateServer(runner, fields, enabled) =>
      !runner.Builtin? && cfg.accepts(Server(CallersId(q.principal), runner, fields, enabled))
    case UpdateServer(s, c) =>
      && s in db.servers && cfg.accepts(AskedRow(db.servers[s], c))
      && (c.owner.Some? && c.owner.value.Some? ==> c.owner.value.value in db.users)
      && (if db.servers[s].runner.Builtin? then !Alters(db.servers[s], c, c.fields.Keys - BUILTIN_MAY_CHANGE)
          else c.runner != Some(Builtin))
    case DeleteServer(s) => s in db.servers
    case CloneServer(s) =>
      s in db.servers && !db.servers[s].runner.Builtin? &&
      cfg.accepts(Server(CallersId(q.principal), db.servers[s].runner, db.servers[s].fields, false))
    case SetEnabled(s, on) => s in db.servers && (on ==> cfg.accepts(db.servers[s].(enabled := true)))
    case UpsertGroup(_, members) => members.Only? ==> members.ids <= db.servers.Keys
    case DeleteGroup(name) => name in db.groups
    case WriteSettings(mode, exposed, lan, _) =>
      Demanded(cfg, AskedSettings(db.settings, mode, exposed, lan)) ==> BearerIsAdmin(cfg, db, q.bearer)
  }

  /** The principal a request remembers, once refreshed, is what the stored rows say. */
  lemma RefreshedIsStored(cfg: Config, db: Db, q: Request)
    requires RequestOk(db, q)
    ensures var now := Refresh(cfg, db, q.principal);
            AuthorityOf(cfg, db, q) ==
            if now.None? then Nobody else Caller(now.value.UserId(), now.value.IsAdmin(), now.value.RunsLocally())
    ensures PresentsAdmin(cfg, db, q.bearer) <==> BearerIsAdmin(cfg, db, q.bearer)
  {
    WordsOfThePlane(cfg, db, None);
  }

  lemma UserCommitsExactly(cfg: Config, db: Db, q: Request)
    requires RequestOk(db, q)
    requires q.op.CreateUser? || q.op.UpdateUser? || q.op.DeleteUser? || q.op.MintLogin?
    ensures Commit(cfg, db, q).1.Done? <==> May(cfg, db, q) && Fits(cfg, db, q)
  {
    RefreshedIsStored(cfg, db, q);
    WordsOfThePlane(cfg, db, if q.op.UpdateUser? || q.op.DeleteUser? then Some(q.op.id) else None);
  }

  lemma TokenCommitsExactly(cfg: Config, db: Db, q: Request)
    requires RequestOk(db, q)
    requires q.op.CreateToken? || q.op.DeleteToken? || q.op.UpsertGroup? || q.op.DeleteGroup?
    ensures Commit(cfg, db, q).1.Done? <==> May(cfg, db, q) && Fits(cfg, db, q)
  {
    RefreshedIsStored(cfg, db, q);
    WordsOfThePlane(cfg, db, None);
    if q.op.DeleteToken? {
      WordsOfARevocation(db, q.op.id);
    }
  }

  lemma ServerCommitsExactly(cfg: Config, db: Db, q: Request)
    requires RequestOk(db, q)
    requires q.op.CreateServer? || q.op.DeleteServer? || q.op.CloneServer? || q.op.SetEnabled?
    ensures Commit(cfg, db, q).1.Done? <==> May(cfg, db, q) && Fits(cfg, db, q)
  {
    RefreshedIsStored(cfg, db, q);
    WordsOfThePlane(cfg, db, None);
  }

  lemma EditCommitsExactly(cfg: Config, db: Db, q: Request)
    requires RequestOk(db, q) && q.op.UpdateServer?
    ensures Commit(cfg, db, q).1.Done? <==> May(cfg, db, q) && Fits(cfg, db, q)
  {
    RefreshedIsStored(cfg, db, q);
    WordsOfThePlane(cfg, db, None);
    if q.op.id in db.servers {
      WordsOfAnEdit(db.servers[q.op.id], q.op.changes);
    }
  }

  lemma SettingsCommitExactly(cfg: Config, db: Db, q: Request)
    requires RequestOk(db, q) && q.op.WriteSettings?
    ensures Commit(cfg, db, q).1.Done? <==> May(cfg, db, q) && Fits(cfg, db, q)
  {
    RefreshedIsStored(cfg, db, q);
    WordsOfThePlane(cfg, db, None);
    WordsOfThePlane(cfg, db.(settings := AskedSettings(db.settings, q.op.mode, q.op.exposed, q.op.lan)), None);
    assert AskedSettings(db.settings, q.op.mode, q.op.exposed, q.op.lan) == Patched(db.settings, q.op.mode, q.op.exposed, q.op.lan);
  }

  /** However long a request waited, it commits exactly when what is stored by then lets its
      credential do that, and nothing else stands against it; otherwise it changes nothing. */
  lemma CommitsExactlyWhatIsAllowed(cfg: Config, s: Plane, i: nat)
    requires Inv(cfg, s) && i < |s.queue|
    ensures var (db', outcome) := Commit(cfg, s.db, s.queue[i]);
            && (outcome.Done? <==> May(cfg, s.db, s.queue[i]) && Fits(cfg, s.db, s.queue[i]))
            && (!outcome.Done? ==> db' == s.db)
  {
    var (db, q) := (s.db, s.queue[i]);
    assert RequestOk(db, q);
    if q.op.CreateUser? || q.op.UpdateUser? || q.op.DeleteUser? || q.op.MintLogin? {
      UserCommitsExactly(cfg, db, q);
    } else if q.op.CreateToken? || q.op.DeleteToken? || q.op.UpsertGroup? || q.op.DeleteGroup? {
      TokenCommitsExactly(cfg, db, q);
    } else if q.op.UpdateServer? {
      EditCommitsExactly(cfg, db, q);
    } else if q.op.WriteSettings? {
      SettingsCommitExactly(cfg, db, q);
    } else {
      ServerCommitsExactly(cfg, db, q);
    }
  }

  /** A request whose token was revoked, or whose user was deleted, commits nothing any more. */
  lemma RevokedCallerChangesNothing(cfg: Config, s: Plane, i: nat)
    requires Inv(cfg, s) && i < |s.queue| && s.queue[i].principal.Stored?
    requires var p := s.queue[i].principal;
             p.token !in s.db.tokens || (p.user.Some? && p.user.value !in s.db.users)
    ensures Commit(cfg, s.db, s.queue[i]).0 == s.db
  {
    CommitsExactlyWhatIsAllowed(cfg, s, i);
    assert RequestOk(s.db, s.queue[i]);
  }

  /** A request let in while no token was required commits nothing once one is, but a settings
      write that carries an admin credential itself. */
  lemma LocalOperatorEndsWithEnforcement(cfg: Config, s: Plane, i: nat)
    requires Inv(cfg, s) && i < |s.queue| && s.queue[i].principal.LocalOperator? && Demanded(cfg, s.db.settings)
    requires s.queue[i].op.WriteSettings? ==> !BearerIsAdmin(cfg, s.db, s.queue[i].bearer)
    ensures Commit(cfg, s.db, s.queue[i]).0 == s.db
  {
    CommitsExactlyWhatIsAllowed(cfg, s, i);
  }

  // ---------------------------------------------------------------- members among themselves

  /** Whose server it was, or is. */
  predicate Owned(db: Db, user: Id, s: Id) {
    s in db.servers && db.servers[s].owner == Some(user)
  }

  predicate Holds(db: Db, user: Id, t: Id) {
    t in db.tokens && db.tokens[t].user == Some(user)
  }

  /** A caller who is no admin changes nothing but servers they own, tokens of their own, and what
      groups say of a server they take away; and what they add is theirs. */
  ghost predicate OnlyTheirs(db: Db, db': Db, user: Id) {
    && db'.users == db.users && db'.settings == db.settings && db'.groups.Keys == db.groups.Keys
    && (forall s :: s in db.servers && !Owned(db, user, s) ==> s in db'.servers && db'.servers[s] == db.servers[s])
    && (forall s :: s in db'.servers && !Owned(db, user, s) ==> s in db.servers || Owned(db', user, s))
    && (forall t :: t in db.tokens && !Holds(db, user, t) ==> t in db'.tokens && db'.tokens[t] == db.tokens[t])
    && (forall t :: t in db'.tokens && t !in db.tokens ==> Holds(db', user, t))
    && (forall g :: g in db.groups ==>
          db'.groups[g] == db.groups[g] ||
          (db.groups[g].Only? && db'.groups[g].Only? && db'.groups[g].ids <= db.groups[g].ids &&
           forall s :: s in db.groups[g].ids && s !in db'.groups[g].ids ==> Owned(db, user, s)))
  }

  /** The principal is that user's, and no admin any more, if ever. */
  predicate ByMember(cfg: Config, db: Db, p: Principal, user: Id) {
    var now := Refresh(cfg, db, p);
    now.Some? && !now.value.IsAdmin() && now.value.UserId() == p.UserId() == Some(user)
  }

  lemma TokenCommitIsTheirs(cfg: Config, db: Db, q: Request, user: Id)
    requires IdsKnown(db) && ByMember(cfg, db, q.principal, user) && (q.op.CreateToken? || q.op.DeleteToken?)
    ensures OnlyTheirs(db, Commit(cfg, db, q).0, user)
  {
    assert db.nextId !in db.tokens;
  }

  lemma EditIsTheirs(cfg: Config, db: Db, p: Principal, user: Id, id: Id, c: Changes)
    requires IdsKnown(db) && ByMember(cfg, db, p, user)
    ensures OnlyTheirs(db, CommitUpdateServer(cfg, db, p, id, c).0, user)
  {
  }

  lemma DeletionIsTheirs(cfg: Config, db: Db, p: Principal, user: Id, id: Id)
    requires IdsKnown(db) && ByMember(cfg, db, p, user)
    ensures OnlyTheirs(db, CommitDeleteServer(cfg, db, p, id).0, user)
  {
  }

  lemma ServerCommitIsTheirs(cfg: Config, db: Db, q: Request, user: Id)
    requires IdsKnown(db) && ByMember(cfg, db, q.principal, user)
    requires q.op.CreateServer? || q.op.CloneServer? || q.op.SetEnabled?
    ensures OnlyTheirs(db, Commit(cfg, db, q).0, user)
  {
    match q.op
    case CreateServer(runner, fields, enabled) => CreationIsTheirs(cfg, db, q.principal, user, runner, fields, enabled);
    case CloneServer(id) => CloneIsTheirs(cfg, db, q.principal, user, id);
    case SetEnabled(id, on) => ToggleIsTheirs(cfg, db, q.principal, user, id, on);
  }

  lemma CreationIsTheirs(
      cfg: Config, db: Db, p: Principal, user: Id, runner: Runner, fields: map<string, string>, enabled: bool)
    requires IdsKnown(db) && ByMember(cfg, db, p, user)
    ensures OnlyTheirs(db, CommitCreateServer(cfg, db, p, runner, fields, enabled).0, user)
  {
    assert db.nextId !in db.servers;
  }

  lemma CloneIsTheirs(cfg: Config, db: Db, p: Principal, user: Id, id: Id)
    requires IdsKnown(db) && ByMember(cfg, db, p, user)
    ensures OnlyTheirs(db, CommitCloneServer(cfg, db, p, id).0, user)
  {
    assert db.nextId !in db.servers;
  }

  lemma ToggleIsTheirs(cfg: Config, db: Db, p: Principal, user: Id, id: Id, on: bool)
    requires ByMember(cfg, db, p, user)
    ensures OnlyTheirs(db, CommitSetEnabled(cfg, db, p, id, on).0, user)
  {
  }

  lemma MembersTouchOnlyTheirOwn(cfg: Config, s: Plane, i: nat)
    requires Inv(cfg, s) && i < |s.queue|
    requires var a := AuthorityOf(cfg, s.db, s.queue[i]); a.Caller? && !a.admin
    ensures AuthorityOf(cfg, s.db, s.queue[i]).user.Some?
    ensures OnlyTheirs(s.db, Commit(cfg, s.db, s.queue[i]).0, AuthorityOf(cfg, s.db, s.queue[i]).user.value)
  {
    var (db, q) := (s.db, s.queue[i]);
    assert RequestOk(db, q);
    RefreshedIsStored(cfg, db, q);
    var user := AuthorityOf(cfg, db, q).user.value;
    if q.op.CreateToken? || q.op.DeleteToken? {
      TokenCommitIsTheirs(cfg, db, q, user);
    } else if q.op.CreateServer? || q.op.CloneServer? || q.op.SetEnabled? {
      ServerCommitIsTheirs(cfg, db, q, user);
    } else if q.op.UpdateServer? {
      EditIsTheirs(cfg, db, q.principal, user, q.op.id, q.op.changes);
    } else if q.op.DeleteServer? {
      DeletionIsTheirs(cfg, db, q.principal, user, q.op.id);
    } else {
      CommitsExactlyWhatIsAllowed(cfg, s, i);
    }
  }

  // ---------------------------------------------------------------- code on this box

  /** The parts of a row that decide what it executes. */
  ghost predicate SameLaunch(a: Server, b: Server) {
    a.runner == b.runner && forall k :: k in WHAT_RUNS ==> Reads(a, k) == Reads(b, k)
  }

  lemma UntouchedLaunch(s: Server, c: Changes)
    requires !Alters(s, c, WHAT_RUNS)
    ensures SameLaunch(s, AskedRow(s, c))
  {
    forall k | k in WHAT_RUNS
      ensures Reads(s, k) == Reads(AskedRow(s, c), k)
    {
      if k in c.fields {
        assert c.fields[k] == Reads(s, k);
      }
    }
  }

  lemma OtherCommitsKeepTheLaunch(cfg: Config, db: Db, q: Request)
    requires !q.op.CreateServer? && !q.op.CloneServer? && !q.op.UpdateServer?
    ensures var db' := Commit(cfg, db, q).0;
            forall s :: s in db'.servers ==> s in db.servers && SameLaunch(db.servers[s], db'.servers[s])
  {
    if q.op.SetEnabled? {
      TogglingKeepsTheLaunch(cfg, db, q.principal, q.op.id, q.op.on);
    } else if q.op.WriteSettings? {
      SettingsKeepTheLaunch(cfg, db, q);
    } else {
      OthersKeepTheServers(cfg, db, q);
    }
  }

  lemma TogglingKeepsTheLaunch(cfg: Config, db: Db, p: Principal, id: Id, on: bool)
    ensures var db' := CommitSetEnabled(cfg, db, p, id, on).0;
            forall s :: s in db'.servers ==> s in db.servers && SameLaunch(db.servers[s], db'.servers[s])
  {
  }

  lemma SettingsKeepTheLaunch(cfg: Config, db: Db, q: Request)
    requires q.op.WriteSettings?
    ensures var db' := Commit(cfg, db, q).0;
            forall s :: s in db'.servers ==> s in db.servers && SameLaunch(db.servers[s], db'.servers[s])
  {
  }

  lemma OthersKeepTheServers(cfg: Config, db: Db, q: Request)
    requires !q.op.CreateServer? && !q.op.CloneServer? && !q.op.UpdateServer? && !q.op.SetEnabled? && !q.op.WriteSettings?
    ensures var db' := Commit(cfg, db, q).0;
            forall s :: s in db'.servers ==> s in db.servers && db'.servers[s] == db.servers[s]
  {
    match q.op
    case DeleteServer(_) =>
    case _ =>
  }

  lemma EditedRow(cfg: Config, db: Db, p: Principal, id: Id, c: Changes)
    ensures var (db', outcome) := CommitUpdateServer(cfg, db, p, id, c);
            if outcome.Done? then
              && id in db.servers
              && db'.servers == db.servers[id := Edited(db.servers[id], c).(
                                             owner := if c.owner.Some? then c.owner.value else db.servers[id].owner)]
            else db' == db
  {
  }

  lemma EditShapesWithPermission(cfg: Config, db: Db, q: Request, id: Id)
    requires q.op.UpdateServer? && (Commit(cfg, db, q).1.Done? ==> May(cfg, db, q))
    ensures var db' := Commit(cfg, db, q).0;
            id in db'.servers && OnThisBox(db'.servers[id].runner) &&
            !(id in db.servers && SameLaunch(db.servers[id], db'.servers[id])) ==>
              var a := AuthorityOf(cfg, db, q);
              a.Caller? && a.runners
  {
    var (s, c) := (q.op.id, q.op.changes);
    EditedRow(cfg, db, q.principal, s, c);
    if s in db.servers {
      WordsOfAnEdit(db.servers[s], c);
      SameWhereUnaltered(db.servers[s], c);
    }
  }

  lemma SameWhereUnaltered(s: Server, c: Changes)
    ensures !Alters(s, c, WHAT_RUNS) ==>
              SameLaunch(s, Edited(s, c).(owner := if c.owner.Some? then c.owner.value else s.owner))
  {
    WordsOfAnEdit(s, c);
    if !Alters(s, c, WHAT_RUNS) {
      UntouchedLaunch(s, c);
    }
  }

  /** What a local server executes is shaped by callers with the local-runner permission, and by
      nobody else, whichever request does it. */
  lemma OnlyPermittedCallersShapeLocalServers(cfg: Config, s: Plane, i: nat, id: Id)
    requires Inv(cfg, s) && i < |s.queue|
    ensures var db' := Commit(cfg, s.db, s.queue[i]).0;
            id in db'.servers && OnThisBox(db'.servers[id].runner) &&
            !(id in s.db.servers && SameLaunch(s.db.servers[id], db'.servers[id])) ==>
              var a := AuthorityOf(cfg, s.db, s.queue[i]);
              a.Caller? && a.runners
  {
    var (db, q) := (s.db, s.queue[i]);
    CommitsExactlyWhatIsAllowed(cfg, s, i);
    if q.op.UpdateServer? {
      EditShapesWithPermission(cfg, db, q, id);
    } else if !q.op.CreateServer? && !q.op.CloneServer? {
      OtherCommitsKeepTheLaunch(cfg, db, q);
    }
  }
}
