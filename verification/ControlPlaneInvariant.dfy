/** What every commit of the control plane keeps, over every interleaving of waiting requests. */
module ControlPlaneInvariant {
  import opened Basics
  import opened ControlPlane

  /** Ids in use, or still named by a token, were handed out before. */
  ghost predicate IdsKnown(db: Db) {
    && (forall u :: u in db.users ==> u < db.nextId)
    && (forall t :: t in db.tokens ==> t < db.nextId && (db.tokens[t].scope.OfServer? ==> db.tokens[t].scope.server < db.nextId))
    && (forall s :: s in db.servers ==> s < db.nextId)
  }

  ghost predicate OwnersExist(db: Db) {
    forall s :: s in db.servers && db.servers[s].owner.Some? ==> db.servers[s].owner.value in db.users
  }

  ghost predicate TokensLinked(db: Db) {
    && (forall t :: t in db.tokens && db.tokens[t].user.Some? ==> db.tokens[t].user.value in db.users)
    && (forall t :: t in db.tokens && db.tokens[t].scope.OfGroup? ==> db.tokens[t].scope.name in db.groups)
  }

  ghost predicate MembersKnown(db: Db) {
    forall g :: g in db.groups && db.groups[g].Only? ==> db.groups[g].ids <= db.servers.Keys
  }

  /** A member's data-plane token opens a server they own, or one that is gone. */
  ghost predicate WithinReach(db: Db, t: Token) {
    t.scope.OfServer? && (t.scope.server in db.servers ==> db.servers[t.scope.server].owner == t.user)
  }

  ghost predicate MembersHoldTheirs(db: Db) {
    forall t :: t in db.tokens && OfAMember(db, db.tokens[t]) && !db.tokens[t].scope.Control? ==>
      WithinReach(db, db.tokens[t])
  }

  predicate OfAMember(db: Db, t: Token) {
    t.user.Some? && t.user.value in db.users && db.users[t.user.value].role.Member?
  }

  ghost predicate BuiltinUnowned(db: Db) {
    forall s :: s in db.servers && db.servers[s].runner.Builtin? ==> db.servers[s].owner.None?
  }

  /** While a token is required, somebody can still log in as an admin. */
  predicate NotLockedOut(cfg: Config, db: Db) {
    cfg.envToken || !Enforced(cfg, db.settings) || AdminLogin(db, None)
  }

  ghost predicate Sound(db: Db) {
    IdsKnown(db) && OwnersExist(db) && TokensLinked(db) && MembersKnown(db) && MembersHoldTheirs(db) && BuiltinUnowned(db)
  }

  /** What a waiting request remembers of the credential it came with still describes it, and its
      target didn't become the built-in server. */
  ghost predicate RequestOk(db: Db, q: Request) {
    && (q.principal.Stored? ==>
          && q.principal.token < db.nextId
          && (q.principal.user.None? ==> q.principal.role.Admin? && q.principal.localRunners)
          && (q.principal.token in db.tokens ==> db.tokens[q.principal.token] == Token(Control, q.principal.user)))
    && (q.op.DeleteServer? || (q.op.UpdateServer? && q.op.changes.owner.Some?) ==>
          q.op.id < db.nextId && (q.op.id in db.servers ==> !db.servers[q.op.id].runner.Builtin?))
  }

  ghost predicate Inv(cfg: Config, s: Plane) {
    && Sound(s.db) && NotLockedOut(cfg, s.db)
    && forall q :: q in s.queue ==> RequestOk(s.db, q)
  }

  // ---------------------------------------------------------------- how a commit moves

  /** Rows of old ids are the old rows, or gone. */
  ghost predicate Moves(db: Db, db': Db) {
    && db.nextId <= db'.nextId
    && (forall t :: t in db'.tokens && t < db.nextId ==> t in db.tokens && db'.tokens[t] == db.tokens[t])
    && (forall s :: s in db'.servers && s < db.nextId ==>
          s in db.servers && (db'.servers[s].runner.Builtin? <==> db.servers[s].runner.Builtin?))
  }

  lemma WaitingStaysOk(db: Db, db': Db, q: Request)
    requires Moves(db, db') && RequestOk(db, q)
    ensures RequestOk(db', q)
  {
  }

  /** Taking tokens away breaks nothing but a login. */
  lemma RevokingKeeps(db: Db, ids: set<Id>)
    requires Sound(db)
    ensures Sound(WithoutTokens(db, ids)) && Moves(db, WithoutTokens(db, ids))
  {
  }

  lemma MintingKeeps(db: Db, t: Token)
    requires Sound(db)
    requires t.user.Some? ==> t.user.value in db.users
    requires t.scope.OfGroup? ==> t.scope.name in db.groups
    requires t.scope.OfServer? ==> t.scope.server in db.servers
    requires OfAMember(db, t) && !t.scope.Control? ==> WithinReach(db, t)
    ensures Sound(Mint(db, t)) && Moves(db, Mint(db, t))
    ensures AdminLogin(db, None) ==> AdminLogin(Mint(db, t), None)
  {
    assert db.nextId !in db.tokens;
    if AdminLogin(db, None) {
      var k :| k in db.tokens && IsAdminLogin(db, None, db.tokens[k]);
      assert k in Mint(db, t).tokens && IsAdminLogin(Mint(db, t), None, Mint(db, t).tokens[k]);
    }
  }

  // ---------------------------------------------------------------- users

  lemma CreateUserKeeps(cfg: Config, db: Db, p: Principal, user: User)
    requires Sound(db) && NotLockedOut(cfg, db)
    ensures var db' := CommitCreateUser(cfg, db, p, user).0; Sound(db') && NotLockedOut(cfg, db') && Moves(db, db')
  {
    var db' := CommitCreateUser(cfg, db, p, user).0;
    if AdminLogin(db, None) {
      var k :| k in db.tokens && IsAdminLogin(db, None, db.tokens[k]);
      assert IsAdminLogin(db', None, db'.tokens[k]);
    }
  }

  /** Editing a user who stays in reach of every token they keep. */
  lemma EditingKeeps(db: Db, id: Id, user: User)
    requires Sound(db) && id in db.users
    requires user.role.Member? ==>
               forall t :: t in db.tokens && db.tokens[t].user == Some(id) && !db.tokens[t].scope.Control? ==>
                 WithinReach(db, db.tokens[t])
    ensures Sound(db.(users := db.users[id := user])) && Moves(db, db.(users := db.users[id := user]))
  {
    var db' := db.(users := db.users[id := user]);
    forall t | t in db'.tokens && OfAMember(db', db'.tokens[t]) && !db'.tokens[t].scope.Control?
      ensures WithinReach(db', db'.tokens[t])
    {
      assert db.tokens[t].user != Some(id) ==> OfAMember(db, db.tokens[t]);
    }
  }

  lemma ReachStays(db: Db, id: Id)
    requires Sound(db) && id in db.users && db.users[id].role.Member?
    ensures forall t :: t in db.tokens && db.tokens[t].user == Some(id) && !db.tokens[t].scope.Control? ==>
              WithinReach(db, db.tokens[t])
  {
    forall t | t in db.tokens && db.tokens[t].user == Some(id) && !db.tokens[t].scope.Control?
      ensures WithinReach(db, db.tokens[t])
    {
      assert OfAMember(db, db.tokens[t]);
    }
  }

  /** Another admin's login outlives whatever happens to this user and their data-plane tokens. */
  lemma OtherLoginStays(db: Db, id: Id, db': Db)
    requires AdminLogin(db, Some(id))
    requires forall t :: t in db.tokens && db.tokens[t].scope.Control? && db.tokens[t].user != Some(id) ==>
               t in db'.tokens && db'.tokens[t] == db.tokens[t]
    requires forall u :: u in db.users && u != id ==> u in db'.users && db'.users[u] == db.users[u]
    ensures AdminLogin(db', None)
  {
    var k :| k in db.tokens && IsAdminLogin(db, Some(id), db.tokens[k]);
    assert IsAdminLogin(db', None, db'.tokens[k]);
  }

  lemma SameLogins(db: Db, db': Db)
    requires forall t :: t in db.tokens && db.tokens[t].scope.Control? ==> t in db'.tokens && db'.tokens[t] == db.tokens[t]
    requires forall u :: u in db.users && db.users[u].role.Admin? ==> u in db'.users && db'.users[u].role.Admin?
    ensures AdminLogin(db, None) ==> AdminLogin(db', None)
  {
    if AdminLogin(db, None) {
      var k :| k in db.tokens && IsAdminLogin(db, None, db.tokens[k]);
      assert IsAdminLogin(db', None, db'.tokens[k]);
    }
  }

  /** A demotion takes the tokens a member could not have minted, and leaves another admin. */
  lemma DemotionKeeps(cfg: Config, db: Db, id: Id, user: User)
    requires Sound(db) && NotLockedOut(cfg, db) && id in db.users && user.role.Member?
    requires cfg.envToken || AdminLogin(db, Some(id))
    ensures var db' := WithoutTokens(db, OverprivilegedIds(db, id)).(users := db.users[id := user]);
            Sound(db') && NotLockedOut(cfg, db') && Moves(db, db')
  {
    var revoked := WithoutTokens(db, OverprivilegedIds(db, id));
    RevokingKeeps(db, OverprivilegedIds(db, id));
    EditingKeeps(revoked, id, user);
    if !cfg.envToken {
      OtherLoginStays(db, id, revoked.(users := db.users[id := user]));
    }
  }

  lemma OtherEditKeeps(cfg: Config, db: Db, id: Id, user: User)
    requires Sound(db) && NotLockedOut(cfg, db) && id in db.users && (user.role.Member? ==> db.users[id].role.Member?)
    ensures var db' := WithoutTokens(db, {}).(users := db.users[id := user]);
            Sound(db') && NotLockedOut(cfg, db') && Moves(db, db')
  {
    if db.users[id].role.Member? {
      ReachStays(db, id);
    }
    assert WithoutTokens(db, {}) == db;
    EditingKeeps(db, id, user);
    SameLogins(db, db.(users := db.users[id := user]));
  }

  lemma UpdateUserKeeps(cfg: Config, db: Db, p: Principal, id: Id, role: Option<Role>, runners: Option<bool>)
    requires Sound(db) && NotLockedOut(cfg, db)
    ensures var db' := CommitUpdateUser(cfg, db, p, id, role, runners).0;
            Sound(db') && NotLockedOut(cfg, db') && Moves(db, db')
  {
    var (db', outcome) := CommitUpdateUser(cfg, db, p, id, role, runners);
    if outcome.Done? {
      if db.users[id].role.Admin? && db'.users[id].role.Member? {
        DemotionKeeps(cfg, db, id, db'.users[id]);
      } else {
        OtherEditKeeps(cfg, db, id, db'.users[id]);
      }
    }
  }

  /** A user goes with all their tokens; they own no server. */
  lemma RemovingKeeps(db: Db, id: Id)
    requires Sound(db) && id in db.users && !Owns(db, id)
    ensures var db' := WithoutTokens(db, TokensOf(db, id)).(users := db.users - {id}); Sound(db') && Moves(db, db')
  {
    var db' := WithoutTokens(db, TokensOf(db, id)).(users := db.users - {id});
    forall s | s in db'.servers && db'.servers[s].owner.Some?
      ensures db'.servers[s].owner.value in db'.users
    {
      assert s in db.servers;
    }
    forall t | t in db'.tokens && OfAMember(db', db'.tokens[t]) && !db'.tokens[t].scope.Control?
      ensures WithinReach(db', db'.tokens[t])
    {
      assert OfAMember(db, db.tokens[t]) && WithinReach(db, db.tokens[t]);
    }
  }

  lemma DeleteDone(cfg: Config, db: Db, p: Principal, id: Id)
    ensures var (db', outcome) := CommitDeleteUser(cfg, db, p, id);
            if outcome.Done? then
              && id in db.users && !Owns(db, id) && (db.users[id].role.Admin? && !cfg.envToken ==> AdminLogin(db, Some(id)))
              && db' == WithoutTokens(db, TokensOf(db, id)).(users := db.users - {id})
            else db' == db
  {
  }

  /** A member's login is no admin's. */
  lemma MemberLoginIsNoAdmins(db: Db, id: Id)
    requires id in db.users && db.users[id].role.Member? && AdminLogin(db, None)
    ensures AdminLogin(db, Some(id))
  {
    var k :| k in db.tokens && IsAdminLogin(db, None, db.tokens[k]);
    assert IsAdminLogin(db, Some(id), db.tokens[k]);
  }

  lemma RemovalLocksNobodyOut(cfg: Config, db: Db, id: Id, db': Db)
    requires NotLockedOut(cfg, db) && id in db.users
    requires db.users[id].role.Admin? && !cfg.envToken ==> AdminLogin(db, Some(id))
    requires db' == WithoutTokens(db, TokensOf(db, id)).(users := db.users - {id})
    ensures NotLockedOut(cfg, db')
  {
    if db.users[id].role.Member? && AdminLogin(db, None) {
      MemberLoginIsNoAdmins(db, id);
    }
    if AdminLogin(db, Some(id)) {
      OtherLoginStays(db, id, db');
    }
  }

  lemma DeleteUserKeeps(cfg: Config, db: Db, p: Principal, id: Id)
    requires Sound(db) && NotLockedOut(cfg, db)
    ensures var db' := CommitDeleteUser(cfg, db, p, id).0; Sound(db') && NotLockedOut(cfg, db') && Moves(db, db')
  {
    var (db', outcome) := CommitDeleteUser(cfg, db, p, id);
    DeleteDone(cfg, db, p, id);
    if outcome.Done? {
      RemovingKeeps(db, id);
      RemovalLocksNobodyOut(cfg, db, id, db');
    }
  }

  lemma MintLoginKeeps(cfg: Config, db: Db, p: Principal, id: Id)
    requires Sound(db) && NotLockedOut(cfg, db)
    ensures var db' := CommitMintLogin(cfg, db, p, id).0; Sound(db') && NotLockedOut(cfg, db') && Moves(db, db')
  {
    if id in db.users {
      MintingKeeps(db, Token(Control, Some(id)));
    }
  }

  // ---------------------------------------------------------------- tokens

  lemma CreateTokenKeeps(cfg: Config, db: Db, q: Request, scope: Scope)
    requires Sound(db) && NotLockedOut(cfg, db) && RequestOk(db, q)
    ensures var db' := CommitCreateToken(cfg, db, q.principal, scope).0;
            Sound(db') && NotLockedOut(cfg, db') && Moves(db, db')
  {
    if CommitCreateToken(cfg, db, q.principal, scope).1.Done? {
      MintingKeeps(db, Token(scope, q.principal.UserId()));
    }
  }

  lemma DeleteTokenKeeps(cfg: Config, db: Db, p: Principal, id: Id)
    requires Sound(db) && NotLockedOut(cfg, db)
    ensures var db' := CommitDeleteToken(cfg, db, p, id).0; Sound(db') && NotLockedOut(cfg, db') && Moves(db, db')
  {
    if CommitDeleteToken(cfg, db, p, id).1.Done? {
      RevokingKeeps(db, {id});
      if !db.tokens[id].scope.Control? {
        SameLogins(db, WithoutTokens(db, {id}));
      }
    }
  }

  // ---------------------------------------------------------------- servers

  lemma AddServerKeeps(cfg: Config, db: Db, s: Server)
    requires Sound(db) && NotLockedOut(cfg, db) && (s.owner.Some? ==> s.owner.value in db.users)
    ensures var db' := AddServer(cfg, db, s).0; Sound(db') && NotLockedOut(cfg, db') && Moves(db, db')
  {
    var db' := AddServer(cfg, db, s).0;
    assert db.nextId !in db.servers;
    forall t | t in db'.tokens && OfAMember(db', db'.tokens[t]) && !db'.tokens[t].scope.Control?
      ensures WithinReach(db', db'.tokens[t])
    {
      assert OfAMember(db, db.tokens[t]) && WithinReach(db, db.tokens[t]);
    }
    SameLogins(db, db');
  }

  /** A server row changes, and its former owner loses their own tokens for it. */
  lemma TransferKeeps(db: Db, id: Id, next: Server)
    requires Sound(db) && id in db.servers
    requires next.owner.Some? ==> next.owner.value in db.users
    requires next.runner.Builtin? <==> db.servers[id].runner.Builtin?
    requires next.runner.Builtin? ==> next.owner.None?
    ensures var db' := WithoutTokens(db, StaleTokens(db, db.servers[id].owner, next.owner, id)).(servers := db.servers[id := next]);
            Sound(db') && Moves(db, db') && (AdminLogin(db, None) ==> AdminLogin(db', None))
  {
    var stale := StaleTokens(db, db.servers[id].owner, next.owner, id);
    var db' := WithoutTokens(db, stale).(servers := db.servers[id := next]);
    assert db'.servers.Keys == db.servers.Keys;
    forall t | t in db'.tokens && OfAMember(db', db'.tokens[t]) && !db'.tokens[t].scope.Control?
      ensures WithinReach(db', db'.tokens[t])
    {
      assert OfAMember(db, db.tokens[t]) && WithinReach(db, db.tokens[t]);
    }
    SameLogins(db, db');
  }

  /** What an accepted edit does, and what was checked for it. */
  lemma UpdateDone(cfg: Config, db: Db, p: Principal, id: Id, c: Changes)
    ensures var (db', outcome) := CommitUpdateServer(cfg, db, p, id, c);
            if outcome.Done? then
              && id in db.servers && (c.owner.Some? && c.owner.value.Some? ==> c.owner.value.value in db.users)
              && (Edited(db.servers[id], c).runner.Builtin? <==> db.servers[id].runner.Builtin?)
              && db' == AfterEdit(db, id, Edited(db.servers[id], c), c.owner)
            else db' == db
  {
    if CommitUpdateServer(cfg, db, p, id, c).1.Done? && c.owner.None? {
      assert StaleTokens(db, db.servers[id].owner, db.servers[id].owner, id) == {};
      assert WithoutTokens(db, {}) == db;
    }
  }

  /** A row's new state, and its tokens revoked where the owner changes. */
  function AfterEdit(db: Db, id: Id, edited: Server, owner: Option<Option<Id>>): Db
    requires id in db.servers
  {
    var next := if owner.None? then edited else edited.(owner := owner.value);
    WithoutTokens(db, StaleTokens(db, db.servers[id].owner, if owner.None? then db.servers[id].owner else owner.value, id)).(
      servers := db.servers[id := next])
  }

  lemma EditKeeps(db: Db, id: Id, edited: Server, owner: Option<Option<Id>>)
    requires Sound(db) && id in db.servers && edited.owner == db.servers[id].owner
    requires owner.Some? && owner.value.Some? ==> owner.value.value in db.users
    requires edited.runner.Builtin? <==> db.servers[id].runner.Builtin?
    requires owner.Some? ==> !db.servers[id].runner.Builtin?
    ensures var db' := AfterEdit(db, id, edited, owner);
            Sound(db') && Moves(db, db') && (AdminLogin(db, None) ==> AdminLogin(db', None)) && db'.settings == db.settings
  {
    TransferKeeps(db, id, if owner.None? then edited else edited.(owner := owner.value));
  }

  lemma UpdateServerKeeps(cfg: Config, db: Db, p: Principal, id: Id, c: Changes)
    requires Sound(db) && NotLockedOut(cfg, db)
    requires c.owner.Some? && id in db.servers ==> !db.servers[id].runner.Builtin?
    ensures var db' := CommitUpdateServer(cfg, db, p, id, c).0;
            Sound(db') && NotLockedOut(cfg, db') && Moves(db, db')
  {
    UpdateDone(cfg, db, p, id, c);
    if CommitUpdateServer(cfg, db, p, id, c).1.Done? {
      EditKeeps(db, id, Edited(db.servers[id], c), c.owner);
    }
  }

  lemma DeleteServerKeeps(cfg: Config, db: Db, p: Principal, id: Id)
    requires Sound(db) && NotLockedOut(cfg, db)
    ensures var db' := CommitDeleteServer(cfg, db, p, id).0; Sound(db') && NotLockedOut(cfg, db') && Moves(db, db')
  {
    var db' := CommitDeleteServer(cfg, db, p, id).0;
    forall t | t in db'.tokens && OfAMember(db', db'.tokens[t]) && !db'.tokens[t].scope.Control?
      ensures WithinReach(db', db'.tokens[t])
    {
      assert OfAMember(db, db.tokens[t]) && WithinReach(db, db.tokens[t]);
    }
    SameLogins(db, db');
  }

  lemma ToggleDone(cfg: Config, db: Db, p: Principal, id: Id, on: bool)
    ensures var (db', outcome) := CommitSetEnabled(cfg, db, p, id, on);
            if outcome.Done? then id in db.servers && db' == AfterEdit(db, id, db.servers[id].(enabled := on), None)
            else db' == db
  {
    if CommitSetEnabled(cfg, db, p, id, on).1.Done? {
      assert StaleTokens(db, db.servers[id].owner, db.servers[id].owner, id) == {};
      assert WithoutTokens(db, {}) == db;
    }
  }

  lemma SetEnabledKeeps(cfg: Config, db: Db, p: Principal, id: Id, on: bool)
    requires Sound(db) && NotLockedOut(cfg, db)
    ensures var db' := CommitSetEnabled(cfg, db, p, id, on).0; Sound(db') && NotLockedOut(cfg, db') && Moves(db, db')
  {
    ToggleDone(cfg, db, p, id, on);
    if CommitSetEnabled(cfg, db, p, id, on).1.Done? {
      EditKeeps(db, id, db.servers[id].(enabled := on), None);
    }
  }

  // ---------------------------------------------------------------- groups and settings

  lemma UpsertGroupKeeps(cfg: Config, db: Db, p: Principal, name: string, members: Members)
    requires Sound(db) && NotLockedOut(cfg, db)
    ensures var db' := CommitUpsertGroup(cfg, db, p, name, members).0;
            Sound(db') && NotLockedOut(cfg, db') && Moves(db, db')
  {
    SameLogins(db, CommitUpsertGroup(cfg, db, p, name, members).0);
  }

  lemma DeleteGroupKeeps(cfg: Config, db: Db, p: Principal, name: string)
    requires Sound(db) && NotLockedOut(cfg, db)
    ensures var db' := CommitDeleteGroup(cfg, db, p, name).0; Sound(db') && NotLockedOut(cfg, db') && Moves(db, db')
  {
    RevokingKeeps(db, TokensScoped(db, OfGroup(name)));
    SameLogins(db, CommitDeleteGroup(cfg, db, p, name).0);
  }

  lemma PresentedIsALogin(cfg: Config, db: Db, bearer: Bearer)
    requires PresentsAdmin(cfg, db, bearer)
    ensures cfg.envToken || AdminLogin(db, None)
  {
    if bearer.TokenBearer? {
      assert IsAdminLogin(db, None, db.tokens[bearer.token]);
    }
  }

  /** Nothing that matters here hangs on a server's fields or its enabled flag. */
  lemma TogglingKeeps(db: Db, controlMcp: Option<bool>)
    requires Sound(db)
    ensures Sound(db.(servers := Toggled(db.servers, controlMcp))) && Moves(db, db.(servers := Toggled(db.servers, controlMcp)))
  {
    var db' := db.(servers := Toggled(db.servers, controlMcp));
    assert db'.servers.Keys == db.servers.Keys;
    assert forall s :: s in db'.servers ==>
             db'.servers[s].owner == db.servers[s].owner && db'.servers[s].runner == db.servers[s].runner;
    forall t | t in db'.tokens && OfAMember(db', db'.tokens[t]) && !db'.tokens[t].scope.Control?
      ensures WithinReach(db', db'.tokens[t])
    {
      assert OfAMember(db, db.tokens[t]) && WithinReach(db, db.tokens[t]);
    }
  }

  lemma SettingsKeep(cfg: Config, db: Db, q: Request)
    requires Sound(db) && NotLockedOut(cfg, db) && q.op.WriteSettings?
    ensures var db' := Commit(cfg, db, q).0; Sound(db') && NotLockedOut(cfg, db') && Moves(db, db')
  {
    var (db', outcome) := Commit(cfg, db, q);
    if outcome.Done? {
      TogglingKeeps(db, q.op.controlMcp);
      assert db' == db.(servers := Toggled(db.servers, q.op.controlMcp)).(settings := db'.settings);
      SettingsAreFree(db.(servers := Toggled(db.servers, q.op.controlMcp)), db'.settings);
      SameLogins(db, db');
      if PresentsAdmin(cfg, db, q.bearer) {
        PresentedIsALogin(cfg, db, q.bearer);
      }
    }
  }

  lemma SettingsAreFree(db: Db, settings: Settings)
    requires Sound(db)
    ensures Sound(db.(settings := settings)) && Moves(db, db.(settings := settings))
  {
    var db' := db.(settings := settings);
    forall t | t in db'.tokens && OfAMember(db', db'.tokens[t]) && !db'.tokens[t].scope.Control?
      ensures WithinReach(db', db'.tokens[t])
    {
      assert OfAMember(db, db.tokens[t]) && WithinReach(db, db.tokens[t]);
    }
  }

  // ---------------------------------------------------------------- every commit, every run

  /** A principal that refreshes has a user that exists. */
  lemma FreshUserExists(cfg: Config, db: Db, p: Principal)
    requires Refresh(cfg, db, p).Some?
    ensures p.UserId().Some? ==> p.UserId().value in db.users
  {
  }

  lemma CreateServerKeeps(cfg: Config, db: Db, p: Principal, runner: Runner, fields: map<string, string>, enabled: bool)
    requires Sound(db) && NotLockedOut(cfg, db)
    ensures var db' := CommitCreateServer(cfg, db, p, runner, fields, enabled).0;
            Sound(db') && NotLockedOut(cfg, db') && Moves(db, db')
  {
    if Refresh(cfg, db, p).Some? {
      FreshUserExists(cfg, db, p);
      AddServerKeeps(cfg, db, Server(p.UserId(), runner, fields, enabled));
    }
  }

  lemma CloneServerKeeps(cfg: Config, db: Db, p: Principal, id: Id)
    requires Sound(db) && NotLockedOut(cfg, db)
    ensures var db' := CommitCloneServer(cfg, db, p, id).0; Sound(db') && NotLockedOut(cfg, db') && Moves(db, db')
  {
    if Refresh(cfg, db, p).Some? && id in db.servers {
      FreshUserExists(cfg, db, p);
      AddServerKeeps(cfg, db, Server(p.UserId(), db.servers[id].runner, db.servers[id].fields, false));
    }
  }

  lemma ServerCommitKeeps(cfg: Config, db: Db, q: Request)
    requires Sound(db) && NotLockedOut(cfg, db) && RequestOk(db, q)
    requires q.op.CreateServer? || q.op.UpdateServer? || q.op.DeleteServer? || q.op.CloneServer? || q.op.SetEnabled?
    ensures var db' := Commit(cfg, db, q).0; Sound(db') && NotLockedOut(cfg, db') && Moves(db, db')
  {
    var p := q.principal;
    match q.op
    case CreateServer(runner, fields, enabled) => CreateServerKeeps(cfg, db, p, runner, fields, enabled);
    case UpdateServer(id, c) => UpdateServerKeeps(cfg, db, p, id, c);
    case DeleteServer(id) => DeleteServerKeeps(cfg, db, p, id);
    case CloneServer(id) => CloneServerKeeps(cfg, db, p, id);
    case SetEnabled(id, on) => SetEnabledKeeps(cfg, db, p, id, on);
  }

  lemma CommitKeeps(cfg: Config, db: Db, q: Request)
    requires Sound(db) && NotLockedOut(cfg, db) && RequestOk(db, q)
    ensures var db' := Commit(cfg, db, q).0; Sound(db') && NotLockedOut(cfg, db') && Moves(db, db')
  {
    var p := q.principal;
    match q.op
    case CreateUser(user) => CreateUserKeeps(cfg, db, p, user);
    case UpdateUser(id, role, runners) => UpdateUserKeeps(cfg, db, p, id, role, runners);
    case DeleteUser(id) => DeleteUserKeeps(cfg, db, p, id);
    case MintLogin(id) => MintLoginKeeps(cfg, db, p, id);
    case CreateToken(scope) => CreateTokenKeeps(cfg, db, q, scope);
    case DeleteToken(id) => DeleteTokenKeeps(cfg, db, p, id);
    case UpsertGroup(name, members) => UpsertGroupKeeps(cfg, db, p, name, members);
    case DeleteGroup(name) => DeleteGroupKeeps(cfg, db, p, name);
    case WriteSettings(_, _, _, _) => SettingsKeep(cfg, db, q);
    case _ => ServerCommitKeeps(cfg, db, q);
  }

  lemma ArrivalIsOk(cfg: Config, db: Db, bearer: Bearer, op: Op)
    requires Sound(db)
    requires var p := Resolve(cfg, db, bearer); p.Some? && PassesEntry(db, p.value, op)
    ensures RequestOk(db, Request(bearer, Resolve(cfg, db, bearer).value, op))
  {
  }

  lemma StepKeeps(cfg: Config, s: Plane, e: Event)
    requires Inv(cfg, s)
    ensures Inv(cfg, Step(cfg, s, e))
  {
    match e
    case Arrives(bearer, op) =>
      var p := Resolve(cfg, s.db, bearer);
      if p.Some? && PassesEntry(s.db, p.value, op) {
        ArrivalIsOk(cfg, s.db, bearer, op);
      }
    case Commits(i) =>
      if i < |s.queue| {
        CommitKeeps(cfg, s.db, s.queue[i]);
        forall q | q in Without(s.queue, i)
          ensures RequestOk(Commit(cfg, s.db, s.queue[i]).0, q)
        {
          WaitingStaysOk(s.db, Commit(cfg, s.db, s.queue[i]).0, q);
        }
      }
    case GivesUp(_) =>
  }

  lemma {:induction false} EveryRunKeeps(cfg: Config, s: Plane, events: seq<Event>)
    requires Inv(cfg, s)
    ensures Inv(cfg, RunAll(cfg, s, events))
    decreases |events|
  {
    if events != [] {
      StepKeeps(cfg, s, events[0]);
      EveryRunKeeps(cfg, Step(cfg, s, events[0]), events[1..]);
    }
  }

  lemma MintedLogin(db: Db)
    requires Sound(db)
    ensures var db' := Mint(db, Token(Control, None)); Sound(db') && AdminLogin(db', None) && db'.settings == db.settings
  {
    MintingKeeps(db, Token(Control, None));
    var db' := Mint(db, Token(Control, None));
    assert IsAdminLogin(db', None, db'.tokens[db.nextId]);
  }

  /** A start on any sound database, enforced or not, with a login or without. */
  lemma StartupHolds(cfg: Config, db: Db, forced: bool)
    requires Sound(db)
    ensures Inv(cfg, Plane(Boot(cfg, db, forced), []))
  {
    MintedLogin(db);
  }
}
