/**
 The control plane's commits as its handlers make them, row by row, under the config write lock
 (backend/app/api/users.py, tokens.py, servers.py, groups.py, settings.py; backend/app/db/repo.py).
 Each leaves the tables as `ControlPlane` says.
 */
module ControlPlaneHost {
  import opened Basics
  import P = ControlPlane

  /** Who a request comes from doesn't hang on what it stages. */
  lemma StagingKeepsTheCaller(cfg: P.Config, db: P.Db, staged: P.Db, bearer: P.Bearer, p: P.Principal)
    requires staged.users == db.users && staged.tokens == db.tokens
    ensures P.PresentsAdmin(cfg, staged, bearer) == P.PresentsAdmin(cfg, db, bearer)
    ensures !p.LocalOperator? ==> P.AdminNow(cfg, staged, p) == P.AdminNow(cfg, db, p)
  {
  }

  class Database {
    var users: map<P.Id, P.User>
    var tokens: map<P.Id, P.Token>
    var servers: map<P.Id, P.Server>
    var groups: map<string, P.Members>
    var settings: P.Settings
    var nextId: P.Id

    ghost function View(): P.Db
      reads this
    {
      P.Db(users, tokens, servers, groups, settings, nextId)
    }

    constructor (settings: P.Settings)
      ensures View() == P.Db(map[], map[], map[], map[], settings, 0)
    {
      users, tokens, servers, groups, this.settings, nextId := map[], map[], map[], map[], settings, 0;
    }

    // -------------------------------------------------------------- reading

    /** `refresh`. */
    method Refresh(cfg: P.Config, p: P.Principal) returns (now: Option<P.Principal>)
      ensures now == P.Refresh(cfg, View(), p)
    {
      match p
      case LocalOperator => return if P.Enforced(cfg, settings) then None else Some(p);
      case EnvAdmin => return Some(p);
      case Stored(t, user, _, _) =>
        if t !in tokens {
          return None;
        }
        if user.None? {
          return Some(p);
        }
        if user.value !in users {
          return None;
        }
        return Some(P.AsUser(t, user.value, users[user.value]));
    }

    /** `admin_now`. */
    method AdminNow(cfg: P.Config, p: P.Principal) returns (admin: bool)
      ensures admin == P.AdminNow(cfg, View(), p)
    {
      var now := Refresh(cfg, p);
      admin := now.Some? && now.value.IsAdmin();
    }

    /** `admin_credential_exists`: the first login that resolves to admin. */
    method AdminCredentialExists(besides: Option<P.Id>) returns (found: bool)
      ensures found == P.AdminLogin(View(), besides)
    {
      var rows := tokens.Keys;
      while rows != {}
        invariant rows <= tokens.Keys
        invariant forall t :: t in tokens && t !in rows ==> !P.IsAdminLogin(View(), besides, tokens[t])
        decreases rows
      {
        var t :| t in rows;
        rows := rows - {t};
        var token := tokens[t];
        if token.scope.Control? {
          if token.user.None? {
            assert P.IsAdminLogin(View(), besides, tokens[t]);
            return true;
          }
          if besides != token.user && token.user.value in users && users[token.user.value].role.Admin? {
            assert P.IsAdminLogin(View(), besides, tokens[t]);
            return true;
          }
        }
      }
      return false;
    }

    /** `_admin_login_would_remain`. */
    method AdminLoginWouldRemain(cfg: P.Config, besides: P.Id) returns (remains: bool)
      ensures remains == (cfg.envToken || P.AdminLogin(View(), Some(besides)))
    {
      if cfg.envToken {
        return true;
      }
      remains := AdminCredentialExists(Some(besides));
    }

    /** `_overprivileged_token_ids`. */
    method OverprivilegedTokenIds(user: P.Id) returns (ids: set<P.Id>)
      ensures ids == P.OverprivilegedIds(View(), user)
    {
      ids := {};
      var rows := tokens.Keys;
      while rows != {}
        invariant rows <= tokens.Keys
        invariant ids == set t | t in tokens && t !in rows && P.Overprivileged(View(), user, tokens[t])
        decreases rows
      {
        var t :| t in rows;
        rows := rows - {t};
        var token := tokens[t];
        if token.user == Some(user) && !token.scope.Control? {
          if !token.scope.OfServer? {
            ids := ids + {t};
          } else if token.scope.server !in servers || servers[token.scope.server].owner != Some(user) {
            ids := ids + {t};
          }
        }
      }
    }

    /** Does the user own a server? */
    method OwnsServers(user: P.Id) returns (owns: bool)
      ensures owns == P.Owns(View(), user)
    {
      var rows := servers.Keys;
      while rows != {}
        invariant rows <= servers.Keys
        invariant forall s :: s in servers && s !in rows ==> servers[s].owner != Some(user)
        decreases rows
      {
        var s :| s in rows;
        rows := rows - {s};
        if servers[s].owner == Some(user) {
          return true;
        }
      }
      return false;
    }

    // -------------------------------------------------------------- rows

    /** `delete_tokens_by_ids`. */
    method DeleteTokens(ids: set<P.Id>)
      modifies this`tokens
      ensures View() == P.WithoutTokens(old(View()), ids)
    {
      var todo := ids;
      while todo != {}
        invariant todo <= ids && tokens == old(tokens) - (ids - todo)
        decreases todo
      {
        var t :| t in todo;
        todo := todo - {t};
        tokens := tokens - {t};
        assert old(tokens) - (ids - todo - {t}) - {t} == old(tokens) - (ids - todo);
      }
      assert ids - todo == ids;
    }

    method Insert(token: P.Token)
      modifies this`tokens, this`nextId
      ensures View() == P.Mint(old(View()), token)
    {
      tokens := tokens[nextId := token];
      nextId := nextId + 1;
    }

    // -------------------------------------------------------------- users

    method CreateUser(cfg: P.Config, p: P.Principal, user: P.User) returns (outcome: P.Outcome)
      modifies this`users, this`nextId
      ensures (View(), outcome) == P.CommitCreateUser(cfg, old(View()), p, user)
    {
      var admin := AdminNow(cfg, p);
      if !admin {
        return P.Forbidden;
      }
      users := users[nextId := user];
      nextId := nextId + 1;
      return P.Done;
    }

    /** A demotion takes back what only an admin could have minted, before the role is saved. */
    method UpdateUser(cfg: P.Config, p: P.Principal, id: P.Id, role: Option<P.Role>, runners: Option<bool>)
      returns (outcome: P.Outcome)
      modifies this`users, this`tokens
      ensures (View(), outcome) == P.CommitUpdateUser(cfg, old(View()), p, id, role, runners)
    {
      var admin := AdminNow(cfg, p);
      if !admin {
        return P.Forbidden;
      }
      if id !in users {
        return P.NotFound;
      }
      var user := users[id];
      if role.Some? && role.value != user.role {
        if user.role.Admin? {
          var remains := AdminLoginWouldRemain(cfg, id);
          if !remains {
            return P.LastAdmin;
          }
        }
        if user.role.Admin? && role.value.Member? {
          var stale := OverprivilegedTokenIds(id);
          DeleteTokens(stale);
        } else {
          assert P.WithoutTokens(View(), {}) == View();
        }
        user := user.(role := role.value);
      } else {
        assert P.WithoutTokens(View(), {}) == View();
      }
      if runners.Some? {
        user := user.(localRunners := runners.value);
      }
      users := users[id := user];
      return P.Done;
    }

    method DeleteUser(cfg: P.Config, p: P.Principal, id: P.Id) returns (outcome: P.Outcome)
      modifies this`users, this`tokens
      ensures (View(), outcome) == P.CommitDeleteUser(cfg, old(View()), p, id)
    {
      var admin := AdminNow(cfg, p);
      if !admin {
        return P.Forbidden;
      }
      if id !in users {
        return P.NotFound;
      }
      if users[id].role.Admin? {
        var remains := AdminLoginWouldRemain(cfg, id);
        if !remains {
          return P.LastAdmin;
        }
      }
      var owns := OwnsServers(id);
      if owns {
        return P.OwnsServers;
      }
      DeleteTokens(set t | t in tokens && tokens[t].user == Some(id));
      users := users - {id};
      return P.Done;
    }

    method MintLogin(cfg: P.Config, p: P.Principal, id: P.Id) returns (outcome: P.Outcome)
      modifies this`tokens, this`nextId
      ensures (View(), outcome) == P.CommitMintLogin(cfg, old(View()), p, id)
    {
      var admin := AdminNow(cfg, p);
      if !admin {
        return P.Forbidden;
      }
      if id !in users {
        return P.NotFound;
      }
      Insert(P.Token(P.Control, Some(id)));
      return P.Done;
    }

    // -------------------------------------------------------------- tokens

    method CreateToken(cfg: P.Config, p: P.Principal, scope: P.Scope) returns (outcome: P.Outcome)
      modifies this`tokens, this`nextId
      ensures (View(), outcome) == P.CommitCreateToken(cfg, old(View()), p, scope)
    {
      var now := Refresh(cfg, p);
      if now.None? {
        return P.Unauthorized;
      }
      if scope.OfServer? && scope.server !in servers {
        return P.Invalid;
      }
      if !now.value.IsAdmin() {
        if !scope.OfServer? {
          return P.Forbidden;
        }
        if !P.CanView(now.value, servers[scope.server]) {
          return P.Invalid;
        }
      }
      if scope.OfGroup? && scope.name !in groups {
        return P.Invalid;
      }
      Insert(P.Token(scope, p.UserId()));
      return P.Done;
    }

    /** The row goes first, and comes back if that left nobody to log in. */
    method DeleteToken(cfg: P.Config, p: P.Principal, id: P.Id) returns (outcome: P.Outcome)
      modifies this`tokens
      ensures (View(), outcome) == P.CommitDeleteToken(cfg, old(View()), p, id)
    {
      var now := Refresh(cfg, p);
      if now.None? {
        return P.Unauthorized;
      }
      if id !in tokens {
        return P.NotFound;
      }
      if !now.value.IsAdmin() && (tokens[id].user.None? || tokens[id].user != now.value.UserId()) {
        return P.NotFound;
      }
      var before := tokens;
      tokens := tokens - {id};
      if before[id].scope.Control? && P.Enforced(cfg, settings) && !cfg.envToken {
        var remains := AdminCredentialExists(None);
        if !remains {
          tokens := before;
          return P.LastControl;
        }
      }
      return P.Done;
    }

    // -------------------------------------------------------------- servers

    method AddServer(cfg: P.Config, s: P.Server) returns (outcome: P.Outcome)
      modifies this`servers, this`nextId
      ensures (View(), outcome) == P.AddServer(cfg, old(View()), s)
    {
      if s.runner.Builtin? || !cfg.accepts(s) {
        return P.Invalid;
      }
      servers := servers[nextId := s];
      nextId := nextId + 1;
      return P.Done;
    }

    method CreateServer(cfg: P.Config, p: P.Principal, runner: P.Runner, fields: map<string, string>, enabled: bool)
      returns (outcome: P.Outcome)
      modifies this`servers, this`nextId
      ensures (View(), outcome) == P.CommitCreateServer(cfg, old(View()), p, runner, fields, enabled)
    {
      var now := Refresh(cfg, p);
      if now.None? {
        return P.Unauthorized;
      }
      if !P.CanUse(now.value, runner) {
        return P.Forbidden;
      }
      outcome := AddServer(cfg, P.Server(p.UserId(), runner, fields, enabled));
    }

    /** The former owner's tokens for the server, found one row at a time. */
    method StaleTokens(owner: Option<P.Id>, next: Option<P.Id>, server: P.Id) returns (ids: set<P.Id>)
      ensures ids == P.StaleTokens(View(), owner, next, server)
    {
      if owner.None? || owner == next {
        return {};
      }
      ids := {};
      var rows := tokens.Keys;
      while rows != {}
        invariant rows <= tokens.Keys
        invariant ids == set t | t in tokens && t !in rows && tokens[t].user == owner && tokens[t].scope == P.OfServer(server)
        decreases rows
      {
        var t :| t in rows;
        rows := rows - {t};
        if tokens[t].user == owner && tokens[t].scope == P.OfServer(server) {
          ids := ids + {t};
        }
      }
    }

    /** An edit, and a transfer's revoke-then-set, in one hold of the lock. */
    method UpdateServer(cfg: P.Config, p: P.Principal, id: P.Id, c: P.Changes) returns (outcome: P.Outcome)
      modifies this`servers, this`tokens
      ensures (View(), outcome) == P.CommitUpdateServer(cfg, old(View()), p, id, c)
    {
      var now := Refresh(cfg, p);
      if now.None? {
        return P.Unauthorized;
      }
      if id !in servers || !P.CanView(now.value, servers[id]) {
        return P.NotFound;
      }
      var current := servers[id];
      if P.LaunchTouched(current, c) && !P.CanUse(now.value, P.NewRunner(current, c)) {
        return P.Forbidden;
      }
      if c.owner.Some? {
        if !now.value.IsAdmin() {
          return P.Forbidden;
        }
        if c.owner.value.Some? && c.owner.value.value !in users {
          return P.Invalid;
        }
      }
      outcome := EditServer(cfg, id, c);
      if !outcome.Done? || c.owner.None? {
        return;
      }
      var stale := StaleTokens(current.owner, c.owner.value, id);
      assert stale == P.StaleTokens(old(View()), current.owner, c.owner.value, id);
      DeleteTokens(stale);
      ghost var edited := P.Edited(current, c);
      servers := servers[id := servers[id].(owner := c.owner.value)];
      assert servers == old(servers)[id := edited.(owner := c.owner.value)];
    }

    /** The service's own part of an edit. */
    method EditServer(cfg: P.Config, id: P.Id, c: P.Changes) returns (outcome: P.Outcome)
      requires id in servers
      modifies this`servers
      ensures outcome ==
              if (if old(servers)[id].runner.Builtin? then P.BuiltinTouched(old(servers)[id], c) else c.runner == Some(P.Builtin))
                 || !cfg.accepts(P.Edited(old(servers)[id], c))
              then P.Invalid else P.Done
      ensures servers == if outcome.Done? then old(servers)[id := P.Edited(old(servers)[id], c)] else old(servers)
    {
      var row := servers[id];
      if row.runner.Builtin? {
        if P.BuiltinTouched(row, c) {
          return P.Invalid;
        }
      } else if c.runner == Some(P.Builtin) {
        return P.Invalid;
      }
      row := row.(fields := row.fields + c.fields);
      if c.runner.Some? {
        row := row.(runner := c.runner.value);
      }
      if !cfg.accepts(row) {
        return P.Invalid;
      }
      servers := servers[id := row];
      return P.Done;
    }

    /** `prune_server`: the server leaves every explicit member list. */
    method Prune(server: P.Id)
      modifies this`groups
      ensures groups == P.PrunedGroups(old(groups), server)
    {
      var names := groups.Keys;
      while names != {}
        invariant names <= old(groups).Keys && groups.Keys == old(groups).Keys
        invariant forall g :: g in names ==> groups[g] == old(groups)[g]
        invariant forall g :: g in groups && g !in names ==> groups[g] == P.Pruned(old(groups)[g], server)
        decreases names
      {
        var g :| g in names;
        names := names - {g};
        if groups[g].Only? {
          groups := groups[g := P.Only(groups[g].ids - {server})];
        }
      }
    }

    /** `_prune_then_delete`. */
    method DeleteServer(cfg: P.Config, p: P.Principal, id: P.Id) returns (outcome: P.Outcome)
      modifies this`servers, this`groups
      ensures (View(), outcome) == P.CommitDeleteServer(cfg, old(View()), p, id)
    {
      if id !in servers {
        return P.NotFound;
      }
      var now := Refresh(cfg, p);
      if now.None? || !P.CanView(now.value, servers[id]) {
        return P.NotFound;
      }
      Prune(id);
      servers := servers - {id};
      return P.Done;
    }

    method CloneServer(cfg: P.Config, p: P.Principal, id: P.Id) returns (outcome: P.Outcome)
      modifies this`servers, this`nextId
      ensures (View(), outcome) == P.CommitCloneServer(cfg, old(View()), p, id)
    {
      var now := Refresh(cfg, p);
      if now.None? {
        return P.Unauthorized;
      }
      if id !in servers || !P.CanView(now.value, servers[id]) {
        return P.NotFound;
      }
      if !P.CanUse(now.value, servers[id].runner) {
        return P.Forbidden;
      }
      outcome := AddServer(cfg, P.Server(p.UserId(), servers[id].runner, servers[id].fields, false));
    }

    /** `_set_enabled_visible`. */
    method SetEnabled(cfg: P.Config, p: P.Principal, id: P.Id, on: bool) returns (outcome: P.Outcome)
      modifies this`servers
      ensures (View(), outcome) == P.CommitSetEnabled(cfg, old(View()), p, id, on)
    {
      var now := Refresh(cfg, p);
      if now.None? {
        return P.Unauthorized;
      }
      if id !in servers || !P.CanView(now.value, servers[id]) {
        return P.NotFound;
      }
      var row := servers[id].(enabled := on);
      if on && !cfg.accepts(row) {
        return P.Invalid;
      }
      servers := servers[id := row];
      return P.Done;
    }

    // -------------------------------------------------------------- groups and settings

    method UpsertGroup(cfg: P.Config, p: P.Principal, name: string, members: P.Members) returns (outcome: P.Outcome)
      modifies this`groups
      ensures (View(), outcome) == P.CommitUpsertGroup(cfg, old(View()), p, name, members)
    {
      var admin := AdminNow(cfg, p);
      if !admin {
        return P.Forbidden;
      }
      if members.Only? {
        var todo := members.ids;
        while todo != {}
          invariant todo <= members.ids && members.ids - todo <= servers.Keys
          invariant groups == old(groups)
          decreases todo
        {
          var s :| s in todo;
          if s !in servers {
            return P.Invalid;
          }
          todo := todo - {s};
        }
      }
      groups := groups[name := members];
      return P.Done;
    }

    /** The tokens go before the group does. */
    method DeleteGroup(cfg: P.Config, p: P.Principal, name: string) returns (outcome: P.Outcome)
      modifies this`tokens, this`groups
      ensures (View(), outcome) == P.CommitDeleteGroup(cfg, old(View()), p, name)
    {
      var admin := AdminNow(cfg, p);
      if !admin {
        return P.Forbidden;
      }
      if name !in groups {
        return P.NotFound;
      }
      DeleteTokens(set t | t in tokens && tokens[t].scope == P.OfGroup(name));
      groups := groups - {name};
      return P.Done;
    }

    /** The settings write: everything is staged first, then guarded, then kept or undone. */
    method WriteSettings(
        cfg: P.Config, bearer: P.Bearer, p: P.Principal, mode: Option<P.Mode>, exposed: Option<bool>, lan: Option<bool>,
        controlMcp: Option<bool>)
      returns (outcome: P.Outcome)
      modifies this`servers, this`settings
      ensures (View(), outcome) == P.CommitSettings(cfg, old(View()), bearer, p, mode, exposed, lan, controlMcp)
    {
      var (committed, rows) := (settings, servers);
      Stage(mode, exposed, lan, controlMcp);
      StagingKeepsTheCaller(cfg, old(View()), View(), bearer, p);
      outcome := Guard(cfg, bearer, p, committed);
      if !outcome.Done? {
        settings, servers := committed, rows;
      }
    }

    /** What the write would leave, before anybody looked whether it may. */
    method Stage(mode: Option<P.Mode>, exposed: Option<bool>, lan: Option<bool>, controlMcp: Option<bool>)
      modifies this`servers, this`settings
      ensures settings == P.Patched(old(settings), mode, exposed, lan) && servers == P.Toggled(old(servers), controlMcp)
    {
      settings := P.Patched(settings, mode, exposed, lan);
      Toggle(controlMcp);
    }

    method Toggle(controlMcp: Option<bool>)
      modifies this`servers
      ensures servers == P.Toggled(old(servers), controlMcp)
    {
      if controlMcp.Some? {
        servers := map s | s in servers ::
          if servers[s].runner.Builtin? then servers[s].(enabled := controlMcp.value) else servers[s];
      }
    }

    /** `guard`, on the staged state; `committed` is the policy before this write. */
    method Guard(cfg: P.Config, bearer: P.Bearer, p: P.Principal, committed: P.Settings) returns (outcome: P.Outcome)
      ensures outcome ==
              if !P.PresentsAdmin(cfg, View(), bearer) && P.Enforced(cfg, settings) then P.Invalid
              else if p.LocalOperator? then
                if P.Enforced(cfg, committed) && !P.PresentsAdmin(cfg, View(), bearer) then P.Forbidden else P.Done
              else if P.AdminNow(cfg, View(), p) then P.Done else P.Forbidden
    {
      var caller := P.CredentialPrincipal(cfg, P.Db(users, tokens, servers, groups, settings, nextId), bearer);
      var presented := caller.Some? && caller.value.IsAdmin();
      if !presented && P.Enforced(cfg, settings) {
        return P.Invalid;
      }
      if p.LocalOperator? {
        return if P.Enforced(cfg, committed) && !presented then P.Forbidden else P.Done;
      }
      var admin := AdminNow(cfg, p);
      return if admin then P.Done else P.Forbidden;
    }
  }
}
