/**
 What the control plane does with a request, row by row: who is let in when it arrives, and what a
 commit leaves behind. Nothing here is stated through the checks and commits themselves.
 */
module ControlPlaneEffects {
  import opened Basics
  import opened ControlPlane
  import opened ControlPlaneInvariant
  import opened ControlPlaneSafety

  // ---------------------------------------------------------------- arriving

  /** What a bearer credential stands for while one is demanded, and everybody while none is. */
  function ArrivesWith(cfg: Config, db: Db, bearer: Bearer): Authority {
    if !Demanded(cfg, db.settings) then Caller(None, true, true)
    else
      match bearer
      case NoBearer => Nobody
      case EnvBearer => if cfg.envToken then Caller(None, true, true) else Nobody
      case TokenBearer(t) => HeldAuthority(db, t)
  }

  /** Whether such a caller may ask for the operation at all. */
  predicate MayAsk(db: Db, a: Authority, op: Op) {
    a.Caller? &&
    match op
    case CreateToken(_) => true
    case DeleteToken(_) => true
    case CreateServer(runner, _, _) => MayRun(a, runner)
    case UpdateServer(s, c) =>
      && Reaches(db, a, s)
      && (c.owner.Some? ==>
            a.admin && db.servers[s].runner != Builtin && (c.owner.value.Some? ==> c.owner.value.value in db.users))
      && (Alters(db.servers[s], c, WHAT_RUNS) ==> MayRun(a, AskedRunner(db.servers[s], c)))
    case DeleteServer(s) => Reaches(db, a, s) && db.servers[s].runner != Builtin
    case CloneServer(s) => Reaches(db, a, s) && MayRun(a, db.servers[s].runner)
    case SetEnabled(s, _) => Reaches(db, a, s)
    case _ => a.admin
  }

  /** A request waits for the lock exactly when what is stored as it arrives lets its credential ask
      for that; it remembers who it was, and nothing stored changes. */
  lemma LetInExactly(cfg: Config, s: Plane, bearer: Bearer, op: Op)
    ensures var s' := Step(cfg, s, Arrives(bearer, op));
            var a := ArrivesWith(cfg, s.db, bearer);
            if MayAsk(s.db, a, op) then
              && s'.db == s.db && |s'.queue| == |s.queue| + 1 && s'.queue[..|s.queue|] == s.queue
              && var q := s'.queue[|s.queue|];
                 && q.bearer == bearer && q.op == op && CallersId(q.principal) == a.user
                 && AuthorityOf(cfg, s.db, q) == a
            else s' == s
  {
    WordsOfThePlane(cfg, s.db, None);
    if op.UpdateServer? && op.id in s.db.servers {
      WordsOfAnEdit(s.db.servers[op.id], op.changes);
    }
    var p := ControlPlane.Resolve(cfg, s.db, bearer);
    if p.Some? {
      EntryIsAsking(s.db, p.value, ArrivesWith(cfg, s.db, bearer), op);
    }
  }

  lemma EntryIsAsking(db: Db, p: Principal, a: Authority, op: Op)
    requires a == Caller(p.UserId(), p.IsAdmin(), p.RunsLocally()) && (p.IsAdmin() ==> p.RunsLocally())
    ensures PassesEntry(db, p, op) <==> MayAsk(db, a, op)
  {
    assert forall runner :: OnThisBox(runner) <==> IsLocal(runner);
    if op.UpdateServer? && op.id in db.servers {
      WordsOfAnEdit(db.servers[op.id], op.changes);
    }
  }

  // ---------------------------------------------------------------- rows

  /** One row more, under a key that was nobody's. */
  ghost predicate OneMore<K, V>(m: map<K, V>, m': map<K, V>, key: K, row: V) {
    key !in m && m'.Keys == m.Keys + {key} && m'[key] == row && forall k :: k in m ==> m'[k] == m[k]
  }

  /** Exactly the rows in `gone` are gone. */
  ghost predicate Fewer<K, V>(m: map<K, V>, m': map<K, V>, gone: set<K>) {
    m'.Keys == m.Keys - gone && forall k :: k in m' ==> m'[k] == m[k]
  }

  /** No row but this one may have changed. */
  ghost predicate OneChanged<K, V>(m: map<K, V>, m': map<K, V>, key: K) {
    key in m && m'.Keys == m.Keys && forall k :: k in m && k != key ==> m'[k] == m[k]
  }

  /** A row was added or replaced. */
  ghost predicate OnePut<K, V>(m: map<K, V>, m': map<K, V>, key: K, row: V) {
    m'.Keys == m.Keys + {key} && m'[key] == row && forall k :: k in m && k != key ==> m'[k] == m[k]
  }

  // ---------------------------------------------------------------- users and tokens

  ghost predicate UserAdded(db: Db, db': Db, user: User) {
    && OneMore(db.users, db'.users, db.nextId, user)
    && db' == db.(users := db'.users, nextId := db.nextId + 1)
  }

  /** A token a member could not have minted. */
  predicate TooMuchForAMember(db: Db, user: Id, t: Token) {
    && t.user == Some(user)
    && match t.scope
       case Control => false
       case OfServer(s) => !(s in db.servers && db.servers[s].owner == Some(user))
       case _ => true
  }

  /** The user has the role and the permission that were sent, and as before what wasn't; an admin who
      becomes a member loses exactly the tokens a member could not have minted. */
  ghost predicate UserEdited(db: Db, db': Db, id: Id, role: Option<Role>, localRunners: Option<bool>) {
    && OneChanged(db.users, db'.users, id) && db' == db.(users := db'.users, tokens := db'.tokens)
    && var (was, now) := (db.users[id], db'.users[id]);
       && (match role case Some(r) => now.role == r case None => now.role == was.role)
       && (match localRunners case Some(on) => now.localRunners == on case None => now.localRunners == was.localRunners)
       && Fewer(db.tokens, db'.tokens,
                set t | t in db.tokens && was.role == Admin && now.role == Member && TooMuchForAMember(db, id, db.tokens[t]))
  }

  /** The user is gone with every token of theirs. */
  ghost predicate UserGone(db: Db, db': Db, id: Id) {
    && id in db.users && Fewer(db.users, db'.users, {id})
    && Fewer(db.tokens, db'.tokens, set t | t in db.tokens && db.tokens[t].user == Some(id))
    && db' == db.(users := db'.users, tokens := db'.tokens)
  }

  ghost predicate TokenAdded(db: Db, db': Db, token: Token) {
    && OneMore(db.tokens, db'.tokens, db.nextId, token)
    && db' == db.(tokens := db'.tokens, nextId := db.nextId + 1)
  }

  /** The token is gone, and stands for nobody. */
  ghost predicate TokenGone(cfg: Config, db: Db, db': Db, id: Id) {
    && id in db.tokens && Fewer(db.tokens, db'.tokens, {id}) && db' == db.(tokens := db'.tokens)
    && HeldAuthority(db', id) == Nobody && CredentialPrincipal(cfg, db', TokenBearer(id)).None?
  }

  // ---------------------------------------------------------------- servers

  ghost predicate ServerAdded(db: Db, db': Db, server: Server) {
    && OneMore(db.servers, db'.servers, db.nextId, server)
    && db' == db.(servers := db'.servers, nextId := db.nextId + 1)
  }

  /** Each part of the row reads as sent, and as before where nothing was sent. */
  ghost predicate ReadsAsSent(was: Server, now: Server, c: Changes) {
    && (match c.runner case Some(runner) => now.runner == runner case None => now.runner == was.runner)
    && (match c.owner case Some(owner) => now.owner == owner case None => now.owner == was.owner)
    && now.enabled == was.enabled && now.fields.Keys == was.fields.Keys + c.fields.Keys
    && forall k :: k in now.fields ==> now.fields[k] == if k in c.fields then c.fields[k] else was.fields[k]
  }

  /** And a server that leaves its owner takes that owner's tokens for it away. */
  ghost predicate ServerEdited(db: Db, db': Db, id: Id, c: Changes) {
    && OneChanged(db.servers, db'.servers, id) && db' == db.(servers := db'.servers, tokens := db'.tokens)
    && var (was, now) := (db.servers[id], db'.servers[id]);
       && ReadsAsSent(was, now, c)
       && Fewer(db.tokens, db'.tokens,
                set t | t in db.tokens && was.owner.Some? && now.owner != was.owner &&
                        db.tokens[t] == Token(OfServer(id), was.owner))
  }

  /** Groups forget the server; a group of everything stays one. */
  ghost predicate ServerGone(db: Db, db': Db, id: Id) {
    && id in db.servers && Fewer(db.servers, db'.servers, {id}) && db'.groups.Keys == db.groups.Keys
    && (forall g :: g in db.groups ==>
          match db.groups[g]
          case Everything => db'.groups[g] == Everything
          case Only(ids) => db'.groups[g].Only? && forall s :: s in db'.groups[g].ids <==> s in ids && s != id)
    && db' == db.(servers := db'.servers, groups := db'.groups)
  }

  ghost predicate ServerToggled(db: Db, db': Db, id: Id, on: bool) {
    && OneChanged(db.servers, db'.servers, id) && db' == db.(servers := db'.servers)
    && db'.servers[id] == db.servers[id].(enabled := on)
  }

  // ---------------------------------------------------------------- groups and settings

  /** The group is gone with every token scoped to it. */
  ghost predicate GroupGone(db: Db, db': Db, name: string) {
    && name in db.groups && Fewer(db.groups, db'.groups, {name})
    && Fewer(db.tokens, db'.tokens, set t | t in db.tokens && db.tokens[t].scope == OfGroup(name))
    && db' == db.(groups := db'.groups, tokens := db'.tokens)
  }

  /** The built-in server is on or off with the tools it stands for. */
  ghost predicate SettingsWritten(db: Db, db': Db, settings: Settings, controlMcp: Option<bool>) {
    && db'.settings == settings && db'.servers.Keys == db.servers.Keys
    && (forall s :: s in db.servers ==>
          db'.servers[s] ==
          if controlMcp.Some? && db.servers[s].runner == Builtin then db.servers[s].(enabled := controlMcp.value)
          else db.servers[s])
    && db' == db.(settings := settings, servers := db'.servers)
  }

  // ---------------------------------------------------------------- every commit

  /** What stands after a commit that was done, and what is as it was. */
  ghost predicate DoneAsAsked(cfg: Config, db: Db, q: Request, db': Db) {
    var mine := CallersId(q.principal);
    match q.op
    case CreateUser(user) => UserAdded(db, db', user)
    case UpdateUser(id, role, localRunners) => UserEdited(db, db', id, role, localRunners)
    case DeleteUser(id) => UserGone(db, db', id)
    case MintLogin(id) => id in db.users && TokenAdded(db, db', Token(Control, Some(id)))
    case CreateToken(scope) => TokenAdded(db, db', Token(scope, mine))
    case DeleteToken(id) => TokenGone(cfg, db, db', id)
    case CreateServer(runner, fields, enabled) => ServerAdded(db, db', Server(mine, runner, fields, enabled))
    case UpdateServer(id, c) => ServerEdited(db, db', id, c)
    case DeleteServer(id) => ServerGone(db, db', id)
    case CloneServer(id) =>
      id in db.servers && ServerAdded(db, db', Server(mine, db.servers[id].runner, db.servers[id].fields, false))
    case SetEnabled(id, on) => ServerToggled(db, db', id, on)
    case UpsertGroup(name, members) => OnePut(db.groups, db'.groups, name, members) && db' == db.(groups := db'.groups)
    case DeleteGroup(name) => GroupGone(db, db', name)
    case WriteSettings(mode, exposed, lan, controlMcp) =>
      SettingsWritten(db, db', AskedSettings(db.settings, mode, exposed, lan), controlMcp)
  }

  lemma UserCommitsDo(cfg: Config, db: Db, q: Request)
    requires IdsKnown(db) && Commit(cfg, db, q).1.Done?
    requires q.op.CreateUser? || q.op.UpdateUser? || q.op.DeleteUser?
    ensures DoneAsAsked(cfg, db, q, Commit(cfg, db, q).0)
  {
    match q.op
    case CreateUser(_) =>
    case UpdateUser(id, _, _) => DemotionRevokes(db, id);
    case DeleteUser(_) =>
  }

  lemma DemotionRevokes(db: Db, id: Id)
    ensures OverprivilegedIds(db, id) == set t | t in db.tokens && TooMuchForAMember(db, id, db.tokens[t])
  {
    forall t | t in db.tokens
      ensures TooMuchForAMember(db, id, db.tokens[t]) <==> Overprivileged(db, id, db.tokens[t])
    {
    }
  }

  lemma TokenCommitsDo(cfg: Config, db: Db, q: Request)
    requires IdsKnown(db) && Commit(cfg, db, q).1.Done?
    requires q.op.MintLogin? || q.op.CreateToken? || q.op.DeleteToken?
    ensures DoneAsAsked(cfg, db, q, Commit(cfg, db, q).0)
  {
    match q.op
    case MintLogin(_) =>
    case CreateToken(_) =>
    case DeleteToken(_) =>
  }

  lemma ServerCommitsDo(cfg: Config, db: Db, q: Request)
    requires IdsKnown(db) && Commit(cfg, db, q).1.Done?
    requires q.op.CreateServer? || q.op.DeleteServer? || q.op.CloneServer? || q.op.SetEnabled?
    ensures DoneAsAsked(cfg, db, q, Commit(cfg, db, q).0)
  {
    match q.op
    case CreateServer(_, _, _) =>
    case DeleteServer(_) =>
    case CloneServer(_) =>
    case SetEnabled(_, _) =>
  }

  lemma EditDoes(cfg: Config, db: Db, p: Principal, id: Id, c: Changes)
    requires CommitUpdateServer(cfg, db, p, id, c).1.Done?
    ensures ServerEdited(db, CommitUpdateServer(cfg, db, p, id, c).0, id, c)
  {
    var now := if c.owner.Some? then c.owner.value else db.servers[id].owner;
    TransferRevokes(db, db.servers[id].owner, now, id);
    assert db.tokens - {} == db.tokens;
  }

  lemma TransferRevokes(db: Db, was: Option<Id>, now: Option<Id>, id: Id)
    ensures StaleTokens(db, was, now, id) ==
            set t | t in db.tokens && was.Some? && now != was && db.tokens[t] == Token(OfServer(id), was)
  {
  }

  lemma PlaneCommitsDo(cfg: Config, db: Db, q: Request)
    requires Commit(cfg, db, q).1.Done? && (q.op.UpsertGroup? || q.op.DeleteGroup? || q.op.WriteSettings?)
    ensures DoneAsAsked(cfg, db, q, Commit(cfg, db, q).0)
  {
    match q.op
    case UpsertGroup(_, _) =>
    case DeleteGroup(_) =>
    case WriteSettings(_, _, _, _) =>
  }

  /** However long it waited: a request that what is stored allows, and nothing stands against, does
      what it asked and no more; any other does nothing. */
  lemma CommitsDoWhatWasAsked(cfg: Config, s: Plane, i: nat)
    requires Inv(cfg, s) && i < |s.queue|
    ensures var s' := Step(cfg, s, Commits(i));
            && s'.queue == s.queue[..i] + s.queue[i + 1..]
            && if May(cfg, s.db, s.queue[i]) && Fits(cfg, s.db, s.queue[i])
               then DoneAsAsked(cfg, s.db, s.queue[i], s'.db) else s'.db == s.db
  {
    CommitsExactlyWhatIsAllowed(cfg, s, i);
    var (db, q) := (s.db, s.queue[i]);
    if Commit(cfg, db, q).1.Done? {
      if q.op.CreateUser? || q.op.UpdateUser? || q.op.DeleteUser? {
        UserCommitsDo(cfg, db, q);
      } else if q.op.MintLogin? || q.op.CreateToken? || q.op.DeleteToken? {
        TokenCommitsDo(cfg, db, q);
      } else if q.op.UpsertGroup? || q.op.DeleteGroup? || q.op.WriteSettings? {
        PlaneCommitsDo(cfg, db, q);
      } else if q.op.UpdateServer? {
        EditDoes(cfg, db, q.principal, q.op.id, q.op.changes);
      } else {
        ServerCommitsDo(cfg, db, q);
      }
    }
  }

  // ---------------------------------------------------------------- the built-in server

  /** Server `id` is the built-in one afterwards exactly if it was, and reads as it did wherever it may
      not be edited. */
  ghost predicate BuiltinKept(db: Db, db': Db, id: Id) {
    && (id in db'.servers && db'.servers[id].runner == Builtin ==> id in db.servers && db.servers[id].runner == Builtin)
    && (id in db.servers && db.servers[id].runner == Builtin ==>
          && id in db'.servers && db'.servers[id].runner == Builtin && db'.servers[id].owner == db.servers[id].owner
          && forall k :: k !in BUILTIN_MAY_CHANGE ==> Reads(db'.servers[id], k) == Reads(db.servers[id], k))
  }

  lemma BuiltinReadsOn(s: Server, now: Server, c: Changes)
    requires ReadsAsSent(s, now, c) && !Alters(s, c, c.fields.Keys - BUILTIN_MAY_CHANGE)
    ensures now.runner == s.runner && forall k :: k !in BUILTIN_MAY_CHANGE ==> Reads(now, k) == Reads(s, k)
  {
    forall k | k !in BUILTIN_MAY_CHANGE
      ensures Reads(now, k) == Reads(s, k)
    {
      if k in c.fields {
        assert k in c.fields.Keys - BUILTIN_MAY_CHANGE;
      }
    }
  }

  lemma EditKeepsTheBuiltin(cfg: Config, db: Db, q: Request, db': Db, id: Id)
    requires q.op.UpdateServer? && RequestOk(db, q) && Fits(cfg, db, q) && ServerEdited(db, db', q.op.id, q.op.changes)
    ensures BuiltinKept(db, db', id)
  {
    if q.op.id == id && db.servers[id].runner == Builtin {
      BuiltinReadsOn(db.servers[id], db'.servers[id], q.op.changes);
    }
  }

  lemma OthersKeepTheBuiltin(cfg: Config, db: Db, q: Request, db': Db, id: Id)
    requires !q.op.UpdateServer? && RequestOk(db, q) && Fits(cfg, db, q) && DoneAsAsked(cfg, db, q, db')
    ensures BuiltinKept(db, db', id)
  {
    if q.op.DeleteServer? {
      DeletionKeepsTheBuiltin(cfg, db, q, db', id);
    } else if q.op.CreateServer? || q.op.CloneServer? {
      CreationKeepsTheBuiltin(cfg, db, q, db', id);
    } else if q.op.SetEnabled? || q.op.WriteSettings? {
      SwitchingKeepsTheBuiltin(cfg, db, q, db', id);
    } else {
      assert db'.servers == db.servers;
    }
  }

  lemma DeletionKeepsTheBuiltin(cfg: Config, db: Db, q: Request, db': Db, id: Id)
    requires q.op.DeleteServer? && RequestOk(db, q) && DoneAsAsked(cfg, db, q, db')
    ensures BuiltinKept(db, db', id)
  {
  }

  lemma CreationKeepsTheBuiltin(cfg: Config, db: Db, q: Request, db': Db, id: Id)
    requires (q.op.CreateServer? || q.op.CloneServer?) && Fits(cfg, db, q) && DoneAsAsked(cfg, db, q, db')
    ensures BuiltinKept(db, db', id)
  {
  }

  lemma SwitchingKeepsTheBuiltin(cfg: Config, db: Db, q: Request, db': Db, id: Id)
    requires (q.op.SetEnabled? || q.op.WriteSettings?) && DoneAsAsked(cfg, db, q, db')
    ensures BuiltinKept(db, db', id)
  {
  }

  /** No commit edits what the built-in server is, makes another, or deletes it. */
  lemma BuiltinStaysItself(cfg: Config, s: Plane, i: nat, id: Id)
    requires Inv(cfg, s) && i < |s.queue|
    ensures BuiltinKept(s.db, Step(cfg, s, Commits(i)).db, id)
  {
    var (db, q) := (s.db, s.queue[i]);
    var db' := Step(cfg, s, Commits(i)).db;
    CommitsDoWhatWasAsked(cfg, s, i);
    QueuedIsOk(cfg, s, i);
    if May(cfg, db, q) && Fits(cfg, db, q) {
      if q.op.UpdateServer? {
        EditKeepsTheBuiltin(cfg, db, q, db', id);
      } else {
        OthersKeepTheBuiltin(cfg, db, q, db', id);
      }
    }
  }

  lemma QueuedIsOk(cfg: Config, s: Plane, i: nat)
    requires Inv(cfg, s) && i < |s.queue|
    ensures RequestOk(s.db, s.queue[i])
  {
  }

  // ---------------------------------------------------------------- giving up, and starting

  lemma GivingUpChangesNothing(cfg: Config, s: Plane, i: nat)
    requires i < |s.queue|
    ensures Step(cfg, s, GivesUp(i)) == Plane(s.db, s.queue[..i] + s.queue[i + 1..])
  {
  }

  /** A start mints one admin login exactly when a credential is demanded, none comes from the
      environment, and there is no login yet or a new one is forced. */
  lemma StartMintsALogin(cfg: Config, db: Db, forced: bool)
    requires IdsKnown(db)
    ensures if Demanded(cfg, db.settings) && !cfg.envToken && (forced || !LoginLeft(db, None, None))
            then TokenAdded(db, Boot(cfg, db, forced), Token(Control, None)) else Boot(cfg, db, forced) == db
  {
    WordsOfThePlane(cfg, db, None);
  }
}
