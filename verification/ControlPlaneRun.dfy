/**
 The control plane serving its requests: entry checks on arrival, and a commit, on the tables, when
 a waiting request gets the config write lock.
 */
module ControlPlaneRun {
  import opened Basics
  import P = ControlPlane
  import ControlPlaneInvariant
  import Host = ControlPlaneHost

  /** One request's commit, by the handler its operation belongs to. */
  method Perform(db: Host.Database, cfg: P.Config, q: P.Request) returns (outcome: P.Outcome)
    modifies db
    ensures (db.View(), outcome) == P.Commit(cfg, old(db.View()), q)
  {
    var p := q.principal;
    match q.op
    case CreateUser(user) => outcome := db.CreateUser(cfg, p, user);
    case UpdateUser(id, role, localRunners) => outcome := db.UpdateUser(cfg, p, id, role, localRunners);
    case DeleteUser(id) => outcome := db.DeleteUser(cfg, p, id);
    case MintLogin(id) => outcome := db.MintLogin(cfg, p, id);
    case CreateToken(scope) => outcome := db.CreateToken(cfg, p, scope);
    case DeleteToken(id) => outcome := db.DeleteToken(cfg, p, id);
    case CreateServer(runner, fields, enabled) => outcome := db.CreateServer(cfg, p, runner, fields, enabled);
    case UpdateServer(id, c) => outcome := db.UpdateServer(cfg, p, id, c);
    case DeleteServer(id) => outcome := db.DeleteServer(cfg, p, id);
    case CloneServer(id) => outcome := db.CloneServer(cfg, p, id);
    case SetEnabled(id, on) => outcome := db.SetEnabled(cfg, p, id, on);
    case UpsertGroup(name, members) => outcome := db.UpsertGroup(cfg, p, name, members);
    case DeleteGroup(name) => outcome := db.DeleteGroup(cfg, p, name);
    case WriteSettings(mode, exposed, lan, controlMcp) =>
      outcome := db.WriteSettings(cfg, q.bearer, p, mode, exposed, lan, controlMcp);
  }

  class App {
    const cfg: P.Config
    const db: Host.Database
    /** Past entry, waiting for the lock. */
    var queue: seq<P.Request>

    ghost function View(): P.Plane
      reads this, db
    {
      P.Plane(db.View(), queue)
    }

    constructor (cfg: P.Config, db: Host.Database)
      ensures this.cfg == cfg && this.db == db && View() == P.Plane(db.View(), [])
    {
      this.cfg, this.db, queue := cfg, db, [];
    }

    method Handle(e: P.Event)
      modifies this`queue, db
      ensures View() == P.Step(cfg, old(View()), e)
    {
      match e
      case Arrives(bearer, op) =>
        var rows := P.Db(db.users, db.tokens, db.servers, db.groups, db.settings, db.nextId);
        var p := P.Resolve(cfg, rows, bearer);
        if p.Some? && P.PassesEntry(rows, p.value, op) {
          queue := queue + [P.Request(bearer, p.value, op)];
        }
      case Commits(i) =>
        if i < |queue| {
          var _ := Perform(db, cfg, queue[i]);
          queue := P.Without(queue, i);
        }
      case GivesUp(i) =>
        if i < |queue| {
          queue := P.Without(queue, i);
        }
    }

    /** Any interleaving of arrivals and commits, on the tables, keeps what the control plane
        promises. */
    method Serve(events: seq<P.Event>)
      requires ControlPlaneInvariant.Inv(cfg, View())
      modifies this`queue, db
      ensures View() == P.RunAll(cfg, old(View()), events)
      ensures ControlPlaneInvariant.Inv(cfg, View())
    {
      ghost var start := View();
      for n := 0 to |events|
        invariant P.RunAll(cfg, View(), events[n..]) == P.RunAll(cfg, start, events)
      {
        assert events[n..] == [events[n]] + events[n + 1..];
        Handle(events[n]);
      }
      ControlPlaneInvariant.EveryRunKeeps(cfg, start, events);
    }
  }
}
