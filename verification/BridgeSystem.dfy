/**
 A whole proxy: every interleaving of the steps of its requests (backend/app/bridge/host.py).
 With `serialized` it fronts one stdio child that serves a request at a time and whose own
 requests name no caller; without, every request has its own upstream session.
 */
module BridgeSystem {
  import opened Basics
  import opened TurnProtocol

  /** A handshake-era request holding the child: `call` is the upstream call it waits for,
      `draining` set once its caller cancelled it. */
  datatype Request = Request(caller: Option<Caller>, call: Option<nat>, draining: bool, over: bool)

  /** `running` are the handshake-era requests' unfinished upstream calls. */
  datatype System = System(
    routing: Routing,
    turns: map<nat, Turn>,
    requests: map<nat, Request>,
    running: set<nat>)

  /** The child's requests name no turn (`ChildAsks`); those on a session of its own are the turn's
      (`TurnIsAsked`, through `_CURRENT_TURN`). A group that is torn down ends its parked turns, like
      members that left, before its table counts as replaced. */
  datatype Event =
    | TurnStarts(id: nat, caller: Option<Caller>, holding: bool)
    | LegWakesUp(id: nat, ticket: Ticket)
    | LegIsCancelled(id: nat)
    | CallerRetries(ticket: Ticket, caller: Option<Caller>, responses: map<Key, Response>)
    | MemberLeft(ticket: Ticket)
    | TurnExpires(id: nat)
    | DrainFires(id: nat)
    | RunEnds(id: nat)
    | RunCallback(id: nat)
    | UpstreamWithdraws(id: nat, key: Key)
    | TableReplaced
    | RequestStarts(id: nat, caller: Option<Caller>)
    | CallStarts(id: nat, call: nat)
    | CallEnds(call: nat)
    | CallReturns(id: nat)
    | RequestCancelled(id: nat)
    | RequestDrainEnds(id: nat)
    | RequestFails(id: nat)
    | RequestLeaves(id: nat)
    | AbandonedCallback(ended: Call)
    | ChildAsks(kind: Kind, capable: bool)
    | TurnIsAsked(id: nat, kind: Kind, capable: bool)

  function Init(serialized: bool): System {
    System(Routing(serialized, None, None, None, map[], false, {}, []), map[], map[], {})
  }

  // ---------------------------------------------------------------- steps

  function Lock(r: Routing, holder: Holder, caller: Option<Caller>, turn: Option<nat>): Routing {
    r.(lock := Some(holder), caller := caller, turn := turn, log := r.log + [Acquired(holder)])
  }

  function Put(s: System, id: nat, next: (Routing, Turn)): System {
    s.(routing := next.0, turns := s.turns[id := next.1])
  }

  /** The end of a handshake-era request: its slot is emptied and the lock given back. */
  function Leave(s: System, id: nat): System
    requires id in s.requests
  {
    s.(routing := Unlock(s.routing.(caller := None)),
       requests := s.requests[id := s.requests[id].(over := true)])
  }

  predicate Active(s: System, id: nat) {
    id in s.requests && !s.requests[id].over
  }

  predicate CallIsRunning(s: System, id: nat)
    requires id in s.requests
  {
    s.requests[id].call.Some? && s.requests[id].call.value in s.running
  }

  predicate Unfinished(s: System, call: Call) {
    match call
    case Run(i) => i in s.turns && !s.turns[i].task.runDone
    case Plain(n) => n in s.running
  }

  predicate Enabled(s: System, e: Event) {
    match e
    case TurnStarts(id, _, holding) =>
      id !in s.turns && (s.routing.serialized ==> s.routing.lock.None? && !holding)
    case LegWakesUp(id, ticket) =>
      id in s.turns && s.turns[id].live && (s.turns[id].asked || s.turns[id].task.runDone) && ticket !in s.routing.parked
    case LegIsCancelled(id) => id in s.turns && s.turns[id].live
    case CallerRetries(ticket, _, _) => ticket in s.routing.parked && s.routing.parked[ticket] in s.turns
    case MemberLeft(ticket) =>
      !s.routing.serialized && ticket in s.routing.parked && s.routing.parked[ticket] in s.turns
    case TurnExpires(id) => id in s.turns && s.turns[id].parking.expiry
    case DrainFires(id) => id in s.turns && s.turns[id].task.drain
    case RunEnds(id) => id in s.turns && !s.turns[id].task.runDone
    case RunCallback(id) => id in s.turns && s.turns[id].task.runDone && !s.turns[id].task.callbackRan
    case UpstreamWithdraws(id, _) => id in s.turns
    case TableReplaced => !s.routing.serialized && s.routing.parked == map[]
    case RequestStarts(id, _) => id !in s.requests && s.routing.serialized && s.routing.lock.None?
    case CallStarts(id, call) =>
      Active(s, id) && !s.requests[id].draining && s.requests[id].call.None? &&
      call !in s.running && Plain(call) !in s.routing.abandoned &&
      forall i :: i in s.requests ==> s.requests[i].call != Some(call)
    case CallEnds(call) => call in s.running
    case CallReturns(id) => Active(s, id) && !s.requests[id].draining && s.requests[id].call.Some? && !CallIsRunning(s, id)
    case RequestCancelled(id) => Active(s, id) && !s.requests[id].draining && s.requests[id].call.Some?
    case RequestDrainEnds(id) => Active(s, id) && s.requests[id].draining
    case RequestFails(id) => Active(s, id) && !s.requests[id].draining && s.requests[id].call.Some?
    case RequestLeaves(id) => Active(s, id) && s.requests[id].call.None?
    case AbandonedCallback(call) => call in s.routing.abandoned && !Unfinished(s, call)
    case ChildAsks(_, _) => true
    case TurnIsAsked(id, _, _) => !s.routing.serialized && id in s.turns && !s.turns[id].task.runDone
  }

  /** Where a request of the child goes. */
  datatype Delivery =
    | Refused
    | Forwarded(caller: Caller)
    | HeldFor(turn: nat, key: Key)

  /** `_forward` and `_list_roots`: nobody is asked while an abandoned call still runs. */
  function Deliver(s: System, kind: Kind, capable: bool): (System, Delivery) {
    var r := s.routing;
    if r.abandoned != {} || r.caller.None? then (s, Refused)
    else if r.turn.Some? && r.turn.value in s.turns then
      var (t, key) := Ask(s.turns[r.turn.value], kind, capable);
      (s.(turns := s.turns[r.turn.value := t]),
       if key.Some? then HeldFor(r.turn.value, key.value) else Refused)
    else (s, if capable then Forwarded(r.caller.value) else Refused)
  }

  function Step(s: System, e: Event): System {
    if !Enabled(s, e) then s
    else
      var r := s.routing;
      match e
      case TurnStarts(id, caller, holding) =>
        Put(s, id, (if r.serialized then Lock(r, OfTurn(id), caller, Some(id)) else r, NewTurn(holding, caller)))
      case LegWakesUp(id, ticket) =>
        var (r', t, _) := LegWakes(r, id, s.turns[id], ticket);
        Put(s, id, (r', t))
      case LegIsCancelled(id) => Put(s, id, LegCancelled(r, id, s.turns[id]))
      case CallerRetries(ticket, caller, responses) =>
        var id := r.parked[ticket];
        Put(s, id, Resume(r, id, s.turns[id], caller, responses))
      case MemberLeft(ticket) =>
        var id := r.parked[ticket];
        Put(s, id, End(r, id, s.turns[id]))
      case TurnExpires(id) => Put(s, id, End(r, id, s.turns[id]))
      case DrainFires(id) => Put(s, id, Drained(r, id, s.turns[id]))
      case RunEnds(id) => Put(s, id, (r, RunOver(s.turns[id])))
      case RunCallback(id) => Put(s, id, Finished(r, id, s.turns[id]))
      case UpstreamWithdraws(id, key) => Put(s, id, (r, Withdraw(s.turns[id], key)))
      case TableReplaced => s.(routing := r.(rebuilt := true))
      case RequestStarts(id, caller) =>
        s.(routing := Lock(r, OfRequest(id), caller, None),
           requests := s.requests[id := Request(caller, None, false, false)])
      case CallStarts(id, call) =>
        s.(requests := s.requests[id := s.requests[id].(call := Some(call))], running := s.running + {call})
      case CallEnds(call) => s.(running := s.running - {call})
      case CallReturns(id) => s.(requests := s.requests[id := s.requests[id].(call := None)])
      case RequestCancelled(id) =>
        // Without a caller nothing could be forwarded for it, and the call just ends with it.
        if s.requests[id].caller.None? then Leave(s.(running := s.running - {s.requests[id].call.value}), id)
        else
          s.(routing := r.(caller := None), requests := s.requests[id := s.requests[id].(draining := true)])
      case RequestDrainEnds(id) =>
        Leave(
          if CallIsRunning(s, id)
          then s.(routing := r.(abandoned := r.abandoned + {Plain(s.requests[id].call.value)}))
          else s,
          id)
      case RequestFails(id) => Leave(s.(running := s.running - {s.requests[id].call.value}), id)
      case RequestLeaves(id) => Leave(s, id)
      case AbandonedCallback(call) => s.(routing := r.(abandoned := r.abandoned - {call}))
      case ChildAsks(kind, capable) => Deliver(s, kind, capable).0
      case TurnIsAsked(id, kind, capable) => Put(s, id, (r, Ask(s.turns[id], kind, capable).0))
  }

  /** The steps of handshake-era requests, of upstream calls and of the parked table as a whole:
      no turn changes in them. */
  predicate LeavesTurns(e: Event) {
    e.TableReplaced? || e.RequestStarts? || e.CallStarts? || e.CallEnds? || e.CallReturns? || e.RequestCancelled? ||
    e.RequestDrainEnds? || e.RequestFails? || e.RequestLeaves? || e.AbandonedCallback?
  }

  lemma LeavingTurns(s: System, e: Event)
    requires LeavesTurns(e)
    ensures Step(s, e).turns == s.turns && Step(s, e).routing.turn == (if e.RequestStarts? && Enabled(s, e) then None else s.routing.turn)
  {
  }

  /** The child's requests go to one turn at most. */
  lemma DeliverToOne(s: System, kind: Kind, capable: bool)
    ensures var s' := Deliver(s, kind, capable).0;
            s' == s || (s.routing.turn.Some? && s.routing.turn.value in s.turns &&
                        s' == Put(s, s.routing.turn.value, (s.routing, Ask(s.turns[s.routing.turn.value], kind, capable).0)))
  {
  }

  function RunAll(s: System, events: seq<Event>): System
    decreases |events|
  {
    if events == [] then s else RunAll(Step(s, events[0]), events[1..])
  }

  // ---------------------------------------------------------------- what every step keeps

  /** How turn `i` stands to the routing. */
  ghost predicate TurnOk(r: Routing, i: nat, t: Turn) {
    TurnKeeps(t) && Placed(r, i, t)
  }

  ghost predicate Placed(r: Routing, i: nat, t: Turn) {
    && (t.parking.ticket.Some? ==> t.parking.ticket.value in r.parked && r.parked[t.parking.ticket.value] == i)
    && (r.serialized ==>
          && !t.holding
          && (!t.task.released <==> r.lock == Some(OfTurn(i)))
          && (r.turn == Some(i) ==> !t.task.released && (t.closed ==> t.task.runDone) && r.caller == t.caller)
          && (!t.task.released && !t.closed ==> r.turn == Some(i))
          && (t.closed && !t.task.runDone && !t.task.released ==> t.task.drain)
          && (t.task.callbackRan ==> t.task.released)
          && (!t.task.runDone && t.task.released ==> Run(i) in r.abandoned))
  }

  ghost predicate RequestOk(r: Routing, running: set<nat>, i: nat, q: Request) {
    && (!q.over <==> r.lock == Some(OfRequest(i)))
    && (!q.over ==> r.turn.None? && r.caller == if q.draining then None else q.caller)
    && (q.draining ==> q.call.Some?)
    && (q.over && q.call.Some? && q.call.value in running ==> Plain(q.call.value) in r.abandoned)
  }

  predicate KnownHolder(s: System, h: Holder) {
    match h
    case OfTurn(i) => i in s.turns
    case OfRequest(i) => i in s.requests
  }

  predicate OwnCall(s: System, i: nat, call: nat) {
    Active(s, i) && s.requests[i].call == Some(call)
  }

  ghost predicate RoutingOk(s: System) {
    var r := s.routing;
    && (r.serialized ==> !r.rebuilt)
    && (r.rebuilt ==> r.parked == map[])
    && (!r.serialized ==> r.lock.None? && r.caller.None? && r.turn.None? && s.requests == map[])
    && (r.lock.None? ==> r.caller.None? && r.turn.None?)
    && (r.turn.Some? ==> r.lock == Some(OfTurn(r.turn.value)))
    && (r.lock.Some? && r.lock.value.OfTurn? && r.turn.None? ==> r.caller.None?)
    && (r.lock.Some? ==> KnownHolder(s, r.lock.value))
    && |r.parked| <= MAX_PARKED_TURNS
  }

  ghost predicate Inv(s: System) {
    && RoutingOk(s)
    && (forall i :: i in s.turns ==> TurnOk(s.routing, i, s.turns[i]))
    && (forall k :: k in s.routing.parked ==>
          s.routing.parked[k] in s.turns && s.turns[s.routing.parked[k]].parking.ticket == Some(k))
    && (forall i :: i in s.requests ==> RequestOk(s.routing, s.running, i, s.requests[i]))
    && (forall n :: n in s.running ==> Plain(n) in s.routing.abandoned || exists i :: i in s.requests && OwnCall(s, i, n))
  }
}
