/**
 A whole proxy of those objects: one routing, every turn started on it, and the handshake-era
 requests. Each event is handled by the object it concerns, and any run of them is a run of
 `BridgeSystem`.
 */
module BridgeRun {
  import opened Basics
  import P = TurnProtocol
  import S = BridgeSystem
  import Invariant = BridgeInvariant
  import opened BridgeHost

  class Proxy {
    const routing: StdioRouting
    var turns: map<nat, Turn>
    var requests: map<nat, S.Request>
    var running: set<nat>
    /** The proxy, its routing and its turns. */
    ghost var repr: set<object>

    /** Every turn is its own object, and the routing names none but these. */
    ghost predicate Valid()
      reads this, repr
    {
      && this in repr && routing in repr && (forall i :: i in turns ==> turns[i] in repr)
      && routing.Valid()
      && (forall i :: i in turns ==> turns[i].id == i && turns[i].routing == routing && turns[i].Valid())
      && (routing.turn != null ==> routing.turn.id in turns && turns[routing.turn.id] == routing.turn)
      && (forall k :: k in routing.parked ==>
            routing.parked[k].id in turns && turns[routing.parked[k].id] == routing.parked[k])
    }

    ghost function TurnViews(): map<nat, P.Turn>
      requires Valid()
      reads this, repr
    {
      map i | i in turns :: turns[i].View()
    }

    ghost function View(): S.System
      requires Valid()
      reads this, repr
    {
      S.System(routing.View(), TurnViews(), requests, running)
    }

    constructor (serialized: bool)
      ensures Valid() && fresh(repr) && View() == S.Init(serialized)
    {
      routing := new StdioRouting(serialized);
      turns, requests, running := map[], map[], {};
      new;
      repr := {this, routing};
    }

    // -------------------------------------------------------------- one turn's steps

    /** Turn `i` did something, to itself and to what the routing knows of it. */
    twostate lemma TurnMoved(i: nat)
      requires old(Valid()) && old(i in turns)
      requires turns == old(turns) && requests == old(requests) && running == old(running) && repr == old(repr)
      requires forall j :: j in turns && j != i ==> unchanged(turns[j])
      requires routing.Valid() && turns[i].Valid() && turns[i].Own()
      ensures Valid() && View() == S.Put(old(View()), i, (routing.View(), turns[i].View()))
    {
      forall j | j in turns && j != i
        ensures turns[j].Valid() && turns[j].View() == old(turns[j].View())
      {
      }
      assert TurnViews() == old(TurnViews())[i := turns[i].View()];
    }

    method WakeLeg(id: nat, ticket: P.Ticket)
      requires Valid() && S.Enabled(View(), S.LegWakesUp(id, ticket))
      modifies repr
      ensures Valid() && repr == old(repr) && View() == S.Step(old(View()), S.LegWakesUp(id, ticket))
    {
      var _ := turns[id].LegWakes(ticket);
      TurnMoved(id);
    }

    method CancelLeg(id: nat)
      requires Valid() && S.Enabled(View(), S.LegIsCancelled(id))
      modifies repr
      ensures Valid() && repr == old(repr) && View() == S.Step(old(View()), S.LegIsCancelled(id))
    {
      turns[id].live := false;
      turns[id].End();
      TurnMoved(id);
    }

    method Expire(id: nat)
      requires Valid() && S.Enabled(View(), S.TurnExpires(id))
      modifies repr
      ensures Valid() && repr == old(repr) && View() == S.Step(old(View()), S.TurnExpires(id))
    {
      turns[id].End();
      TurnMoved(id);
    }

    method Retry(ticket: P.Ticket, caller: Option<P.Caller>, responses: map<P.Key, P.Response>)
      requires Valid() && S.Enabled(View(), S.CallerRetries(ticket, caller, responses))
      modifies repr
      ensures Valid() && repr == old(repr) && View() == S.Step(old(View()), S.CallerRetries(ticket, caller, responses))
    {
      var turn := routing.parked[ticket];
      turn.Resume(caller, responses);
      TurnMoved(turn.id);
    }

    method LoseMember(ticket: P.Ticket)
      requires Valid() && S.Enabled(View(), S.MemberLeft(ticket))
      modifies repr
      ensures Valid() && repr == old(repr) && View() == S.Step(old(View()), S.MemberLeft(ticket))
    {
      var turn := routing.parked[ticket];
      turn.End();
      TurnMoved(turn.id);
    }

    /** A turn that hasn't released the lock holds it. */
    lemma HoldsTheLock(i: nat)
      requires Valid() && S.Inv(View()) && i in turns
      ensures routing.serialized && !turns[i].released ==> routing.locked
    {
      Invariant.InvIsLocal(View(), i);
    }

    method FireDrain(id: nat)
      requires Valid() && S.Enabled(View(), S.DrainFires(id))
      requires routing.serialized && !turns[id].released ==> routing.locked
      modifies repr
      ensures Valid() && repr == old(repr) && View() == S.Step(old(View()), S.DrainFires(id))
    {
      turns[id].Drained();
      TurnMoved(id);
    }

    method RunDone(id: nat)
      requires Valid() && S.Enabled(View(), S.RunCallback(id))
      requires routing.serialized && !turns[id].released ==> routing.locked
      modifies repr
      ensures Valid() && repr == old(repr) && View() == S.Step(old(View()), S.RunCallback(id))
    {
      turns[id].Finished();
      TurnMoved(id);
    }

    method EndRun(id: nat)
      requires Valid() && S.Enabled(View(), S.RunEnds(id))
      modifies repr
      ensures Valid() && repr == old(repr) && View() == S.Step(old(View()), S.RunEnds(id))
    {
      turns[id].runDone := true;
      TurnMoved(id);
    }

    method Withdraw(id: nat, key: P.Key)
      requires Valid() && S.Enabled(View(), S.UpstreamWithdraws(id, key))
      modifies repr
      ensures Valid() && repr == old(repr) && View() == S.Step(old(View()), S.UpstreamWithdraws(id, key))
    {
      turns[id].asks := turns[id].asks.(pending := turns[id].asks.pending - {key});
      TurnMoved(id);
    }

    /** A request of turn `id`'s own upstream session. */
    method AskTurn(id: nat, kind: P.Kind, capable: bool) returns (key: Option<P.Key>)
      requires Valid() && S.Enabled(View(), S.TurnIsAsked(id, kind, capable))
      modifies repr
      ensures Valid() && repr == old(repr) && View() == S.Step(old(View()), S.TurnIsAsked(id, kind, capable))
      ensures key == P.Ask(old(turns[id].View()), kind, capable).1
    {
      key := turns[id].Ask(kind, capable);
      TurnMoved(id);
    }

    /** A free child has no turn in its slot. */
    lemma NobodyInTheSlot()
      requires Valid() && S.Inv(View()) && (routing.serialized ==> !routing.locked)
      ensures routing.turn == null
    {
    }

    /** A new turn is its own object, so nobody else's views change. */
    twostate lemma TurnAdded(id: nat, new turn: Turn)
      requires old(Valid()) && id !in old(turns) && turns == old(turns)[id := turn] && repr == old(repr) + {turn}
      requires turn.id == id && turn.routing == routing && turn.Valid() && turn.Slotted() && routing.Valid()
      requires routing.parked == old(routing.parked) && (routing.turn == null || routing.turn.id == id)
      requires forall j :: j in old(turns) ==> unchanged(old(turns)[j])
      ensures Valid()
    {
      forall j | j in old(turns)
        ensures turns[j].Valid()
      {
      }
    }

    twostate lemma ViewAdded(id: nat, new turn: Turn)
      requires old(Valid()) && Valid() && id !in old(turns) && turns == old(turns)[id := turn]
      requires requests == old(requests) && running == old(running)
      requires forall j :: j in old(turns) ==> turns[j].View() == old(turns[j].View())
      ensures View() == S.Put(old(View()), id, (routing.View(), turn.View()))
    {
      assert TurnViews() == old(TurnViews())[id := turn.View()];
    }

    method StartTurn(id: nat, caller: Option<P.Caller>, holding: bool)
      requires Valid() && routing.turn == null && S.Enabled(View(), S.TurnStarts(id, caller, holding))
      modifies this, routing
      ensures Valid() && fresh(repr - old(repr)) && View() == S.Step(old(View()), S.TurnStarts(id, caller, holding))
    {
      var turn := new Turn(id, routing, caller, holding);
      turns := turns[id := turn];
      repr := repr + {turn};
      TurnAdded(id, turn);
      ViewAdded(id, turn);
    }

    /** A request of the child. */
    method AskClient(kind: P.Kind, capable: bool) returns (delivery: S.Delivery)
      requires Valid()
      modifies repr
      ensures Valid() && repr == old(repr) && (View(), delivery) == S.Deliver(old(View()), kind, capable)
    {
      delivery := routing.Forward(kind, capable);
      if routing.turn != null {
        TurnMoved(routing.turn.id);
        PutTheSame(old(View()), routing.turn.id);
      } else {
        TurnsUntouched();
      }
    }

    lemma PutTheSame(s: S.System, i: nat)
      requires i in s.turns
      ensures S.Put(s, i, (s.routing, s.turns[i])) == s
    {
    }

    // -------------------------------------------------------------- handshake-era requests

    /** Nothing but the routing's own fields, and the requests, moved. */
    twostate lemma TurnsUntouched()
      requires old(Valid()) && turns == old(turns) && repr == old(repr) && routing.Valid()
      requires routing.turn == old(routing.turn) && routing.parked == old(routing.parked)
      requires forall j :: j in turns ==> unchanged(turns[j])
      ensures Valid() && TurnViews() == old(TurnViews())
    {
      forall j | j in turns
        ensures turns[j].Valid() && turns[j].View() == old(turns[j].View())
      {
      }
    }

    method StartRequest(id: nat, caller: Option<P.Caller>)
      requires Valid() && routing.turn == null && S.Enabled(View(), S.RequestStarts(id, caller))
      modifies this, routing
      ensures Valid() && repr == old(repr) && View() == S.Step(old(View()), S.RequestStarts(id, caller))
    {
      routing.Enter(id, caller);
      requests := requests[id := S.Request(caller, None, false, false)];
      TurnsUntouched();
    }

    /** A request's own call starts or returns, or a call ends; the child is none the wiser. */
    method MoveCall(e: S.Event)
      requires Valid() && S.Enabled(View(), e) && (e.CallStarts? || e.CallEnds? || e.CallReturns?)
      modifies this
      ensures Valid() && repr == old(repr) && View() == S.Step(old(View()), e)
    {
      match e {
        case CallStarts(id, call) =>
          requests, running := requests[id := requests[id].(call := Some(call))], running + {call};
        case CallEnds(call) => running := running - {call};
        case CallReturns(id) => requests := requests[id := requests[id].(call := None)];
      }
      TurnsUntouched();
    }

    /** Whoever is still at its request holds the lock. */
    lemma AtTheChild(id: nat)
      requires Valid() && S.Inv(View()) && S.Active(View(), id)
      ensures routing.locked
    {
      Invariant.OnlyTheHolderIsActive(View(), id);
    }

    /** The request's `finally`. */
    method LeaveChild(id: nat)
      requires Valid() && id in requests && routing.locked
      modifies this, routing
      ensures Valid() && repr == old(repr) && View() == S.Leave(old(View()), id)
    {
      routing.Leave();
      requests := requests[id := requests[id].(over := true)];
      TurnsUntouched();
    }

    /** Without a caller the call is cancelled, and the request leaves. */
    method DropRequest(id: nat)
      requires Valid() && routing.locked && S.Enabled(View(), S.RequestCancelled(id)) && requests[id].caller.None?
      modifies this, routing
      ensures Valid() && repr == old(repr) && View() == S.Step(old(View()), S.RequestCancelled(id))
    {
      running := running - {requests[id].call.value};
      TurnsUntouched();
      LeaveChild(id);
    }

    method DrainRequest(id: nat)
      requires Valid() && S.Enabled(View(), S.RequestCancelled(id)) && requests[id].caller.Some?
      modifies this, routing
      ensures Valid() && repr == old(repr) && View() == S.Step(old(View()), S.RequestCancelled(id))
    {
      routing.caller := None;
      requests := requests[id := requests[id].(draining := true)];
      TurnsUntouched();
    }

    method AbandonCall(call: P.Call)
      requires Valid()
      modifies routing
      ensures Valid() && repr == old(repr) && routing.locked == old(routing.locked)
      ensures View() == old(View()).(routing := old(View()).routing.(abandoned := old(View()).routing.abandoned + {call}))
    {
      routing.Abandon(call);
      TurnsUntouched();
    }

    method EndDrain(id: nat)
      requires Valid() && routing.locked && S.Enabled(View(), S.RequestDrainEnds(id))
      modifies this, routing
      ensures Valid() && repr == old(repr) && View() == S.Step(old(View()), S.RequestDrainEnds(id))
    {
      if requests[id].call.Some? && requests[id].call.value in running {
        AbandonCall(P.Plain(requests[id].call.value));
      }
      LeaveChild(id);
    }

    method FailRequest(id: nat)
      requires Valid() && routing.locked && S.Enabled(View(), S.RequestFails(id))
      modifies this, routing
      ensures Valid() && repr == old(repr) && View() == S.Step(old(View()), S.RequestFails(id))
    {
      running := running - {requests[id].call.value};
      TurnsUntouched();
      LeaveChild(id);
    }

    method FinishRequest(id: nat)
      requires Valid() && routing.locked && S.Enabled(View(), S.RequestLeaves(id))
      modifies this, routing
      ensures Valid() && repr == old(repr) && View() == S.Step(old(View()), S.RequestLeaves(id))
    {
      LeaveChild(id);
    }

    /** An abandoned call's done-callback, or a group's table replaced. */
    method Forget(e: S.Event)
      requires Valid() && S.Enabled(View(), e) && (e.AbandonedCallback? || e.TableReplaced?)
      modifies routing
      ensures Valid() && repr == old(repr) && View() == S.Step(old(View()), e)
    {
      match e {
        case AbandonedCallback(call) => routing.abandoned := routing.abandoned - {call};
        case TableReplaced => routing.rebuilt := true;
      }
      TurnsUntouched();
    }

    // -------------------------------------------------------------- every step, every run

    method HandleTurn(e: S.Event)
      requires Valid() && S.Inv(View()) && S.Enabled(View(), e) && !S.LeavesTurns(e)
      modifies repr
      ensures Valid() && fresh(repr - old(repr)) && View() == S.Step(old(View()), e)
    {
      match e
      case TurnStarts(id, caller, holding) =>
        NobodyInTheSlot();
        StartTurn(id, caller, holding);
      case LegWakesUp(id, ticket) => WakeLeg(id, ticket);
      case LegIsCancelled(id) => CancelLeg(id);
      case CallerRetries(ticket, caller, responses) => Retry(ticket, caller, responses);
      case MemberLeft(ticket) => LoseMember(ticket);
      case TurnExpires(id) => Expire(id);
      case DrainFires(id) =>
        HoldsTheLock(id);
        FireDrain(id);
      case RunEnds(id) => EndRun(id);
      case RunCallback(id) =>
        HoldsTheLock(id);
        RunDone(id);
      case UpstreamWithdraws(id, key) => Withdraw(id, key);
      case ChildAsks(kind, capable) => var _ := AskClient(kind, capable);
      case TurnIsAsked(id, kind, capable) => var _ := AskTurn(id, kind, capable);
    }

    /** The steps of a request that holds the child. */
    method HandleHolder(e: S.Event)
      requires Valid() && routing.locked && S.Enabled(View(), e)
      requires e.RequestCancelled? || e.RequestDrainEnds? || e.RequestFails? || e.RequestLeaves?
      modifies repr
      ensures Valid() && repr == old(repr) && View() == S.Step(old(View()), e)
    {
      match e
      case RequestCancelled(id) =>
        if requests[id].caller.None? {
          DropRequest(id);
        } else {
          DrainRequest(id);
        }
      case RequestDrainEnds(id) => EndDrain(id);
      case RequestFails(id) => FailRequest(id);
      case RequestLeaves(id) => FinishRequest(id);
    }

    method HandleRequest(e: S.Event)
      requires Valid() && S.Inv(View()) && S.Enabled(View(), e) && S.LeavesTurns(e)
      modifies repr
      ensures Valid() && repr == old(repr) && View() == S.Step(old(View()), e)
    {
      if e.RequestCancelled? || e.RequestDrainEnds? || e.RequestFails? || e.RequestLeaves? {
        AtTheChild(e.id);
        HandleHolder(e);
      } else if e.RequestStarts? {
        NobodyInTheSlot();
        StartRequest(e.id, e.caller);
      } else if e.AbandonedCallback? || e.TableReplaced? {
        Forget(e);
      } else {
        MoveCall(e);
      }
    }

    method Handle(e: S.Event)
      requires Valid() && S.Inv(View()) && S.Enabled(View(), e)
      modifies repr
      ensures Valid() && fresh(repr - old(repr)) && View() == S.Step(old(View()), e) && S.Inv(View())
    {
      Invariant.StepKeeps(View(), e);
      if S.LeavesTurns(e) {
        HandleRequest(e);
      } else {
        HandleTurn(e);
      }
    }

    method HandleFirst(events: seq<S.Event>)
      requires Valid() && events != [] && Fine(View(), events)
      modifies repr
      ensures Valid() && fresh(repr - old(repr)) && View() == S.Step(old(View()), events[0])
    {
      Handle(events[0]);
    }

    /** The events one after the other. */
    method HandleAll(events: seq<S.Event>)
      requires Valid() && Fine(View(), events)
      modifies repr
      ensures Valid() && fresh(repr - old(repr)) && View() == S.RunAll(old(View()), events)
      decreases |events|
    {
      if events != [] {
        ghost var start := View();
        FineOn(start, events);
        HandleFirst(events);
        HandleAll(events[1..]);
      }
    }

    /** Any run of steps, each possible when it comes, keeps the whole invariant on these objects. */
    method Serve(events: seq<S.Event>)
      requires Valid() && S.Inv(View()) && Possible(View(), events)
      modifies repr
      ensures Valid() && fresh(repr - old(repr)) && View() == S.RunAll(old(View()), events) && S.Inv(View())
    {
      Invariant.EveryRunKeeps(View(), events);
      PossibleIsFine(View(), events);
      HandleAll(events);
    }
  }

  /** Each step can be taken when its turn comes. A step that can't changes nothing. */
  ghost predicate Possible(s: S.System, events: seq<S.Event>)
    decreases |events|
  {
    events == [] || (S.Enabled(s, events[0]) && Possible(S.Step(s, events[0]), events[1..]))
  }

  /** And the invariant holds then. */
  ghost predicate Fine(s: S.System, events: seq<S.Event>)
    decreases |events|
  {
    events == [] || (S.Inv(s) && S.Enabled(s, events[0]) && Fine(S.Step(s, events[0]), events[1..]))
  }

  lemma {:induction false} PossibleIsFine(s: S.System, events: seq<S.Event>)
    requires S.Inv(s) && Possible(s, events)
    ensures Fine(s, events)
    decreases |events|
  {
    if events != [] {
      Invariant.StepKeeps(s, events[0]);
      PossibleIsFine(S.Step(s, events[0]), events[1..]);
    }
  }

  lemma FineOn(s: S.System, events: seq<S.Event>)
    requires events != [] && Fine(s, events)
    ensures Fine(S.Step(s, events[0]), events[1..])
    ensures S.RunAll(s, events) == S.RunAll(S.Step(s, events[0]), events[1..])
  {
  }
}
