/**
 The bridge's objects as the bridge holds them (backend/app/bridge/host.py): a routing per stdio
 child, and a turn per modern caller's request, changing their own fields and the routing's. Each
 method does to the views what `TurnProtocol` says.
 */
module BridgeHost {
  import opened Basics
  import P = TurnProtocol
  import S = BridgeSystem

  /** Answering one more of the waiting requests. */
  lemma AnswerOne(
      pending: map<P.Key, P.Kind>, results: map<P.Key, P.Answer>, done: set<P.Key>, k: P.Key, answer: P.Answer)
    ensures pending - done - {k} == pending - (done + {k})
    ensures (results + P.AllTold(done, answer))[k := answer] == results + P.AllTold(done + {k}, answer)
  {
  }

  /** Likewise on a retry, where each request has an answer of its own. */
  lemma AnswerOneFrom(
      pending: map<P.Key, P.Kind>, results: map<P.Key, P.Answer>, done: set<P.Key>, k: P.Key,
      responses: map<P.Key, P.Response>)
    requires done <= pending.Keys && k in pending
    ensures pending - done - {k} == pending - (done + {k})
    ensures (results + P.EachTold(done, pending, responses))[k := P.AnswerFor(pending[k], k, responses)] ==
            results + P.EachTold(done + {k}, pending, responses)
  {
  }

  /** `ids` names the turns of the parked table. */
  ghost predicate Named(parked: map<P.Ticket, Turn>, ids: map<P.Ticket, nat>) {
    parked.Keys == ids.Keys && forall k :: k in parked ==> parked[k].id == ids[k]
  }

  lemma Forget(parked: map<P.Ticket, Turn>, ids: map<P.Ticket, nat>, ticket: P.Ticket)
    requires Named(parked, ids)
    ensures Named(parked - {ticket}, ids - {ticket})
  {
  }

  lemma Remember(parked: map<P.Ticket, Turn>, ids: map<P.Ticket, nat>, ticket: P.Ticket, turn: Turn)
    requires Named(parked, ids)
    ensures Named(parked[ticket := turn], ids[ticket := turn.id])
  {
  }

  lemma SameSize(parked: map<P.Ticket, Turn>, ids: map<P.Ticket, nat>)
    requires Named(parked, ids)
    ensures |ids| == |parked|
  {
    assert |ids.Keys| == |ids| && |parked.Keys| == |parked|;
  }

  /** `_StdioRouting`. For a proxy with a session per request only the parked table is used, and
      `serialized` is off. */
  class StdioRouting {
    const serialized: bool
    var locked: bool
    var caller: Option<P.Caller>
    var turn: Turn?
    var parked: map<P.Ticket, Turn>
    var rebuilt: bool
    var abandoned: set<P.Call>
    ghost var ids: map<P.Ticket, nat>
    ghost var holder: Option<P.Holder>
    ghost var log: seq<P.LockEvent>

    ghost predicate Valid()
      reads this
    {
      locked == holder.Some? && Named(parked, ids)
    }

    ghost function View(): P.Routing
      reads this
    {
      P.Routing(serialized, holder, caller, if turn == null then None else Some(turn.id),
                ids, rebuilt, abandoned, log)
    }

    constructor (serialized: bool)
      ensures Valid() && View() == S.Init(serialized).routing
    {
      this.serialized := serialized;
      locked, caller, turn, parked, rebuilt, abandoned := false, None, null, map[], false, {};
      ids, holder, log := map[], None, [];
    }

    /** The parked table's entries. */
    method Put(ticket: P.Ticket, turn: Turn)
      requires Valid()
      modifies this`parked, this`ids
      ensures Valid() && View() == old(View()).(parked := old(View()).parked[ticket := turn.id])
      ensures parked == old(parked)[ticket := turn]
    {
      Remember(parked, ids, ticket, turn);
      parked, ids := parked[ticket := turn], ids[ticket := turn.id];
    }

    method HasRoom() returns (room: bool)
      requires Valid()
      ensures room == (|View().parked| < P.MAX_PARKED_TURNS)
    {
      SameSize(parked, ids);
      room := |parked| < P.MAX_PARKED_TURNS;
    }

    method Pop(ticket: P.Ticket)
      requires Valid()
      modifies this`parked, this`ids
      ensures Valid() && View() == old(View()).(parked := old(View()).parked - {ticket})
      ensures parked == old(parked) - {ticket}
    {
      Forget(parked, ids, ticket);
      parked, ids := parked - {ticket}, ids - {ticket};
    }

    /** The lock's release: a lock nobody holds can't be released. */
    method Unlock()
      requires Valid() && locked
      modifies this`locked, this`holder, this`log
      ensures Valid() && View() == P.Unlock(old(View()))
    {
      log := log + [P.Released(holder.value)];
      locked, holder := false, None;
    }

    /** A handshake-era request takes the free child. */
    method Enter(request: nat, asking: Option<P.Caller>)
      requires Valid() && !locked && turn == null
      modifies this`locked, this`holder, this`log, this`caller
      ensures Valid() && View() == S.Lock(old(View()), P.OfRequest(request), asking, None)
    {
      locked, holder := true, Some(P.OfRequest(request));
      log := log + [P.Acquired(P.OfRequest(request))];
      caller := asking;
    }

    /** Its `finally`: the slot is emptied and the lock given back. */
    method Leave()
      requires Valid() && locked
      modifies this`locked, this`holder, this`log, this`caller
      ensures Valid() && View() == P.Unlock(old(View()).(caller := None))
    {
      caller := None;
      Unlock();
    }

    /** A cancelled call the child didn't finish in time. */
    method Abandon(call: P.Call)
      requires Valid()
      modifies this`abandoned
      ensures Valid() && View() == old(View()).(abandoned := old(abandoned) + {call})
    {
      abandoned := abandoned + {call};
    }

    /** `_forward`: where a request of the child goes. */
    method Forward(kind: P.Kind, capable: bool) returns (delivery: S.Delivery)
      requires Valid() && (turn != null ==> turn.Valid())
      modifies turn
      ensures Valid() && View() == old(View())
      ensures abandoned != {} || caller.None? ==> delivery == S.Refused
      ensures abandoned == {} && caller.Some? && turn == null ==>
                delivery == if capable then S.Forwarded(caller.value) else S.Refused
      ensures turn != null ==>
                turn.Valid() &&
                if abandoned != {} || caller.None? then turn.View() == old(turn.View())
                else
                  var (next, key) := P.Ask(old(turn.View()), kind, capable);
                  turn.View() == next && delivery == if key.Some? then S.HeldFor(turn.id, key.value) else S.Refused
    {
      if abandoned != {} || caller.None? {
        return S.Refused;
      }
      if turn != null {
        var key := turn.Ask(kind, capable);
        return if key.Some? then S.HeldFor(turn.id, key.value) else S.Refused;
      }
      return if capable then S.Forwarded(caller.value) else S.Refused;
    }
  }

  /** `_Turn`. `results` are the answers its futures were given; the turn's `run` and its timers
      are known by what they did: `runDone`, `callbackRan`, `expiry`, `drain`. */
  class Turn {
    const id: nat
    const routing: StdioRouting
    const holding: bool
    var caller: Option<P.Caller>
    var asks: P.Asks
    var asked: bool
    var closed: bool
    var state: Option<P.Ticket>
    var expiry: bool
    var held: bool
    var drain: bool
    var released: bool
    var runDone: bool
    var callbackRan: bool
    ghost var live: bool
    ghost var holds: nat
    ghost var lets: nat

    ghost predicate Valid()
      reads this
    {
      forall k :: k in asks.pending ==> k < asks.nextKey
    }

    ghost function View(): P.Turn
      reads this
    {
      P.Turn(holding, caller, asked, closed, live, asks,
             P.Parking(state, expiry, held, holds, lets), P.Task(runDone, callbackRan, drain, released))
    }

    /** The routing is sound, and if its slot names this turn, it is this turn. */
    ghost predicate Slotted()
      reads routing
    {
      routing.Valid() && (routing.turn != null && routing.turn.id == id ==> routing.turn == this)
    }

    /** Since then the routing's slot was left alone or emptied, and of the parked table's entries
        only this turn's are new. */
    twostate predicate Own()
      reads routing
    {
      && (routing.turn == old(routing.turn) || routing.turn == null)
      && forall k :: k in routing.parked ==>
           routing.parked[k] == this || (k in old(routing.parked) && routing.parked[k] == old(routing.parked)[k])
    }

    /** A turn starts: it takes the free child, where there is one to take. */
    constructor (id: nat, routing: StdioRouting, asking: Option<P.Caller>, holding: bool)
      requires routing.Valid() && routing.turn == null && (routing.serialized ==> !routing.locked)
      modifies routing
      ensures Valid() && Slotted() && this.routing == routing && this.id == id
      ensures View() == P.NewTurn(holding, asking)
      ensures routing.View() ==
              if routing.serialized then S.Lock(old(routing.View()), P.OfTurn(id), asking, Some(id))
              else old(routing.View())
      ensures routing.parked == old(routing.parked) && (!routing.serialized ==> routing.turn == null)
    {
      this.id, this.routing, this.holding := id, routing, holding;
      caller, asks, asked, closed, state, expiry := asking, P.Asks(map[], {}, 0, map[]), false, false, None, false;
      held, drain, released, runDone, callbackRan := false, false, false, false, false;
      live, holds, lets := true, 0, 0;
      new;
      if routing.serialized {
        routing.locked, routing.holder := true, Some(P.OfTurn(id));
        routing.log := routing.log + [P.Acquired(P.OfTurn(id))];
        routing.caller, routing.turn := asking, this;
      }
    }

    /** Give the requests in `keys` their answer; each wakes and takes itself out. */
    method AnswerAll(keys: set<P.Key>, answer: P.Answer)
      requires Valid()
      modifies this`asks
      ensures Valid() && asks == P.Told(old(asks), keys, answer)
    {
      var todo := keys * asks.pending.Keys;
      ghost var (before, all, done) := (asks, todo, {});
      while todo != {}
        invariant todo <= before.pending.Keys && done !! todo && done + todo == all
        invariant asks == before.(pending := before.pending - done, answered := before.answered + P.AllTold(done, answer))
        decreases todo
      {
        var k :| k in todo;
        AnswerOne(before.pending, before.answered, done, k, answer);
        asks := asks.(pending := asks.pending - {k}, answered := asks.answered[k := answer]);
        todo, done := todo - {k}, done + {k};
      }
      assert done == all && before.pending - all == before.pending - keys;
    }

    /** `_unpark`. */
    method Unpark()
      requires Valid() && Slotted()
      modifies this`expiry, this`state, this`held, this`lets, routing`parked, routing`ids
      ensures Valid() && Slotted() && state.None? && !expiry && !held
      ensures lets == if old(held) then old(lets) + 1 else old(lets)
      ensures routing.View() == P.UnparkRouting(old(routing.View()), old(View()))
      ensures Own()
    {
      expiry := false;
      if state.Some? {
        routing.Pop(state.value);
        state := None;
      }
      if held {
        held, lets := false, lets + 1;
      }
    }

    method ClearSlots()
      requires Slotted()
      modifies routing`caller, routing`turn
      ensures Slotted() && routing.View() == P.ClearSlots(old(routing.View()), id)
      ensures Own()
    {
      if routing.turn == this {
        routing.caller, routing.turn := None, null;
      }
    }

    /** `_release`: only a turn that still holds the lock gives it back. */
    method Release()
      requires Valid() && Slotted() && (routing.serialized && !released ==> routing.locked)
      modifies this`released, routing
      ensures Valid() && Slotted()
      ensures (routing.View(), View()) == P.Release(old(routing.View()), id, old(View()))
      ensures Own()
    {
      if released || !routing.serialized {
        return;
      }
      released := true;
      ClearSlots();
      routing.Unlock();
    }

    /** `_finished`. */
    method Finished()
      requires Valid() && Slotted() && (routing.serialized && !released ==> routing.locked)
      modifies this`callbackRan, this`released, routing
      ensures Valid() && Slotted()
      ensures (routing.View(), View()) == P.Finished(old(routing.View()), id, old(View()))
      ensures Own()
    {
      callbackRan := true;
      Release();
    }

    /** `_drained`. */
    method Drained()
      requires Valid() && Slotted() && (routing.serialized && !released ==> routing.locked)
      modifies this`drain, this`released, routing
      ensures Valid() && Slotted()
      ensures (routing.View(), View()) == P.Drained(old(routing.View()), id, old(View()))
      ensures Own()
    {
      drain := false;
      if !runDone {
        routing.Abandon(P.Run(id));
        Release();
      }
    }

    /** `end`: the caller is gone. */
    method End()
      requires Valid() && Slotted()
      modifies this, routing
      ensures Valid() && Slotted()
      ensures (routing.View(), View()) == P.End(old(routing.View()), id, old(View()))
      ensures Own()
    {
      Unpark();
      if closed {
        return;
      }
      closed := true;
      AnswerAll(asks.pending.Keys, P.ClientGone);
      if runDone || !routing.serialized {
        return;
      }
      ClearSlots();
      drain := true;
    }

    /** `ask`, up to its wait. */
    method Ask(kind: P.Kind, capable: bool) returns (key: Option<P.Key>)
      requires Valid()
      modifies this
      ensures Valid() && (View(), key) == P.Ask(old(View()), kind, capable)
    {
      if closed || caller.None? || !capable || |asks.pending| >= P.MAX_PENDING_PER_TURN {
        return None;
      }
      key := Some(asks.nextKey);
      asks := asks.(pending := asks.pending[key.value := kind], nextKey := asks.nextKey + 1);
      asked := true;
    }

    /** The leg ends with what the upstream asks, and the turn parks under a fresh ticket. */
    method Park(ticket: P.Ticket)
      requires Valid() && Slotted()
      modifies this, routing`parked, routing`ids
      ensures Valid() && Slotted() && View() == P.LegParks(old(View()), ticket)
      ensures routing.View() == old(routing.View()).(parked := old(routing.View()).parked[ticket := id])
      ensures Own()
    {
      FileUnder(ticket);
    }

    method FileUnder(ticket: P.Ticket)
      requires Valid() && Slotted()
      modifies this`asks, this`asked, this`live, this`state, this`expiry, this`held, this`holds, routing`parked, routing`ids
      ensures Valid() && Slotted() && !asked && !live && asks == P.LegParks(old(View()), ticket).asks
      ensures state == Some(ticket) && expiry && held == holding && holds == if holding then old(holds) + 1 else old(holds)
      ensures routing.View() == old(routing.View()).(parked := old(routing.View()).parked[ticket := id])
      ensures Own()
    {
      asks := asks.(sent := asks.sent + (asks.pending - asks.sent).Keys);
      asked, live := false, false;
      state, expiry := Some(ticket), true;
      routing.Put(ticket, this);
      held, holds := holding, if holding then holds + 1 else holds;
    }

    /** What the leg would hand on is refused, and the leg waits again. */
    method Refuse(reason: P.Answer)
      requires Valid()
      modifies this`asked, this`asks
      ensures Valid() && View() == P.LegRefuses(old(View()), reason)
    {
      asked := false;
      AnswerAll((asks.pending - asks.sent).Keys, reason);
    }

    /** The leg has something to hand to its caller, if the turn may park. */
    method HandOn(ticket: P.Ticket) returns (outcome: P.LegOutcome)
      requires Valid() && Slotted()
      modifies this, routing`parked, routing`ids
      ensures Valid() && Slotted()
      ensures (routing.View(), View(), outcome) == P.HandsOn(old(routing.View()), id, old(View()), ticket)
      ensures Own()
    {
      if routing.rebuilt {
        Refuse(P.GroupRebuilt);
        return P.Waits;
      }
      var room := routing.HasRoom();
      if !room {
        Refuse(P.TooManyTurnsWaiting);
        return P.Waits;
      }
      outcome := P.Parks(asks.pending - asks.sent);
      Park(ticket);
    }

    /** `leg`, from a wake-up to its next wait or its end. */
    method LegWakes(ticket: P.Ticket) returns (outcome: P.LegOutcome)
      requires Valid() && Slotted()
      modifies this, routing`parked, routing`ids
      ensures Valid() && Slotted()
      ensures (routing.View(), View(), outcome) == P.LegWakes(old(routing.View()), id, old(View()), ticket)
      ensures Own()
    {
      if runDone {
        live := false;
        return P.Returns;
      }
      if asks.pending - asks.sent == map[] {
        asked := false;
        return P.Waits;
      }
      outcome := HandOn(ticket);
    }

    /** Every request the caller was handed gets its answer, or is told it has none. */
    method AnswerSent(responses: map<P.Key, P.Response>)
      requires Valid()
      modifies this`asks
      ensures Valid() && asks == P.SentTold(old(asks), responses)
    {
      ghost var (before, done) := (asks, {});
      while asks.sent != {}
        invariant asks.sent <= before.sent && done == (before.sent - asks.sent) * before.pending.Keys
        invariant asks.pending == before.pending - done && asks.nextKey == before.nextKey
        invariant asks.answered == before.answered + P.EachTold(done, before.pending, responses)
        decreases asks.sent
      {
        var k :| k in asks.sent;
        asks := asks.(sent := asks.sent - {k});
        if k in asks.pending {
          AnswerOneFrom(before.pending, before.answered, done, k, responses);
          asks := asks.(pending := asks.pending - {k},
                        answered := asks.answered[k := P.AnswerFor(asks.pending[k], k, responses)]);
          done := done + {k};
        }
      }
      assert done == before.sent * before.pending.Keys && before.pending - done == before.pending - before.sent;
    }

    method Readdress(asking: Option<P.Caller>)
      requires Slotted()
      modifies routing`caller
      ensures Slotted() && routing.View() == P.Readdress(old(routing.View()), id, asking)
      ensures Own()
    {
      if routing.serialized && routing.turn == this {
        routing.caller := asking;
      }
    }

    /** The turn is taken from the table, and asks its new caller from now on. */
    method Reattach(asking: Option<P.Caller>)
      requires Valid() && Slotted()
      modifies this`caller, this`live, this`expiry, this`state, this`held, this`lets
      modifies routing`parked, routing`ids, routing`caller
      ensures Valid() && Slotted() && caller == asking && live && state.None? && !expiry && !held
      ensures lets == if old(held) then old(lets) + 1 else old(lets)
      ensures routing.View() == P.Readdress(P.UnparkRouting(old(routing.View()), old(View())), id, asking)
      ensures Own()
    {
      Unpark();
      caller := asking;
      live := true;
      Readdress(asking);
    }

    /** `resume`: the caller retried with its answers. */
    method Resume(asking: Option<P.Caller>, responses: map<P.Key, P.Response>)
      requires Valid() && Slotted()
      modifies this, routing`parked, routing`ids, routing`caller
      ensures Valid() && Slotted()
      ensures (routing.View(), View()) == P.Resume(old(routing.View()), id, old(View()), asking, responses)
      ensures Own()
    {
      Reattach(asking);
      AnswerSent(responses);
    }
  }
}
