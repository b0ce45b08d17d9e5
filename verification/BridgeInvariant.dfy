/** Every step of the bridge keeps its invariant. */
module BridgeInvariant {
  import opened Basics
  import opened TurnProtocol
  import opened BridgeSystem

  // ---------------------------------------------------------------- one turn at a time

  lemma AnsweringKeeps(a: Asks, keys: set<Key>, answer: Answer)
    requires Accounted(a)
    ensures Accounted(Told(a, keys, answer))
    ensures Told(a, keys, answer).pending.Keys == a.pending.Keys - keys
    ensures a.pending.Keys <= keys ==> Told(a, keys, answer).pending == map[]
  {
    FewerEntries(a.pending, keys);
    assert Told(a, keys, answer).pending.Keys == a.pending.Keys - keys;
  }

  lemma FewerEntries<K, V>(m: map<K, V>, gone: set<K>)
    ensures |m - gone| <= |m|
  {
    assert (m - gone).Keys <= m.Keys;
    FewerElements((m - gone).Keys, m.Keys);
    assert |m.Keys| == |m| && |(m - gone).Keys| == |m - gone|;
  }

  lemma {:induction false} FewerElements<T>(a: set<T>, b: set<T>)
    requires a <= b
    ensures |a| <= |b|
  {
    if a != {} {
      var x :| x in a;
      FewerElements(a - {x}, b - {x});
    }
  }

  /** How one turn's step may change the routing under everyone else's feet. */
  ghost predicate Touches(r: Routing, r': Routing, i: nat) {
    && r'.serialized == r.serialized && r'.rebuilt == r.rebuilt
    && (r'.lock == r.lock ||
        (r.lock == Some(OfTurn(i)) && r'.lock.None? && r'.turn.None? && r'.caller.None?))
    && ((r'.caller == r.caller && r'.turn == r.turn) ||
        (r.turn == Some(i) && (r'.turn == Some(i) || (r'.turn.None? && r'.caller.None?))))
    && (forall k :: k in r.parked && r.parked[k] != i ==> k in r'.parked && r'.parked[k] == r.parked[k])
    && (forall k :: k in r'.parked ==> r'.parked[k] == i || (k in r.parked && r'.parked[k] == r.parked[k]))
    && |r'.parked| <= MAX_PARKED_TURNS
    && r.abandoned <= r'.abandoned
  }

  /** Turn `i` and the routing agree with each other. */
  ghost predicate Local(r: Routing, i: nat, t: Turn) {
    && TurnKeeps(t) && Placed(r, i, t) && OwnTickets(r, i, t)
    && (r.lock.None? ==> r.caller.None? && r.turn.None?)
    && (r.turn.Some? ==> r.lock == Some(OfTurn(r.turn.value)))
    && (r.lock == Some(OfTurn(i)) && r.turn.None? ==> r.caller.None?)
    && (!r.serialized ==> r.lock.None?)
    && (r.rebuilt ==> r.parked == map[])
  }

  ghost predicate OwnTickets(r: Routing, i: nat, t: Turn) {
    (forall k :: k in r.parked && r.parked[k] == i ==> t.parking.ticket == Some(k)) && |r.parked| <= MAX_PARKED_TURNS
  }

  lemma InvIsLocal(s: System, i: nat)
    requires Inv(s) && i in s.turns
    ensures Local(s.routing, i, s.turns[i])
  {
  }

  /** A slot that names a turn names the lock's holder. */
  predicate SlotHolds(r: Routing) {
    (r.turn.Some? ==> r.lock == Some(OfTurn(r.turn.value))) && (r.lock.None? ==> r.caller.None? && r.turn.None?)
  }

  lemma OtherTurnStays(r: Routing, r': Routing, i: nat, j: nat, t: Turn)
    requires TurnOk(r, j, t) && Touches(r, r', i) && j != i && SlotHolds(r)
    ensures TurnOk(r', j, t)
  {
  }

  lemma RequestStays(r: Routing, r': Routing, running: set<nat>, i: nat, j: nat, q: Request)
    requires RequestOk(r, running, j, q) && Touches(r, r', i) && SlotHolds(r)
    ensures RequestOk(r', running, j, q)
  {
  }

  lemma TicketsStay(s: System, i: nat, next: (Routing, Turn), k: Ticket)
    requires i in s.turns && Touches(s.routing, next.0, i) && OwnTickets(next.0, i, next.1) && k in next.0.parked
    requires k in s.routing.parked ==> s.routing.parked[k] in s.turns && s.turns[s.routing.parked[k]].parking.ticket == Some(k)
    ensures var s' := Put(s, i, next); next.0.parked[k] in s'.turns && s'.turns[next.0.parked[k]].parking.ticket == Some(k)
  {
  }

  lemma RoutingStaysOk(s: System, i: nat, next: (Routing, Turn))
    requires RoutingOk(s) && i in s.turns && Touches(s.routing, next.0, i) && Local(next.0, i, next.1)
    ensures RoutingOk(Put(s, i, next))
  {
  }

  /** A step of turn `i` that only touches what is its own keeps the whole invariant. */
  lemma OneTurnStep(s: System, i: nat, next: (Routing, Turn))
    requires Inv(s) && i in s.turns
    requires Touches(s.routing, next.0, i) && Local(next.0, i, next.1)
    ensures Inv(Put(s, i, next))
  {
    var (r, r') := (s.routing, next.0);
    var s' := Put(s, i, next);
    RoutingStaysOk(s, i, next);
    forall j | j in s'.turns
      ensures TurnOk(r', j, s'.turns[j])
    {
      if j != i {
        OtherTurnStays(r, r', i, j, s.turns[j]);
      }
    }
    forall k | k in r'.parked
      ensures r'.parked[k] in s'.turns && s'.turns[r'.parked[k]].parking.ticket == Some(k)
    {
      TicketsStay(s, i, next, k);
    }
    forall j | j in s'.requests
      ensures RequestOk(r', s'.running, j, s'.requests[j])
    {
      RequestStays(r, r', s.running, i, j, s.requests[j]);
    }
    forall n | n in s'.running && Plain(n) !in r'.abandoned
      ensures exists j :: j in s'.requests && OwnCall(s', j, n)
    {
      var j :| j in s.requests && OwnCall(s, j, n);
      assert OwnCall(s', j, n);
    }
  }

  lemma UnparkTouches(r: Routing, i: nat, t: Turn)
    requires Local(r, i, t)
    ensures Touches(r, UnparkRouting(r, t), i)
    ensures forall k :: k in UnparkRouting(r, t).parked ==> UnparkRouting(r, t).parked[k] != i
  {
    if t.parking.ticket.Some? {
      FewerEntries(r.parked, {t.parking.ticket.value});
    }
  }

  lemma EndKeepsTurn(r: Routing, i: nat, t: Turn)
    requires TurnKeeps(t)
    ensures if t.live then TurnKeeps(LegCancelled(r, i, t).1) else TurnKeeps(End(r, i, t).1)
  {
    AnsweringKeeps(t.asks, t.asks.pending.Keys, ClientGone);
  }

  lemma EndIsLocal(r: Routing, i: nat, t: Turn)
    requires Local(r, i, t)
    ensures var (r', t') := if t.live then LegCancelled(r, i, t) else End(r, i, t);
            Touches(r, r', i) && Local(r', i, t')
  {
    UnparkTouches(r, i, t);
    EndKeepsTurn(r, i, t);
  }

  /** `_release`, once the run is done or marked abandoned. */
  lemma ReleaseIsLocal(r: Routing, i: nat, t: Turn, t0: Turn)
    requires Local(r, i, t0) && TurnKeeps(t) && (r.serialized ==> t.task.runDone || Run(i) in r.abandoned)
    requires t.(task := t.task.(callbackRan := t0.task.callbackRan, drain := t0.task.drain)) == t0
    ensures var (r', t') := Release(r, i, t); Touches(r, r', i) && Local(r', i, t')
  {
  }

  lemma LegRefusesKeeps(t: Turn, answer: Answer)
    requires TurnKeeps(t) && t.live
    ensures TurnKeeps(LegRefuses(t, answer))
  {
    AnsweringKeeps(t.asks, Unsent(t.asks).Keys, answer);
  }

  lemma LegParksIsLocal(r: Routing, i: nat, t: Turn, ticket: Ticket)
    requires Local(r, i, t) && t.live && !r.rebuilt && ticket !in r.parked && |r.parked| < MAX_PARKED_TURNS
    ensures var r' := r.(parked := r.parked[ticket := i]); Touches(r, r', i) && Local(r', i, LegParks(t, ticket))
  {
    OneMoreParked(r.parked, ticket, i);
  }

  /** A step that leaves the routing, the parking and the upstream call of a turn alone. */
  lemma QuietIsLocal(r: Routing, i: nat, t: Turn, u: Turn)
    requires Local(r, i, t) && TurnKeeps(u)
    requires u.parking == t.parking && u.task == t.task
    requires u.closed == t.closed && u.caller == t.caller && u.holding == t.holding
    ensures Local(r, i, u) && Touches(r, r, i)
  {
  }

  lemma LegWakesIsLocal(r: Routing, i: nat, t: Turn, ticket: Ticket)
    requires Local(r, i, t) && t.live && ticket !in r.parked
    ensures var (r', t', _) := LegWakes(r, i, t, ticket); Touches(r, r', i) && Local(r', i, t')
  {
    if !t.task.runDone && Unsent(t.asks) != map[] && !r.rebuilt && |r.parked| < MAX_PARKED_TURNS {
      LegParksIsLocal(r, i, t, ticket);
    } else {
      LegRefusesKeeps(t, GroupRebuilt);
      LegRefusesKeeps(t, TooManyTurnsWaiting);
      QuietIsLocal(r, i, t, LegWakes(r, i, t, ticket).1);
    }
  }

  lemma OneMoreParked(parked: map<Ticket, nat>, ticket: Ticket, i: nat)
    requires ticket !in parked
    ensures |parked[ticket := i]| == |parked| + 1
  {
    assert parked[ticket := i].Keys == parked.Keys + {ticket};
    assert |parked.Keys + {ticket}| == |parked.Keys| + 1;
  }

  lemma ResumeKeepsTurn(r: Routing, i: nat, t: Turn, caller: Option<Caller>, responses: map<Key, Response>)
    requires TurnKeeps(t) && t.parking.ticket.Some?
    ensures TurnKeeps(Resume(r, i, t, caller, responses).1)
  {
    FewerEntries(t.asks.pending, t.asks.sent);
  }

  lemma ResumeIsLocal(r: Routing, i: nat, t: Turn, caller: Option<Caller>, responses: map<Key, Response>)
    requires Local(r, i, t) && t.parking.ticket.Some?
    ensures var (r', t') := Resume(r, i, t, caller, responses); Touches(r, r', i) && Local(r', i, t')
  {
    UnparkTouches(r, i, t);
    ResumeKeepsTurn(r, i, t, caller, responses);
  }

  lemma AskKeepsTurn(t: Turn, kind: Kind, capable: bool)
    requires TurnKeeps(t)
    ensures TurnKeeps(Ask(t, kind, capable).0)
  {
    assert t.asks.nextKey !in t.asks.pending;
    OneMorePending(t.asks.pending, t.asks.nextKey, kind);
  }

  lemma OneMorePending(pending: map<Key, Kind>, key: Key, kind: Kind)
    requires key !in pending
    ensures |pending[key := kind]| == |pending| + 1
  {
    assert pending[key := kind].Keys == pending.Keys + {key};
    assert |pending.Keys + {key}| == |pending.Keys| + 1;
  }

  lemma AskIsLocal(r: Routing, i: nat, t: Turn, kind: Kind, capable: bool)
    requires Local(r, i, t)
    ensures Local(r, i, Ask(t, kind, capable).0)
  {
    AskKeepsTurn(t, kind, capable);
    QuietIsLocal(r, i, t, Ask(t, kind, capable).0);
  }

  lemma WithdrawIsLocal(r: Routing, i: nat, t: Turn, key: Key)
    requires Local(r, i, t)
    ensures Local(r, i, Withdraw(t, key))
  {
    FewerEntries(t.asks.pending, {key});
  }

  lemma LegStepKeeps(s: System, i: nat, ticket: Ticket)
    requires Inv(s) && Enabled(s, LegWakesUp(i, ticket))
    ensures Inv(Step(s, LegWakesUp(i, ticket)))
  {
    InvIsLocal(s, i);
    LegWakesIsLocal(s.routing, i, s.turns[i], ticket);
    var (r', t', _) := LegWakes(s.routing, i, s.turns[i], ticket);
    OneTurnStep(s, i, (r', t'));
  }

  lemma EndStepKeeps(s: System, e: Event)
    requires Inv(s) && Enabled(s, e) && (e.LegIsCancelled? || e.TurnExpires?)
    ensures Inv(Step(s, e))
  {
    var (r, t) := (s.routing, s.turns[e.id]);
    InvIsLocal(s, e.id);
    EndIsLocal(r, e.id, t);
    OneTurnStep(s, e.id, if t.live then LegCancelled(r, e.id, t) else End(r, e.id, t));
  }

  /** An abandoned call is a turn's own business. */
  lemma AbandonIsLocal(r: Routing, i: nat, t: Turn)
    requires Local(r, i, t)
    ensures Local(r.(abandoned := r.abandoned + {Run(i)}), i, t)
  {
  }

  lemma TouchesAfterAbandon(r: Routing, r': Routing, i: nat)
    requires Touches(r.(abandoned := r.abandoned + {Run(i)}), r', i)
    ensures Touches(r, r', i)
  {
  }

  lemma DrainOverIsLocal(r: Routing, i: nat, t: Turn)
    requires Local(r, i, t) && t.task.runDone
    ensures Touches(r, r, i) && Local(r, i, DrainOver(t))
  {
  }

  lemma DrainedIsLocal(r: Routing, i: nat, t: Turn)
    requires Local(r, i, t)
    ensures var (r', t') := Drained(r, i, t); Touches(r, r', i) && Local(r', i, t')
  {
    if t.task.runDone {
      DrainOverIsLocal(r, i, t);
    } else {
      var r0 := r.(abandoned := r.abandoned + {Run(i)});
      AbandonIsLocal(r, i, t);
      ReleaseIsLocal(r0, i, DrainOver(t), t);
      TouchesAfterAbandon(r, Release(r0, i, DrainOver(t)).0, i);
    }
  }

  lemma FinishedIsLocal(r: Routing, i: nat, t: Turn)
    requires Local(r, i, t) && t.task.runDone
    ensures var (r', t') := Finished(r, i, t); Touches(r, r', i) && Local(r', i, t')
  {
    ReleaseIsLocal(r, i, CallbackOver(t), t);
  }

  lemma RunStepKeeps(s: System, e: Event)
    requires Inv(s) && Enabled(s, e) && (e.DrainFires? || e.RunCallback?)
    ensures Inv(Step(s, e))
  {
    var (r, t) := (s.routing, s.turns[e.id]);
    InvIsLocal(s, e.id);
    if e.DrainFires? {
      DrainedIsLocal(r, e.id, t);
      OneTurnStep(s, e.id, Drained(r, e.id, t));
    } else {
      FinishedIsLocal(r, e.id, t);
      OneTurnStep(s, e.id, Finished(r, e.id, t));
    }
  }

  lemma RunEndIsLocal(r: Routing, i: nat, t: Turn)
    requires Local(r, i, t)
    ensures Touches(r, r, i) && Local(r, i, RunOver(t))
  {
  }

  lemma QuietStepKeeps(s: System, e: Event)
    requires Inv(s) && Enabled(s, e) && (e.RunEnds? || e.UpstreamWithdraws? || e.TurnIsAsked?)
    ensures Inv(Step(s, e))
  {
    var (r, t) := (s.routing, s.turns[e.id]);
    InvIsLocal(s, e.id);
    RunEndIsLocal(r, e.id, t);
    if e.RunEnds? {
      OneTurnStep(s, e.id, (r, RunOver(t)));
    } else if e.TurnIsAsked? {
      AskIsLocal(r, e.id, t, e.kind, e.capable);
      OneTurnStep(s, e.id, (r, Ask(t, e.kind, e.capable).0));
    } else {
      WithdrawIsLocal(r, e.id, t, e.key);
      OneTurnStep(s, e.id, (r, Withdraw(t, e.key)));
    }
  }

  lemma ParkedStepKeeps(s: System, e: Event)
    requires Inv(s) && Enabled(s, e) && (e.CallerRetries? || e.MemberLeft?)
    ensures Inv(Step(s, e))
  {
    var r := s.routing;
    var i := r.parked[e.ticket];
    var t := s.turns[i];
    InvIsLocal(s, i);
    match e
    case CallerRetries(_, caller, responses) =>
      ResumeIsLocal(r, i, t, caller, responses);
      OneTurnStep(s, i, Resume(r, i, t, caller, responses));
    case MemberLeft(_) =>
      EndIsLocal(r, i, t);
      OneTurnStep(s, i, End(r, i, t));
  }

  lemma AskKeeps(s: System, kind: Kind, capable: bool)
    requires Inv(s)
    ensures Inv(Deliver(s, kind, capable).0)
  {
    var r := s.routing;
    if r.abandoned == {} && r.caller.Some? && r.turn.Some? {
      var i := r.turn.value;
      var next := (r, Ask(s.turns[i], kind, capable).0);
      InvIsLocal(s, i);
      AskIsLocal(r, i, s.turns[i], kind, capable);
      OneTurnStep(s, i, next);
      assert Put(s, i, next) == Deliver(s, kind, capable).0;
    }
  }

  // ---------------------------------------------------------------- the other steps

  /** What holds of the turns and the parked table holds after a step that leaves them alone. */
  lemma TurnsUntouched(s: System, s': System)
    requires Inv(s) && forall j :: j in s.turns ==> j in s'.turns && s'.turns[j] == s.turns[j]
    requires var (r, r') := (s.routing, s'.routing);
             && r'.serialized == r.serialized && r'.parked == r.parked && r'.turn == r.turn
             && (r.turn.Some? ==> r'.caller == r.caller)
             && (forall j :: j in s.turns ==> (r.lock == Some(OfTurn(j)) <==> r'.lock == Some(OfTurn(j))))
             && (forall j :: j in s.turns && !s.turns[j].task.runDone && Run(j) in r.abandoned ==> Run(j) in r'.abandoned)
    ensures forall j :: j in s.turns ==> TurnOk(s'.routing, j, s'.turns[j])
    ensures forall k :: k in s'.routing.parked ==>
              s'.routing.parked[k] in s'.turns && s'.turns[s'.routing.parked[k]].parking.ticket == Some(k)
  {
    forall j | j in s.turns
      ensures TurnOk(s'.routing, j, s'.turns[j])
    {
      assert TurnOk(s.routing, j, s.turns[j]);
    }
  }

  /** A running call's owner stays its owner. */
  ghost predicate CallsOwned(s: System) {
    forall n :: n in s.running ==> Plain(n) in s.routing.abandoned || exists i :: i in s.requests && OwnCall(s, i, n)
  }

  lemma NobodyIsActive(s: System)
    requires Inv(s) && s.routing.lock.None?
    ensures forall j :: j in s.requests ==> s.requests[j].over
    ensures forall n :: n in s.running ==> Plain(n) in s.routing.abandoned
  {
    forall j | j in s.requests
      ensures s.requests[j].over
    {
      assert RequestOk(s.routing, s.running, j, s.requests[j]);
    }
  }

  /** A request that left is no concern of whoever takes the lock next. */
  lemma OverStaysOk(r: Routing, r': Routing, running: set<nat>, j: nat, q: Request)
    requires RequestOk(r, running, j, q) && q.over && r'.lock != Some(OfRequest(j)) && r.abandoned <= r'.abandoned
    ensures RequestOk(r', running, j, q)
  {
  }

  lemma IdleTurnStays(r: Routing, r': Routing, j: nat, t: Turn)
    requires TurnOk(r, j, t) && r.lock.None? && r.turn.None?
    requires r'.serialized == r.serialized && r'.parked == r.parked && r'.abandoned == r.abandoned
    requires r.serialized ==> r'.lock != Some(OfTurn(j)) && r'.turn != Some(j)
    ensures TurnOk(r', j, t)
  {
  }

  lemma NewTurnIsOk(r: Routing, i: nat, caller: Option<Caller>, holding: bool)
    requires r.serialized ==> !holding
    ensures TurnOk(if r.serialized then Lock(r, OfTurn(i), caller, Some(i)) else r, i, NewTurn(holding, caller))
  {
  }

  lemma TurnStartKeeps(s: System, e: Event)
    requires Inv(s) && Enabled(s, e) && e.TurnStarts?
    ensures Inv(Step(s, e))
  {
    var s' := Step(s, e);
    var (r, r') := (s.routing, s'.routing);
    if !r.serialized {
      UnserializedStartKeeps(s, e);
    } else {
      NobodyIsActive(s);
      forall j | j in s'.turns
        ensures TurnOk(r', j, s'.turns[j])
      {
        if j == e.id {
          NewTurnIsOk(r, e.id, e.caller, e.holding);
        } else {
          IdleTurnStays(r, r', j, s.turns[j]);
        }
      }
      forall j | j in s'.requests
        ensures RequestOk(r', s'.running, j, s'.requests[j])
      {
        OverStaysOk(r, r', s.running, j, s.requests[j]);
      }
    }
  }

  lemma UnserializedStartKeeps(s: System, e: Event)
    requires Inv(s) && Enabled(s, e) && e.TurnStarts? && !s.routing.serialized
    ensures Inv(Step(s, e))
  {
    NewTurnIsOk(s.routing, e.id, e.caller, e.holding);
  }

  lemma RequestStartKeeps(s: System, e: Event)
    requires Inv(s) && Enabled(s, e) && e.RequestStarts?
    ensures Inv(Step(s, e))
  {
    var s' := Step(s, e);
    var (r, r') := (s.routing, s'.routing);
    NobodyIsActive(s);
    forall j | j in s'.turns
      ensures TurnOk(r', j, s'.turns[j])
    {
      IdleTurnStays(r, r', j, s.turns[j]);
    }
    forall j | j in s'.requests
      ensures RequestOk(r', s'.running, j, s'.requests[j])
    {
      if j != e.id {
        OverStaysOk(r, r', s.running, j, s.requests[j]);
      }
    }
  }

  lemma OnlyTheHolderIsActive(s: System, i: nat)
    requires Inv(s) && Active(s, i)
    ensures s.routing.serialized && s.routing.lock == Some(OfRequest(i)) && s.routing.turn.None?
    ensures RequestOk(s.routing, s.running, i, s.requests[i])
    ensures forall j :: j in s.requests && j != i ==> s.requests[j].over
    ensures forall n :: n in s.running ==> Plain(n) in s.routing.abandoned || s.requests[i].call == Some(n)
  {
    assert RequestOk(s.routing, s.running, i, s.requests[i]);
    forall j | j in s.requests && j != i
      ensures s.requests[j].over
    {
      assert RequestOk(s.routing, s.running, j, s.requests[j]);
    }
  }

  /** A request leaves when every call of its own is finished or abandoned: `running` and
      `abandoned` are what they are by then. */
  lemma LeaveKeeps(s: System, i: nat, running: set<nat>, abandoned: set<Call>)
    requires Inv(s) && Active(s, i) && running <= s.running && s.routing.abandoned <= abandoned
    requires forall n :: n in running ==> Plain(n) in abandoned
    ensures Inv(Leave(s.(running := running, routing := s.routing.(abandoned := abandoned)), i))
  {
    OnlyTheHolderIsActive(s, i);
    var s' := Leave(s.(running := running, routing := s.routing.(abandoned := abandoned)), i);
    TurnsUntouched(s, s');
    forall j | j in s'.requests
      ensures RequestOk(s'.routing, s'.running, j, s'.requests[j])
    {
      assert RequestOk(s.routing, s.running, j, s.requests[j]);
    }
  }

  lemma LeavingKeeps(s: System, e: Event)
    requires Enabled(s, e)
    requires e.RequestDrainEnds? || e.RequestFails? || e.RequestLeaves? || (e.RequestCancelled? && s.requests[e.id].caller.None?)
    requires Inv(s)
    ensures Inv(Step(s, e))
  {
    var i := e.id;
    OnlyTheHolderIsActive(s, i);
    var q := s.requests[i];
    if e.RequestDrainEnds? && CallIsRunning(s, i) {
      LeaveKeeps(s, i, s.running, s.routing.abandoned + {Plain(q.call.value)});
    } else if e.RequestDrainEnds? || e.RequestLeaves? {
      LeaveKeeps(s, i, s.running, s.routing.abandoned);
    } else {
      LeaveKeeps(s, i, s.running - {q.call.value}, s.routing.abandoned);
    }
  }

  lemma HoldingKeeps(s: System, e: Event)
    requires Enabled(s, e)
    requires e.CallStarts? || e.CallReturns? || (e.RequestCancelled? && s.requests[e.id].caller.Some?)
    requires Inv(s)
    ensures Inv(Step(s, e))
  {
    var (i, s') := (e.id, Step(s, e));
    OnlyTheHolderIsActive(s, i);
    TurnsUntouched(s, s');
    forall j | j in s'.requests
      ensures RequestOk(s'.routing, s'.running, j, s'.requests[j])
    {
      if j != i {
        OtherRequestStays(s, s', i, j, e);
      }
    }
    assert CallsOwned(s') by {
      forall n | n in s'.running && Plain(n) !in s'.routing.abandoned
        ensures exists j :: j in s'.requests && OwnCall(s', j, n)
      {
        assert OwnCall(s', i, n);
      }
    }
  }

  /** Another request has left; a call that starts is none it ever made. */
  lemma OtherRequestStays(s: System, s': System, i: nat, j: nat, e: Event)
    requires Enabled(s, e) && (e.CallStarts? || e.CallReturns? || e.RequestCancelled?) && e.id == i
    requires j in s.requests && j != i && s.requests[j].over && RequestOk(s.routing, s.running, j, s.requests[j])
    requires j in s'.requests && s'.requests[j] == s.requests[j] && s'.routing == s.routing.(caller := s'.routing.caller)
    requires s'.running == if e.CallStarts? then s.running + {e.call} else s.running
    ensures RequestOk(s'.routing, s'.running, j, s'.requests[j])
  {
  }

  /** Calls end and finished ones are forgotten; nobody's request or turn changes. */
  lemma CallbackFits(s: System, s': System)
    requires Inv(s) && s'.turns == s.turns && s'.requests == s.requests && s'.running <= s.running
    requires s'.routing.(abandoned := {}, rebuilt := false) == s.routing.(abandoned := {}, rebuilt := false)
    requires s'.routing.rebuilt == s.routing.rebuilt || (!s.routing.serialized && s.routing.parked == map[])
    requires forall call :: call in s.routing.abandoned && Unfinished(s', call) ==> call in s'.routing.abandoned
    ensures Inv(s')
  {
    assert forall j :: j in s.turns && !s.turns[j].task.runDone ==> Unfinished(s', Run(j));
    TurnsUntouched(s, s');
    forall j | j in s'.requests
      ensures RequestOk(s'.routing, s'.running, j, s'.requests[j])
    {
      var q := s.requests[j];
      assert RequestOk(s.routing, s.running, j, q);
      assert q.call.Some? && q.call.value in s'.running ==> Unfinished(s', Plain(q.call.value));
    }
    assert CallsOwned(s') by {
      forall n | n in s'.running && Plain(n) !in s'.routing.abandoned
        ensures exists j :: j in s'.requests && OwnCall(s', j, n)
      {
        assert Unfinished(s', Plain(n));
        var j :| j in s.requests && OwnCall(s, j, n);
        assert OwnCall(s', j, n);
      }
    }
  }

  lemma CallbackKeeps(s: System, e: Event)
    requires Inv(s) && Enabled(s, e) && (e.CallEnds? || e.AbandonedCallback? || e.TableReplaced?)
    ensures Inv(Step(s, e))
  {
    CallbackFits(s, Step(s, e));
  }

  // ---------------------------------------------------------------- every step, every run

  lemma TurnEventKeeps(s: System, e: Event)
    requires Inv(s) && Enabled(s, e)
    requires e.TurnStarts? || e.LegWakesUp? || e.LegIsCancelled? || e.TurnExpires? || e.DrainFires? || e.RunCallback? ||
             e.RunEnds? || e.UpstreamWithdraws? || e.TurnIsAsked?
    ensures Inv(Step(s, e))
  {
    if e.TurnStarts? {
      TurnStartKeeps(s, e);
    } else if e.LegWakesUp? {
      LegStepKeeps(s, e.id, e.ticket);
    } else if e.LegIsCancelled? || e.TurnExpires? {
      EndStepKeeps(s, e);
    } else if e.DrainFires? || e.RunCallback? {
      RunStepKeeps(s, e);
    } else {
      QuietStepKeeps(s, e);
    }
  }

  lemma RequestEventKeeps(s: System, e: Event)
    requires Inv(s) && Enabled(s, e)
    requires e.RequestStarts? || e.CallStarts? || e.CallReturns? || e.RequestCancelled? || e.RequestDrainEnds? ||
             e.RequestFails? || e.RequestLeaves?
    ensures Inv(Step(s, e))
  {
    if e.RequestStarts? {
      RequestStartKeeps(s, e);
    } else if e.CallStarts? || e.CallReturns? || (e.RequestCancelled? && s.requests[e.id].caller.Some?) {
      HoldingKeeps(s, e);
    } else {
      LeavingKeeps(s, e);
    }
  }

  lemma StepKeeps(s: System, e: Event)
    requires Inv(s)
    ensures Inv(Step(s, e))
  {
    if Enabled(s, e) {
      if e.CallerRetries? || e.MemberLeft? {
        ParkedStepKeeps(s, e);
      } else if e.ChildAsks? {
        AskKeeps(s, e.kind, e.capable);
      } else if e.CallEnds? || e.AbandonedCallback? || e.TableReplaced? {
        CallbackKeeps(s, e);
      } else if e.RequestStarts? || e.CallStarts? || e.CallReturns? || e.RequestCancelled? || e.RequestDrainEnds? ||
                e.RequestFails? || e.RequestLeaves? {
        RequestEventKeeps(s, e);
      } else {
        TurnEventKeeps(s, e);
      }
    }
  }

  lemma {:induction false} EveryRunKeeps(s: System, events: seq<Event>)
    requires Inv(s)
    ensures Inv(RunAll(s, events))
    decreases |events|
  {
    if events != [] {
      StepKeeps(s, events[0]);
      EveryRunKeeps(Step(s, events[0]), events[1..]);
    }
  }

  lemma InitHolds(serialized: bool)
    ensures Inv(Init(serialized))
  {
  }
}
