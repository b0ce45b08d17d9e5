/**
 What each step of the bridge does, told from the outside: which of the upstream's requests it
 answers and how, what it leaves waiting, and what becomes of the lock, the slots and the parked
 table. Nothing here is stated through the functions the steps are made of.
 */
module BridgeEffects {
  import opened Basics
  import opened TurnProtocol
  import opened BridgeSystem
  import opened BridgeInvariant

  // ---------------------------------------------------------------- what may stay as it was

  /** Only turn `i` and the routing moved. */
  ghost predicate OnlyTurn(s: System, s': System, i: nat) {
    && i in s.turns && s'.turns.Keys == s.turns.Keys && s'.requests == s.requests && s'.running == s.running
    && forall j :: j in s.turns && j != i ==> s'.turns[j] == s.turns[j]
  }

  lemma PutIsOnly(s: System, i: nat, next: (Routing, Turn))
    requires i in s.turns
    ensures OnlyTurn(s, Put(s, i, next), i) && Put(s, i, next).routing == next.0 && Put(s, i, next).turns[i] == next.1
  {
  }

  /** The upstream's request `k` stands as it did. */
  predicate AsBefore(a: Asks, a': Asks, k: Key) {
    && (k in a'.pending <==> k in a.pending) && (k in a.pending ==> a'.pending[k] == a.pending[k])
    && (k in a'.answered <==> k in a.answered) && (k in a.answered ==> a'.answered[k] == a.answered[k])
  }

  predicate Gets(a': Asks, k: Key, answer: Answer) {
    k !in a'.pending && k in a'.answered && a'.answered[k] == answer
  }

  /** Exactly `keys` are answered, all alike. */
  ghost predicate Tells(a: Asks, a': Asks, keys: set<Key>, answer: Answer) {
    && (forall k :: k in keys ==> Gets(a', k, answer))
    && (forall k :: k !in keys ==> AsBefore(a, a', k))
    && a'.sent == a.sent && a'.nextKey == a.nextKey
  }

  lemma ToldIsTells(a: Asks, keys: set<Key>, answer: Answer)
    requires keys <= a.pending.Keys && a.pending.Keys !! a.answered.Keys
    ensures Tells(a, Told(a, keys, answer), keys, answer)
  {
  }

  /** The turn is in no table, its timer is off, and the members it held are let go. */
  predicate LetGo(p: Parking, p': Parking) {
    p'.ticket.None? && !p'.expiry && !p'.held && p'.holds == p.holds == p'.lets
  }

  /** The entry of turn `i` is out of the parked table, and no other. */
  ghost predicate TakenOut(parked: map<Ticket, nat>, parked': map<Ticket, nat>, i: nat) {
    forall k :: (k in parked' <==> k in parked && parked[k] != i) && (k in parked' ==> parked'[k] == parked[k])
  }

  lemma UnparkingTakesOut(r: Routing, i: nat, t: Turn)
    requires Local(r, i, t)
    ensures TakenOut(r.parked, UnparkRouting(r, t).parked, i) && LetGo(t.parking, Unparked(t.parking))
    ensures UnparkRouting(r, t) == r.(parked := UnparkRouting(r, t).parked)
  {
  }

  // ---------------------------------------------------------------- the caller's retry

  /** The answer a retry has for a request it was handed. */
  predicate RightAnswer(kind: Kind, responses: map<Key, Response>, k: Key, answer: Answer) {
    match answer
    case FromClient(x) => k in responses && responses[k] == Response(kind, x)
    case NoValidAnswer => k !in responses || responses[k].kind != kind
    case _ => false
  }

  predicate RightlyTold(a: Asks, a': Asks, responses: map<Key, Response>, k: Key)
    requires k in a.pending
  {
    k !in a'.pending && k in a'.answered && RightAnswer(a.pending[k], responses, k, a'.answered[k])
  }

  /** Each request that was handed out has its right answer, and no other moved. */
  ghost predicate Settles(a: Asks, a': Asks, responses: map<Key, Response>) {
    && (forall k :: k in a.sent && k in a.pending ==> RightlyTold(a, a', responses, k))
    && (forall k :: !(k in a.sent && k in a.pending) ==> AsBefore(a, a', k))
    && a'.sent == {} && a'.nextKey == a.nextKey
  }

  ghost predicate Retried(
      r: Routing, i: nat, t: Turn, caller: Option<Caller>, responses: map<Key, Response>, r': Routing, t': Turn)
  {
    && Settles(t.asks, t'.asks, responses) && LetGo(t.parking, t'.parking) && TakenOut(r.parked, r'.parked, i)
    && t'.live && !t'.closed && t'.caller == caller && t'.task == t.task && t'.holding == t.holding
    && r' == r.(parked := r'.parked, caller := if r.turn == Some(i) then caller else r.caller)
  }

  lemma OneSettled(a: Asks, responses: map<Key, Response>, k: Key)
    requires a.pending.Keys !! a.answered.Keys
    ensures k in a.sent && k in a.pending ==> RightlyTold(a, SentTold(a, responses), responses, k)
    ensures !(k in a.sent && k in a.pending) ==> AsBefore(a, SentTold(a, responses), k)
  {
  }

  lemma EachSettled(a: Asks, responses: map<Key, Response>)
    requires a.pending.Keys !! a.answered.Keys
    ensures Settles(a, SentTold(a, responses), responses)
  {
    forall k
      ensures k in a.sent && k in a.pending ==> RightlyTold(a, SentTold(a, responses), responses, k)
      ensures !(k in a.sent && k in a.pending) ==> AsBefore(a, SentTold(a, responses), k)
    {
      OneSettled(a, responses, k);
    }
  }

  lemma ResumeRetries(r: Routing, i: nat, t: Turn, caller: Option<Caller>, responses: map<Key, Response>)
    requires Local(r, i, t) && t.parking.ticket.Some? && (!r.serialized ==> r.turn.None?)
    ensures var (r', t') := Resume(r, i, t, caller, responses); Retried(r, i, t, caller, responses, r', t')
  {
    EachSettled(t.asks, responses);
    UnparkingTakesOut(r, i, t);
  }

  /** A retry answers each request its caller was handed and the upstream still waits for: with what
      the client sent, if that is of the kind asked, and with a refusal otherwise. Requests it was
      not handed wait on, and the turn asks the new caller from now on. */
  lemma RetryAnswersWhatWasSent(s: System, ticket: Ticket, caller: Option<Caller>, responses: map<Key, Response>)
    requires Inv(s) && ticket in s.routing.parked
    ensures var (i, s') := (s.routing.parked[ticket], Step(s, CallerRetries(ticket, caller, responses)));
            && OnlyTurn(s, s', i)
            && Retried(s.routing, i, s.turns[i], caller, responses, s'.routing, s'.turns[i])
  {
    var i := s.routing.parked[ticket];
    InvIsLocal(s, i);
    ResumeRetries(s.routing, i, s.turns[i], caller, responses);
    PutIsOnly(s, i, Resume(s.routing, i, s.turns[i], caller, responses));
    assert Enabled(s, CallerRetries(ticket, caller, responses));
  }

  // ---------------------------------------------------------------- the end of a turn

  /** Everything that waited is told that the client is gone; a call still running on a serialised
      child keeps the lock while it drains, but nobody is asked for it any more. */
  ghost predicate Ended(r: Routing, i: nat, t: Turn, r': Routing, t': Turn) {
    && t'.closed && LetGo(t.parking, t'.parking) && TakenOut(r.parked, r'.parked, i)
    && (if t.closed then t'.asks == t.asks else Tells(t.asks, t'.asks, t.asks.pending.Keys, ClientGone))
    && t'.caller == t.caller && t'.asked == t.asked && t'.holding == t.holding
    && var drains := !t.closed && !t.task.runDone && r.serialized;
       && t'.task == t.task.(drain := t.task.drain || drains)
       && r' == (if drains && r.turn == Some(i) then r.(parked := r'.parked, caller := None, turn := None)
                 else r.(parked := r'.parked))
  }

  lemma EndIsEnded(r: Routing, i: nat, t: Turn)
    requires Local(r, i, t)
    ensures var (r', t') := End(r, i, t); Ended(r, i, t, r', t') && t'.live == t.live
  {
    ToldIsTells(t.asks, t.asks.pending.Keys, ClientGone);
    UnparkingTakesOut(r, i, t);
  }

  lemma CancelIsEnded(r: Routing, i: nat, t: Turn)
    requires Local(r, i, t)
    ensures var (r', t') := LegCancelled(r, i, t); Ended(r, i, t, r', t') && !t'.live
  {
    ToldIsTells(t.asks, t.asks.pending.Keys, ClientGone);
    UnparkingTakesOut(r, i, t);
  }

  lemma CancelledLegEndsTheTurn(s: System, i: nat)
    requires Inv(s) && i in s.turns && s.turns[i].live
    ensures var s' := Step(s, LegIsCancelled(i));
            OnlyTurn(s, s', i) && Ended(s.routing, i, s.turns[i], s'.routing, s'.turns[i]) && !s'.turns[i].live
  {
    InvIsLocal(s, i);
    CancelEnds(s, i);
  }

  lemma CancelEnds(s: System, i: nat)
    requires i in s.turns && Local(s.routing, i, s.turns[i]) && s.turns[i].live
    ensures var s' := Step(s, LegIsCancelled(i));
            OnlyTurn(s, s', i) && Ended(s.routing, i, s.turns[i], s'.routing, s'.turns[i]) && !s'.turns[i].live
  {
    CancelIsEnded(s.routing, i, s.turns[i]);
    PutIsOnly(s, i, LegCancelled(s.routing, i, s.turns[i]));
  }

  lemma OverdueRetryEndsTheTurn(s: System, i: nat)
    requires Inv(s) && i in s.turns && s.turns[i].parking.ticket.Some?
    ensures var s' := Step(s, TurnExpires(i));
            OnlyTurn(s, s', i) && Ended(s.routing, i, s.turns[i], s'.routing, s'.turns[i]) && !s'.turns[i].live
  {
    InvIsLocal(s, i);
    ExpiryEnds(s, i);
  }

  lemma ExpiryEnds(s: System, i: nat)
    requires i in s.turns && Local(s.routing, i, s.turns[i]) && s.turns[i].parking.expiry
    ensures var s' := Step(s, TurnExpires(i));
            OnlyTurn(s, s', i) && Ended(s.routing, i, s.turns[i], s'.routing, s'.turns[i]) && !s'.turns[i].live
  {
    EndIsEnded(s.routing, i, s.turns[i]);
    PutIsOnly(s, i, End(s.routing, i, s.turns[i]));
  }

  lemma LostMemberEndsTheTurn(s: System, ticket: Ticket)
    requires Inv(s) && !s.routing.serialized && ticket in s.routing.parked
    ensures var (i, s') := (s.routing.parked[ticket], Step(s, MemberLeft(ticket)));
            OnlyTurn(s, s', i) && Ended(s.routing, i, s.turns[i], s'.routing, s'.turns[i]) && !s'.turns[i].live
  {
    var i := s.routing.parked[ticket];
    InvIsLocal(s, i);
    EndIsEnded(s.routing, i, s.turns[i]);
    PutIsOnly(s, i, End(s.routing, i, s.turns[i]));
    assert Enabled(s, MemberLeft(ticket));
  }

  // ---------------------------------------------------------------- a leg's wake-up

  /** What waits and was handed to nobody. */
  function New(a: Asks): set<Key> {
    set k | k in a.pending && k !in a.sent
  }

  /** A finished run's leg returns, and one woken for nothing waits on. Otherwise what is new goes to
      the caller, and the turn is parked with it under the ticket; or it is refused, where the table
      was replaced or is full, and the leg waits on. */
  ghost predicate Woken(r: Routing, i: nat, t: Turn, ticket: Ticket, r': Routing, t': Turn) {
    if t.task.runDone then r' == r && t' == t.(live := false)
    else if New(t.asks) == {} then r' == r && t' == t.(asked := false)
    else if r.rebuilt || |r.parked| >= 256 then
      && r' == r && t' == t.(asked := false, asks := t'.asks)
      && Tells(t.asks, t'.asks, New(t.asks), if r.rebuilt then GroupRebuilt else TooManyTurnsWaiting)
    else
      && r' == r.(parked := r.parked[ticket := i])
      && t'.asks == t.asks.(sent := t.asks.sent + t.asks.pending.Keys)
      && t'.parking == Parking(Some(ticket), true, t.holding, t.parking.holds + (if t.holding then 1 else 0), t.parking.lets)
      && t' == t.(asked := false, live := false, asks := t'.asks, parking := t'.parking)
  }

  /** What the leg tells its caller. */
  ghost predicate Reports(r: Routing, t: Turn, outcome: LegOutcome) {
    match outcome
    case Returns => t.task.runDone
    case Waits => !t.task.runDone && (New(t.asks) == {} || r.rebuilt || |r.parked| >= 256)
    case Parks(requests) =>
      && !t.task.runDone && requests != map[] && !r.rebuilt && |r.parked| < 256
      && forall k :: (k in requests <==> k in t.asks.pending && k !in t.asks.sent) &&
                     (k in requests ==> requests[k] == t.asks.pending[k])
  }

  lemma UnsentIsNew(a: Asks)
    ensures Unsent(a).Keys == New(a) && (Unsent(a) == map[] <==> New(a) == {})
  {
    assert Unsent(a).Keys == New(a);
    if New(a) == {} {
      assert Unsent(a).Keys == {};
    }
  }

  lemma RefusalTellsTheNew(t: Turn, answer: Answer)
    requires t.asks.pending.Keys !! t.asks.answered.Keys
    ensures var t' := LegRefuses(t, answer);
            t' == t.(asked := false, asks := t'.asks) && Tells(t.asks, t'.asks, New(t.asks), answer)
  {
    UnsentIsNew(t.asks);
    ToldIsTells(t.asks, New(t.asks), answer);
  }

  lemma ParkingSendsTheNew(t: Turn, ticket: Ticket)
    ensures LegParks(t, ticket).asks == t.asks.(sent := t.asks.sent + t.asks.pending.Keys)
  {
    UnsentIsNew(t.asks);
    assert t.asks.sent + New(t.asks) == t.asks.sent + t.asks.pending.Keys;
  }

  lemma WakeIsWoken(r: Routing, i: nat, t: Turn, ticket: Ticket)
    requires t.asks.pending.Keys !! t.asks.answered.Keys
    ensures var (r', t', _) := LegWakes(r, i, t, ticket); Woken(r, i, t, ticket, r', t')
  {
    UnsentIsNew(t.asks);
    if !t.task.runDone && New(t.asks) != {} {
      if r.rebuilt || |r.parked| >= 256 {
        RefusalTellsTheNew(t, if r.rebuilt then GroupRebuilt else TooManyTurnsWaiting);
      } else {
        ParkingSendsTheNew(t, ticket);
      }
    }
  }

  /** A leg hands its caller exactly the upstream's requests nobody was handed yet, each as it was
      asked, and says so exactly when the turn parks. */
  lemma LegHandsOutWhatIsNew(r: Routing, i: nat, t: Turn, ticket: Ticket)
    ensures Reports(r, t, LegWakes(r, i, t, ticket).2)
  {
    UnsentIsNew(t.asks);
  }

  lemma WokenLegParksOrWaits(s: System, i: nat, ticket: Ticket)
    requires Inv(s) && i in s.turns && s.turns[i].live && (s.turns[i].asked || s.turns[i].task.runDone)
    requires ticket !in s.routing.parked
    ensures var s' := Step(s, LegWakesUp(i, ticket));
            OnlyTurn(s, s', i) && Woken(s.routing, i, s.turns[i], ticket, s'.routing, s'.turns[i])
  {
    InvIsLocal(s, i);
    WakeIsWoken(s.routing, i, s.turns[i], ticket);
    var (r', t', _) := LegWakes(s.routing, i, s.turns[i], ticket);
    PutIsOnly(s, i, (r', t'));
  }

  // ---------------------------------------------------------------- the upstream asks

  predicate MayAsk(t: Turn, capable: bool) {
    !t.closed && t.caller.Some? && capable && |t.asks.pending| < 16
  }

  /** One more request waits, under a key that is nobody's, and wakes the leg. */
  ghost predicate Asked(t: Turn, kind: Kind, key: Key, t': Turn) {
    && key !in t.asks.pending && key !in t.asks.answered && key in t'.asks.pending && t'.asks.pending[key] == kind
    && (forall k :: k != key ==> AsBefore(t.asks, t'.asks, k))
    && t'.asks.sent == t.asks.sent && key < t'.asks.nextKey
    && t' == t.(asked := true, asks := t'.asks)
  }

  lemma AskIsAsked(t: Turn, kind: Kind, capable: bool)
    requires Accounted(t.asks)
    ensures var (t', key) := Ask(t, kind, capable);
            if MayAsk(t, capable) then key.Some? && Asked(t, kind, key.value, t') else key.None? && t' == t
  {
  }

  /** What became of turn `i`, which was asked, and what the asker is told. */
  ghost predicate AskedInTurn(s: System, s': System, i: nat, kind: Kind, capable: bool, key: Option<Key>) {
    && OnlyTurn(s, s', i) && s'.routing == s.routing
    && if MayAsk(s.turns[i], capable) then key.Some? && Asked(s.turns[i], kind, key.value, s'.turns[i])
       else key.None? && s'.turns[i] == s.turns[i]
  }

  lemma AskingIsAsked(s: System, i: nat, kind: Kind, capable: bool)
    requires i in s.turns && Accounted(s.turns[i].asks)
    ensures var (t, key) := Ask(s.turns[i], kind, capable); AskedInTurn(s, Put(s, i, (s.routing, t)), i, kind, capable, key)
  {
    AskIsAsked(s.turns[i], kind, capable);
    PutIsOnly(s, i, (s.routing, Ask(s.turns[i], kind, capable).0));
  }

  /** A request on a turn's own session waits for its caller, unless the turn is closed, has no
      caller or none that can answer, or has sixteen waiting. */
  lemma SessionAsksItsTurn(s: System, i: nat, kind: Kind, capable: bool) returns (key: Option<Key>)
    requires Inv(s) && !s.routing.serialized && i in s.turns && !s.turns[i].task.runDone
    ensures AskedInTurn(s, Step(s, TurnIsAsked(i, kind, capable)), i, kind, capable, key)
  {
    InvAccounts(s, i);
    key := SessionAsks(s, i, kind, capable);
  }

  lemma InvAccounts(s: System, i: nat)
    requires Inv(s) && i in s.turns
    ensures Accounted(s.turns[i].asks)
  {
    InvIsLocal(s, i);
  }

  lemma SessionAsks(s: System, i: nat, kind: Kind, capable: bool) returns (key: Option<Key>)
    requires !s.routing.serialized && i in s.turns && !s.turns[i].task.runDone && Accounted(s.turns[i].asks)
    ensures AskedInTurn(s, Step(s, TurnIsAsked(i, kind, capable)), i, kind, capable, key)
  {
    AskingIsAsked(s, i, kind, capable);
    key := Ask(s.turns[i], kind, capable).1;
  }

  /** A request of the child is asked exactly while no abandoned call runs and the slot names a
      caller that can answer it: of the turn in the slot, if it may still ask; of the request's own
      caller otherwise. */
  lemma ChildAsksTheSlot(s: System, kind: Kind, capable: bool)
    requires Inv(s)
    ensures var (s', d) := Deliver(s, kind, capable); ToTheSlot(s, s', kind, capable, d)
  {
    SlotAccounts(s);
    SlotIsAsked(s, kind, capable);
  }

  predicate SlotFit(s: System) {
    s.routing.turn.Some? ==> s.routing.turn.value in s.turns && Accounted(s.turns[s.routing.turn.value].asks)
  }

  lemma SlotAccounts(s: System)
    requires Inv(s)
    ensures SlotFit(s)
  {
    if s.routing.turn.Some? {
      InvAccounts(s, s.routing.turn.value);
    }
  }

  lemma ChildAskingDelivers(s: System, kind: Kind, capable: bool)
    ensures Step(s, ChildAsks(kind, capable)) == Deliver(s, kind, capable).0
  {
  }

  ghost predicate ToTheSlot(s: System, s': System, kind: Kind, capable: bool, d: Delivery) {
    if s.routing.abandoned != {} || s.routing.caller.None? then s' == s && d == Refused
    else if s.routing.turn.None? then s' == s && d == if capable then Forwarded(s.routing.caller.value) else Refused
    else
      && (d.Refused? || (d.HeldFor? && d.turn == s.routing.turn.value))
      && AskedInTurn(s, s', s.routing.turn.value, kind, capable, if d.HeldFor? then Some(d.key) else None)
  }

  lemma SlotIsAsked(s: System, kind: Kind, capable: bool)
    requires SlotFit(s)
    ensures var (s', d) := Deliver(s, kind, capable); ToTheSlot(s, s', kind, capable, d)
  {
    if s.routing.turn.Some? {
      AskingIsAsked(s, s.routing.turn.value, kind, capable);
    }
  }

  lemma WithdrawnRequestWaitsNoMore(s: System, i: nat, key: Key)
    requires i in s.turns
    ensures var s' := Step(s, UpstreamWithdraws(i, key));
            && OnlyTurn(s, s', i) && s'.routing == s.routing && key !in s'.turns[i].asks.pending
            && s'.turns[i].asks.answered == s.turns[i].asks.answered
            && (forall k :: k != key ==> AsBefore(s.turns[i].asks, s'.turns[i].asks, k))
            && s'.turns[i] == s.turns[i].(asks := s.turns[i].asks.(pending := s'.turns[i].asks.pending))
  {
  }

  // ---------------------------------------------------------------- the lock

  /** The routing once `h` gave the lock back: nobody is in the slots. */
  function Freed(r: Routing, h: Holder): Routing {
    r.(lock := None, caller := None, turn := None, log := r.log + [Released(h)])
  }

  /** Turn `i` is done with the child: it frees it, if it still holds it. */
  ghost predicate LeavesTheChild(r: Routing, i: nat, task: Task, r': Routing, task': Task) {
    && task'.released == (task.released || r.serialized)
    && r' == if r.serialized && !task.released then Freed(r, OfTurn(i)) else r
  }

  lemma ReleaseLeaves(r: Routing, i: nat, t: Turn)
    requires FitToRelease(r, i, t)
    ensures var (r', t') := Release(r, i, t);
            LeavesTheChild(r, i, t.task, r', t'.task) && t' == t.(task := t.task.(released := t'.task.released))
  {
  }

  predicate FitToRelease(r: Routing, i: nat, t: Turn) {
    && (r.serialized && !t.task.released ==> r.lock == Some(OfTurn(i)))
    && (r.lock == Some(OfTurn(i)) ==> r.turn == Some(i) || (r.turn.None? && r.caller.None?))
  }

  lemma InvReleases(s: System, i: nat)
    requires Inv(s) && i in s.turns
    ensures FitToRelease(s.routing, i, s.turns[i])
  {
    InvIsLocal(s, i);
  }

  /** A drain timer that finds its call still running marks it abandoned and frees the child; one that
      finds it done does nothing. */
  lemma DrainAbandonsAndFrees(s: System, i: nat)
    requires Inv(s) && i in s.turns && s.turns[i].task.drain
    ensures var s' := Step(s, DrainFires(i));
            OnlyTurn(s, s', i) && Drains(s.routing, i, s.turns[i], s'.routing, s'.turns[i])
  {
    InvReleases(s, i);
    DrainStep(s, i);
  }

  lemma DrainStep(s: System, i: nat)
    requires i in s.turns && s.turns[i].task.drain && FitToRelease(s.routing, i, s.turns[i])
    ensures var s' := Step(s, DrainFires(i));
            OnlyTurn(s, s', i) && Drains(s.routing, i, s.turns[i], s'.routing, s'.turns[i])
  {
    DrainIsDrained(s.routing, i, s.turns[i]);
    PutIsOnly(s, i, Drained(s.routing, i, s.turns[i]));
  }

  ghost predicate Drains(r: Routing, i: nat, t: Turn, r': Routing, t': Turn) {
    && t' == t.(task := t'.task) && t'.task == t.task.(drain := false, released := t'.task.released)
    && if t.task.runDone then r' == r && t'.task.released == t.task.released
       else LeavesTheChild(r.(abandoned := r.abandoned + {Run(i)}), i, t.task, r', t'.task)
  }

  lemma DrainIsDrained(r: Routing, i: nat, t: Turn)
    requires FitToRelease(r, i, t)
    ensures var (r', t') := Drained(r, i, t); Drains(r, i, t, r', t')
  {
    ReleaseLeaves(r.(abandoned := r.abandoned + {Run(i)}), i, DrainOver(t));
  }

  ghost predicate CallsBack(r: Routing, i: nat, t: Turn, r': Routing, t': Turn) {
    && t' == t.(task := t'.task) && t'.task == t.task.(callbackRan := true, released := t'.task.released)
    && LeavesTheChild(r, i, t.task, r', t'.task)
  }

  /** The done-callback of a turn's run frees the child the turn still holds. */
  lemma CallbackFrees(s: System, i: nat)
    requires Inv(s) && i in s.turns && s.turns[i].task.runDone && !s.turns[i].task.callbackRan
    ensures var s' := Step(s, RunCallback(i));
            OnlyTurn(s, s', i) && CallsBack(s.routing, i, s.turns[i], s'.routing, s'.turns[i])
  {
    InvReleases(s, i);
    CallbackStep(s, i);
  }

  lemma CallbackStep(s: System, i: nat)
    requires i in s.turns && s.turns[i].task.runDone && !s.turns[i].task.callbackRan && FitToRelease(s.routing, i, s.turns[i])
    ensures var s' := Step(s, RunCallback(i));
            OnlyTurn(s, s', i) && CallsBack(s.routing, i, s.turns[i], s'.routing, s'.turns[i])
  {
    ReleaseLeaves(s.routing, i, CallbackOver(s.turns[i]));
    PutIsOnly(s, i, Finished(s.routing, i, s.turns[i]));
  }

  lemma RunEndsAlone(s: System, i: nat)
    requires i in s.turns && !s.turns[i].task.runDone
    ensures var s' := Step(s, RunEnds(i));
            OnlyTurn(s, s', i) && s'.routing == s.routing &&
            s'.turns[i] == s.turns[i].(task := s.turns[i].task.(runDone := true))
  {
  }

  predicate Fresh(t: Turn, caller: Option<Caller>, holding: bool) {
    && t.holding == holding && t.caller == caller && t.live && !t.asked && !t.closed
    && t.asks.pending == map[] && t.asks.answered == map[] && t.asks.sent == {}
    && t.parking == Parking(None, false, false, 0, 0) && t.task == Task(false, false, false, false)
  }

  /** A turn starts open, its leg waiting and nothing asked; on a serialised child with the lock and
      both slots. */
  lemma TurnStartsFresh(s: System, i: nat, caller: Option<Caller>, holding: bool)
    requires i !in s.turns && (s.routing.serialized ==> s.routing.lock.None? && !holding)
    ensures var s' := Step(s, TurnStarts(i, caller, holding));
            && s'.turns.Keys == s.turns.Keys + {i} && (forall j :: j in s.turns ==> s'.turns[j] == s.turns[j])
            && s'.requests == s.requests && s'.running == s.running && Fresh(s'.turns[i], caller, holding)
            && s'.routing ==
               if s.routing.serialized
               then s.routing.(lock := Some(OfTurn(i)), caller := caller, turn := Some(i), log := s.routing.log + [Acquired(OfTurn(i))])
               else s.routing
  {
  }

  // ---------------------------------------------------------------- handshake-era requests

  /** Request `i` becomes `q`, and no other request, and no turn, moved. */
  ghost predicate OnlyRequest(s: System, s': System, i: nat, q: Request) {
    && s'.turns == s.turns && s'.requests == s.requests[i := q]
  }

  lemma RequestTakesTheChild(s: System, i: nat, caller: Option<Caller>)
    requires i !in s.requests && s.routing.serialized && s.routing.lock.None?
    ensures var s' := Step(s, RequestStarts(i, caller));
            && OnlyRequest(s, s', i, Request(caller, None, false, false)) && s'.running == s.running
            && s'.routing ==
               s.routing.(lock := Some(OfRequest(i)), caller := caller, turn := None,
                          log := s.routing.log + [Acquired(OfRequest(i))])
  {
  }

  lemma CallStartsAlone(s: System, i: nat, call: nat)
    requires i in s.requests && !s.requests[i].over && !s.requests[i].draining && s.requests[i].call.None?
    requires call !in s.running && Plain(call) !in s.routing.abandoned
    requires forall j :: j in s.requests ==> s.requests[j].call != Some(call)
    ensures var s' := Step(s, CallStarts(i, call));
            OnlyRequest(s, s', i, s.requests[i].(call := Some(call))) && s'.running == s.running + {call} && s'.routing == s.routing
  {
  }

  lemma CallComesBack(s: System, i: nat)
    requires i in s.requests && !s.requests[i].over && !s.requests[i].draining
    requires s.requests[i].call.Some? && s.requests[i].call.value !in s.running
    ensures var s' := Step(s, CallReturns(i));
            OnlyRequest(s, s', i, s.requests[i].(call := None)) && s'.running == s.running && s'.routing == s.routing
  {
  }

  lemma CallEndsAlone(s: System, call: nat)
    requires call in s.running
    ensures Step(s, CallEnds(call)) == s.(running := s.running - {call})
  {
  }

  /** Request `i` is at the child. */
  predicate AtTheChild(s: System, i: nat) {
    i in s.requests && !s.requests[i].over && s.routing.lock == Some(OfRequest(i)) && s.routing.turn.None?
  }

  lemma ActiveIsAtTheChild(s: System, i: nat)
    requires Inv(s) && i in s.requests && !s.requests[i].over
    ensures AtTheChild(s, i) && (s.requests[i].draining ==> s.requests[i].call.Some?)
  {
    OnlyTheHolderIsActive(s, i);
  }

  /** A cancelled request that may be asked for keeps the child while its call drains, and nobody is
      asked for it; one without a caller takes its call with it and leaves. */
  lemma CancelledRequestDrainsOrLeaves(s: System, i: nat)
    requires Inv(s) && i in s.requests && !s.requests[i].over && !s.requests[i].draining && s.requests[i].call.Some?
    ensures DrainsOrLeaves(s, Step(s, RequestCancelled(i)), i)
  {
    ActiveIsAtTheChild(s, i);
    CancelStep(s, i);
  }

  ghost predicate DrainsOrLeaves(s: System, s': System, i: nat)
    requires i in s.requests && s.requests[i].call.Some?
  {
    var q := s.requests[i];
    if q.caller.Some? then
      && OnlyRequest(s, s', i, q.(draining := true)) && s'.running == s.running
      && s'.routing == s.routing.(caller := None)
    else Left(s, s', i, s.running - {q.call.value}, s.routing.abandoned)
  }

  /** Request `i` is over and the child free. */
  ghost predicate Left(s: System, s': System, i: nat, running: set<nat>, abandoned: set<Call>)
    requires i in s.requests
  {
    && OnlyRequest(s, s', i, s.requests[i].(over := true)) && s'.running == running
    && s'.routing == Freed(s.routing.(abandoned := abandoned), OfRequest(i))
  }

  lemma CancelStep(s: System, i: nat)
    requires AtTheChild(s, i) && !s.requests[i].draining && s.requests[i].call.Some?
    ensures DrainsOrLeaves(s, Step(s, RequestCancelled(i)), i)
  {
  }

  /** A request whose drain time is over leaves, and its call is abandoned if it still runs. */
  lemma DrainedRequestLeaves(s: System, i: nat)
    requires Inv(s) && i in s.requests && !s.requests[i].over && s.requests[i].draining
    ensures s.requests[i].call.Some?
    ensures var call := s.requests[i].call.value;
            Left(s, Step(s, RequestDrainEnds(i)), i, s.running,
                 s.routing.abandoned + if call in s.running then {Plain(call)} else {})
  {
    ActiveIsAtTheChild(s, i);
    DrainEndStep(s, i);
  }

  lemma DrainEndStep(s: System, i: nat)
    requires AtTheChild(s, i) && s.requests[i].draining && s.requests[i].call.Some?
    ensures var call := s.requests[i].call.value;
            Left(s, Step(s, RequestDrainEnds(i)), i, s.running,
                 s.routing.abandoned + if call in s.running then {Plain(call)} else {})
  {
    assert s.routing.abandoned + {} == s.routing.abandoned;
  }

  /** One that failed takes its call with it; one with no call under way just leaves. */
  lemma FailedOrIdleRequestLeaves(s: System, i: nat)
    requires Inv(s) && i in s.requests && !s.requests[i].over
    ensures !s.requests[i].draining && s.requests[i].call.Some? ==>
              Left(s, Step(s, RequestFails(i)), i, s.running - {s.requests[i].call.value}, s.routing.abandoned)
    ensures s.requests[i].call.None? ==> Left(s, Step(s, RequestLeaves(i)), i, s.running, s.routing.abandoned)
  {
    ActiveIsAtTheChild(s, i);
    if s.requests[i].call.None? {
      LeaveStep(s, i);
    } else if !s.requests[i].draining {
      FailStep(s, i);
    }
  }

  lemma FailStep(s: System, i: nat)
    requires AtTheChild(s, i) && !s.requests[i].draining && s.requests[i].call.Some?
    ensures Left(s, Step(s, RequestFails(i)), i, s.running - {s.requests[i].call.value}, s.routing.abandoned)
  {
  }

  lemma LeaveStep(s: System, i: nat)
    requires AtTheChild(s, i) && s.requests[i].call.None?
    ensures Left(s, Step(s, RequestLeaves(i)), i, s.running, s.routing.abandoned)
  {
  }

  /** A finished call is forgotten, and a group's replaced table takes no turn any more. */
  lemma ForgottenOrReplaced(s: System, call: Call)
    ensures call in s.routing.abandoned &&
            (match call case Run(i) => i !in s.turns || s.turns[i].task.runDone case Plain(n) => n !in s.running) ==>
              Step(s, AbandonedCallback(call)) == s.(routing := s.routing.(abandoned := s.routing.abandoned - {call}))
    ensures !s.routing.serialized && s.routing.parked == map[] ==>
              Step(s, TableReplaced) == s.(routing := s.routing.(rebuilt := true))
  {
  }
}
