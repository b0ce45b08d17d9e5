/** What the invariant means for the clients and the child of a proxy, over every run. */
module BridgeSafety {
  import opened Basics
  import opened TurnProtocol
  import opened BridgeSystem
  import opened BridgeInvariant

  // ---------------------------------------------------------------- who may be asked

  /** The calls of the request or turn that holds the lock. */
  predicate HoldersCall(s: System, call: Call) {
    match call
    case Run(i) => s.routing.lock == Some(OfTurn(i))
    case Plain(n) =>
      s.routing.lock.Some? && s.routing.lock.value.OfRequest? && OwnCall(s, s.routing.lock.value.id, n)
  }

  lemma InvKeepsCalls(s: System, call: Call)
    requires Inv(s) && s.routing.serialized && Unfinished(s, call)
    ensures call in s.routing.abandoned || HoldersCall(s, call)
  {
    match call
    case Run(i) => assert TurnOk(s.routing, i, s.turns[i]);
    case Plain(n) =>
      if call !in s.routing.abandoned {
        var i :| i in s.requests && OwnCall(s, i, n);
        OnlyTheHolderIsActive(s, i);
      }
  }

  lemma UnfinishedIsHeldOrAbandoned(events: seq<Event>, call: Call)
    ensures var s := RunAll(Init(true), events);
            Unfinished(s, call) ==> call in s.routing.abandoned || HoldersCall(s, call)
  {
    var s := RunAll(Init(true), events);
    InitHolds(true);
    EveryRunKeeps(Init(true), events);
    StaysSerialized(Init(true), events);
    if Unfinished(s, call) {
      InvKeepsCalls(s, call);
    }
  }

  lemma StepStaysSerialized(s: System, e: Event)
    requires Inv(s)
    ensures Step(s, e).routing.serialized == s.routing.serialized
  {
    StepMovesTheLock(s, e);
  }

  lemma {:induction false} StaysSerialized(s: System, events: seq<Event>)
    requires Inv(s)
    ensures RunAll(s, events).routing.serialized == s.routing.serialized
    decreases |events|
  {
    if events != [] {
      StepKeeps(s, events[0]);
      StepStaysSerialized(s, events[0]);
      StaysSerialized(Step(s, events[0]), events[1..]);
    }
  }

  /** A request of the child reaches a client only while every unfinished call is the lock
      holder's, and then only that holder's live caller, or the open turn that will ask it. */
  lemma ChildReachesOnlyTheHolder(events: seq<Event>, kind: Kind, capable: bool)
    ensures var s := RunAll(Init(true), events);
            var delivery := Deliver(s, kind, capable).1;
            && (!delivery.Refused? ==> forall call :: Unfinished(s, call) ==> HoldersCall(s, call))
            && (delivery.Forwarded? ==>
                  s.routing.lock.Some? && s.routing.lock.value.OfRequest? &&
                  var i := s.routing.lock.value.id;
                  Active(s, i) && !s.requests[i].draining && s.requests[i].caller == Some(delivery.caller))
            && (delivery.HeldFor? ==>
                  s.routing.lock == Some(OfTurn(delivery.turn)) && delivery.turn in s.turns &&
                  !s.turns[delivery.turn].closed && s.turns[delivery.turn].caller == s.routing.caller)
  {
    var s := RunAll(Init(true), events);
    InitHolds(true);
    EveryRunKeeps(Init(true), events);
    StaysSerialized(Init(true), events);
    forall call | Unfinished(s, call) && s.routing.abandoned == {}
      ensures HoldersCall(s, call)
    {
      UnfinishedIsHeldOrAbandoned(events, call);
    }
    if Deliver(s, kind, capable).1.Forwarded? {
      SlotNamesTheHolder(s);
    } else if Deliver(s, kind, capable).1.HeldFor? {
      assert TurnOk(s.routing, s.routing.turn.value, s.turns[s.routing.turn.value]);
    }
  }

  /** A filled caller slot with no turn is the active request's. */
  lemma SlotNamesTheHolder(s: System)
    requires Inv(s) && s.routing.caller.Some? && s.routing.turn.None?
    ensures s.routing.lock.Some? && s.routing.lock.value.OfRequest?
    ensures var i := s.routing.lock.value.id;
            Active(s, i) && !s.requests[i].draining && s.requests[i].caller == s.routing.caller
  {
    var i := s.routing.lock.value.id;
    assert i in s.requests && RequestOk(s.routing, s.running, i, s.requests[i]);
  }

  // ---------------------------------------------------------------- the lock

  /** Acquisitions and releases alternate, each release by the holder, and nobody takes the lock
      twice. */
  ghost predicate Bracketed(log: seq<LockEvent>, lock: Option<Holder>)
    decreases |log|
  {
    if log == [] then lock.None?
    else
      var (before, last) := (log[..|log| - 1], log[|log| - 1]);
      match last
      case Acquired(h) => lock == Some(h) && Bracketed(before, None) && last !in before
      case Released(h) => lock.None? && Bracketed(before, Some(h))
  }

  ghost predicate LogOk(s: System) {
    Bracketed(s.routing.log, s.routing.lock) && forall h :: Acquired(h) in s.routing.log ==> KnownHolder(s, h)
  }

  /** What one step does to the lock, and to its log. */
  ghost predicate LockMoves(s: System, s': System) {
    var (r, r') := (s.routing, s'.routing);
    s.turns.Keys <= s'.turns.Keys && s.requests.Keys <= s'.requests.Keys && r'.serialized == r.serialized &&
    (
    || (r'.lock == r.lock && r'.log == r.log)
    || (r.lock.Some? && r'.lock.None? && r'.log == r.log + [Released(r.lock.value)])
    || (r.lock.None? && r'.lock.Some? && r'.log == r.log + [Acquired(r'.lock.value)] &&
        !KnownHolder(s, r'.lock.value) && KnownHolder(s', r'.lock.value)))
  }

  /** A turn's own steps leave the lock alone or give it back. */
  ghost predicate GivesBack(r: Routing, r': Routing) {
    r'.serialized == r.serialized &&
    ((r'.lock == r.lock && r'.log == r.log) ||
     (r.lock.Some? && r'.lock.None? && r'.log == r.log + [Released(r.lock.value)]))
  }

  lemma ReleaseGivesBack(r: Routing, i: nat, t: Turn)
    ensures GivesBack(r, Release(r, i, t).0)
  {
  }

  lemma EndGivesBack(r: Routing, i: nat, t: Turn)
    ensures GivesBack(r, End(r, i, t).0)
  {
  }

  lemma TurnPiecesGiveBack(r: Routing, i: nat, t: Turn)
    ensures GivesBack(r, End(r, i, t).0) && GivesBack(r, LegCancelled(r, i, t).0)
    ensures GivesBack(r, Drained(r, i, t).0) && GivesBack(r, Finished(r, i, t).0)
  {
    EndGivesBack(r, i, t);
    EndGivesBack(r, i, t.(live := false));
    ReleaseGivesBack(r.(abandoned := r.abandoned + {Run(i)}), i, DrainOver(t));
    ReleaseGivesBack(r, i, CallbackOver(t));
  }

  lemma LegStepMovesTheLock(s: System, e: Event)
    requires Enabled(s, e)
    requires e.LegWakesUp? || e.CallerRetries? || e.ChildAsks? || e.RunEnds? || e.UpstreamWithdraws? || e.TurnIsAsked?
    ensures LockMoves(s, Step(s, e))
  {
  }

  lemma EndingStepMovesTheLock(s: System, e: Event)
    requires Enabled(s, e) && (e.LegIsCancelled? || e.TurnExpires? || e.MemberLeft? || e.DrainFires? || e.RunCallback?)
    ensures LockMoves(s, Step(s, e))
  {
    var i := if e.MemberLeft? then s.routing.parked[e.ticket] else e.id;
    TurnPiecesGiveBack(s.routing, i, s.turns[i]);
    assert Step(s, e).requests == s.requests && Step(s, e).turns.Keys == s.turns.Keys + {i};
  }

  lemma TurnStartMovesTheLock(s: System, e: Event)
    requires Enabled(s, e) && e.TurnStarts? && (!s.routing.serialized ==> s.routing.lock.None?)
    ensures LockMoves(s, Step(s, e))
  {
  }

  lemma LeavingMovesTheLock(s: System, e: Event)
    requires Enabled(s, e) && (e.RequestCancelled? || e.RequestDrainEnds? || e.RequestFails? || e.RequestLeaves?)
    ensures LockMoves(s, Step(s, e))
  {
    match e
    case RequestCancelled(_) =>
    case RequestDrainEnds(_) =>
    case RequestFails(_) =>
    case RequestLeaves(_) =>
  }

  lemma OtherStepMovesTheLock(s: System, e: Event)
    requires Enabled(s, e) && (!s.routing.serialized ==> s.routing.lock.None?) && LeavesTurns(e)
    ensures LockMoves(s, Step(s, e))
  {
    if e.RequestCancelled? || e.RequestDrainEnds? || e.RequestFails? || e.RequestLeaves? {
      LeavingMovesTheLock(s, e);
    } else if e.RequestStarts? {
      RequestStartMovesTheLock(s, e);
    }
  }

  lemma RequestStartMovesTheLock(s: System, e: Event)
    requires Enabled(s, e) && e.RequestStarts?
    ensures LockMoves(s, Step(s, e))
  {
  }

  lemma StepMovesTheLock(s: System, e: Event)
    requires Inv(s)
    ensures LockMoves(s, Step(s, e))
  {
    if Enabled(s, e) {
      if e.TurnStarts? {
        TurnStartMovesTheLock(s, e);
      } else if LeavesTurns(e) {
        OtherStepMovesTheLock(s, e);
      } else if e.LegWakesUp? || e.CallerRetries? || e.ChildAsks? || e.RunEnds? || e.UpstreamWithdraws? || e.TurnIsAsked? {
        LegStepMovesTheLock(s, e);
      } else {
        EndingStepMovesTheLock(s, e);
      }
    }
  }

  lemma LogFollows(s: System, s': System)
    requires LogOk(s) && LockMoves(s, s')
    ensures LogOk(s')
  {
    var (log, log') := (s.routing.log, s'.routing.log);
    if log' != log {
      assert log'[..|log'| - 1] == log;
    }
  }

  lemma {:induction false} EveryRunKeepsTheLog(s: System, events: seq<Event>)
    requires Inv(s) && LogOk(s)
    ensures LogOk(RunAll(s, events))
    decreases |events|
  {
    if events != [] {
      StepKeeps(s, events[0]);
      StepMovesTheLock(s, events[0]);
      LogFollows(s, Step(s, events[0]));
      EveryRunKeepsTheLog(Step(s, events[0]), events[1..]);
    }
  }

  lemma {:induction false} BracketedCounts(log: seq<LockEvent>, lock: Option<Holder>, h: Holder)
    requires Bracketed(log, lock)
    ensures multiset(log)[Acquired(h)] <= 1
    ensures multiset(log)[Acquired(h)] == multiset(log)[Released(h)] + if lock == Some(h) then 1 else 0
    decreases |log|
  {
    if log != [] {
      var (before, last) := (log[..|log| - 1], log[|log| - 1]);
      assert log == before + [last];
      BracketedCounts(before, if last.Acquired? then None else Some(last.holder), h);
      if last == Acquired(h) {
        assert multiset(before)[last] == 0;
      }
    }
  }

  /** In every run each acquisition is released exactly once, unless it is the one still held. */
  lemma EveryAcquisitionIsReleasedOnce(serialized: bool, events: seq<Event>, h: Holder)
    ensures var r := RunAll(Init(serialized), events).routing;
            && multiset(r.log)[Acquired(h)] <= 1
            && multiset(r.log)[Acquired(h)] == multiset(r.log)[Released(h)] + if r.lock == Some(h) then 1 else 0
  {
    InitHolds(serialized);
    EveryRunKeepsTheLog(Init(serialized), events);
    var r := RunAll(Init(serialized), events).routing;
    BracketedCounts(r.log, r.lock, h);
  }

  /** A turn whose caller is gone gives the child back as soon as its drain time is over, or its
      run's callback ran: no abandoned call can keep the lock. */
  lemma AbandonedTurnFreesTheLock(s: System, i: nat)
    requires Inv(s) && s.routing.lock == Some(OfTurn(i)) && i in s.turns
    ensures s.turns[i].task.runDone ==> !s.turns[i].task.callbackRan && Step(s, RunCallback(i)).routing.lock.None?
    ensures s.turns[i].closed && !s.turns[i].task.runDone ==>
              s.turns[i].task.drain && Step(s, DrainFires(i)).routing.lock.None? && Run(i) in Step(s, DrainFires(i)).routing.abandoned
  {
    InvIsLocal(s, i);
    LocalHolderGivesBack(s, i);
  }

  lemma LocalHolderGivesBack(s: System, i: nat)
    requires i in s.turns && Local(s.routing, i, s.turns[i]) && s.routing.lock == Some(OfTurn(i))
    ensures s.turns[i].task.runDone ==> !s.turns[i].task.callbackRan && Step(s, RunCallback(i)).routing.lock.None?
    ensures s.turns[i].closed && !s.turns[i].task.runDone ==>
              s.turns[i].task.drain && Step(s, DrainFires(i)).routing.lock.None? && Run(i) in Step(s, DrainFires(i)).routing.abandoned
  {
    HolderGivesBack(s, i);
  }

  lemma HolderGivesBack(s: System, i: nat)
    requires i in s.turns && s.routing.serialized && s.routing.lock == Some(OfTurn(i)) && !s.turns[i].task.released
    ensures Enabled(s, RunCallback(i)) ==> Step(s, RunCallback(i)).routing.lock.None?
    ensures Enabled(s, DrainFires(i)) && !s.turns[i].task.runDone ==>
              Step(s, DrainFires(i)).routing.lock.None? && Run(i) in Step(s, DrainFires(i)).routing.abandoned
  {
  }

  // ---------------------------------------------------------------- the turn slot

  /** A turn in the slot holds the lock, is the turn of the caller in the slot, and is open
      unless its run is already over. */
  lemma SlottedTurnHolds(events: seq<Event>)
    ensures var s := RunAll(Init(true), events);
            s.routing.turn.Some? ==>
              var i := s.routing.turn.value;
              i in s.turns && s.routing.lock == Some(OfTurn(i)) && s.routing.caller == s.turns[i].caller &&
              (s.turns[i].closed ==> s.turns[i].task.runDone && !s.turns[i].task.callbackRan)
  {
    var s := RunAll(Init(true), events);
    InitHolds(true);
    EveryRunKeeps(Init(true), events);
    StaysSerialized(Init(true), events);
    if s.routing.turn.Some? {
      assert TurnOk(s.routing, s.routing.turn.value, s.turns[s.routing.turn.value]);
    }
  }

  /** A closed turn sits in the slot. */
  predicate ClosedInSlot(s: System) {
    s.routing.turn.Some? && s.routing.turn.value in s.turns && s.turns[s.routing.turn.value].closed
  }

  /** The step ends the turn in the slot, its leg cancelled or its retry overdue, after its run's
      end and before the run's callback. */
  predicate EndsTooLate(s: System, e: Event) {
    && s.routing.turn.Some? && s.routing.turn.value in s.turns && Enabled(s, e)
    && (e == LegIsCancelled(s.routing.turn.value) || e == TurnExpires(s.routing.turn.value))
    && var t := s.turns[s.routing.turn.value]; !t.closed && t.task.runDone && !t.task.callbackRan
  }

  predicate FreesTheSlot(s: System, e: Event) {
    s.routing.turn.Some? && e == RunCallback(s.routing.turn.value) && Enabled(s, e)
  }

  /** How the turn in the slot stands to its run and the lock. */
  predicate SlotOk(s: System) {
    s.routing.turn.Some? ==>
      && s.routing.turn.value in s.turns && s.routing.lock == Some(OfTurn(s.routing.turn.value))
      && var t := s.turns[s.routing.turn.value];
         !t.task.released && !t.task.callbackRan && (t.closed ==> t.task.runDone)
  }

  lemma InvSlot(s: System)
    requires Inv(s) && s.routing.serialized
    ensures SlotOk(s)
  {
    if s.routing.turn.Some? {
      InvIsLocal(s, s.routing.turn.value);
    }
  }

  /** A step leaves a closed turn in the slot exactly when it ends the slot's turn too late, or one
      was there and its run's callback still hasn't run. */
  lemma ClosedTurnInTheSlotIff(s: System, e: Event)
    requires Inv(s) && s.routing.serialized
    ensures ClosedInSlot(Step(s, e)) <==> EndsTooLate(s, e) || (ClosedInSlot(s) && !FreesTheSlot(s, e))
  {
    InvSlot(s);
    NobodyFillsTheSlotTwice(s);
    StepAndTheSlot(s, e);
  }

  predicate SlotIsFree(s: System) {
    s.routing.lock.None? ==> s.routing.turn.None?
  }

  lemma NobodyFillsTheSlotTwice(s: System)
    requires Inv(s)
    ensures SlotIsFree(s)
  {
  }

  lemma StepAndTheSlot(s: System, e: Event)
    requires SlotOk(s) && SlotIsFree(s) && s.routing.serialized
    ensures ClosedInSlot(Step(s, e)) <==> EndsTooLate(s, e) || (ClosedInSlot(s) && !FreesTheSlot(s, e))
  {
    if !Enabled(s, e) {
    } else if e.LegIsCancelled? || e.TurnExpires? || e.DrainFires? || e.RunCallback? {
      EndingStepAndTheSlot(s, e);
    } else {
      QuietStepAndTheSlot(s, e);
    }
  }

  lemma EndingStepAndTheSlot(s: System, e: Event)
    requires SlotOk(s) && s.routing.serialized && Enabled(s, e)
    requires e.LegIsCancelled? || e.TurnExpires? || e.DrainFires? || e.RunCallback?
    ensures ClosedInSlot(Step(s, e)) <==> EndsTooLate(s, e) || (ClosedInSlot(s) && !FreesTheSlot(s, e))
  {
    match e
    case LegIsCancelled(i) => CancelAndTheSlot(s, i);
    case TurnExpires(i) => ExpiryAndTheSlot(s, i);
    case DrainFires(i) => DrainAndTheSlot(s, i);
    case RunCallback(i) => CallbackAndTheSlot(s, i);
  }

  lemma QuietStepAndTheSlot(s: System, e: Event)
    requires SlotOk(s) && SlotIsFree(s) && s.routing.serialized && Enabled(s, e)
    requires !e.LegIsCancelled? && !e.TurnExpires? && !e.DrainFires? && !e.RunCallback?
    ensures ClosedInSlot(Step(s, e)) <==> ClosedInSlot(s)
  {
    match e
    case LegWakesUp(i, ticket) => WakeAndTheSlot(s, i, ticket);
    case CallerRetries(_, _, _) => RetryAndTheSlot(s, e);
    case RunEnds(i) => PutAndTheSlot(s, i, (s.routing, RunOver(s.turns[i])));
    case UpstreamWithdraws(i, key) => PutAndTheSlot(s, i, (s.routing, Withdraw(s.turns[i], key)));
    case ChildAsks(kind, capable) => AskAndTheSlot(s, kind, capable);
    case TurnStarts(_, _, _) =>
    case _ => OthersAndTheSlot(s, e);
  }

  /** Turn `i`'s own steps leave the slot or empty it of `i`. */
  lemma PutAndTheSlot(s: System, i: nat, next: (Routing, Turn))
    requires i in s.turns
    requires next.0.turn == s.routing.turn || (s.routing.turn == Some(i) && next.0.turn.None?)
    ensures ClosedInSlot(Put(s, i, next)) <==>
            next.0.turn.Some? && (if next.0.turn.value == i then next.1.closed else ClosedInSlot(s))
  {
  }

  lemma EndsInTheSlot(r: Routing, i: nat, t: Turn)
    ensures var (r', t') := End(r, i, t);
            t'.closed && r'.turn == if r.turn == Some(i) && !t.closed && !t.task.runDone && r.serialized then None else r.turn
  {
  }

  lemma CancelAndTheSlot(s: System, i: nat)
    requires SlotOk(s) && s.routing.serialized && Enabled(s, LegIsCancelled(i))
    ensures ClosedInSlot(Step(s, LegIsCancelled(i))) <==> EndsTooLate(s, LegIsCancelled(i)) || ClosedInSlot(s)
  {
    EndsInTheSlot(s.routing, i, s.turns[i].(live := false));
    PutAndTheSlot(s, i, LegCancelled(s.routing, i, s.turns[i]));
  }

  lemma ExpiryAndTheSlot(s: System, i: nat)
    requires SlotOk(s) && s.routing.serialized && Enabled(s, TurnExpires(i))
    ensures ClosedInSlot(Step(s, TurnExpires(i))) <==> EndsTooLate(s, TurnExpires(i)) || ClosedInSlot(s)
  {
    EndsInTheSlot(s.routing, i, s.turns[i]);
    PutAndTheSlot(s, i, End(s.routing, i, s.turns[i]));
  }

  lemma ReleasesTheSlot(r: Routing, i: nat, t: Turn)
    ensures var (r', t') := Release(r, i, t);
            t'.closed == t.closed && r'.turn == if r.turn == Some(i) && !t.task.released && r.serialized then None else r.turn
  {
  }

  lemma DrainAndTheSlot(s: System, i: nat)
    requires SlotOk(s) && s.routing.serialized && Enabled(s, DrainFires(i))
    ensures ClosedInSlot(Step(s, DrainFires(i))) <==> ClosedInSlot(s)
  {
    var (r, t) := (s.routing, s.turns[i]);
    ReleasesTheSlot(r.(abandoned := r.abandoned + {Run(i)}), i, DrainOver(t));
    PutAndTheSlot(s, i, Drained(r, i, t));
  }

  lemma CallbackAndTheSlot(s: System, i: nat)
    requires SlotOk(s) && s.routing.serialized && Enabled(s, RunCallback(i))
    ensures ClosedInSlot(Step(s, RunCallback(i))) <==> ClosedInSlot(s) && !FreesTheSlot(s, RunCallback(i))
  {
    ReleasesTheSlot(s.routing, i, CallbackOver(s.turns[i]));
    PutAndTheSlot(s, i, Finished(s.routing, i, s.turns[i]));
  }

  lemma WakeAndTheSlot(s: System, i: nat, ticket: Ticket)
    requires SlotOk(s) && Enabled(s, LegWakesUp(i, ticket))
    ensures ClosedInSlot(Step(s, LegWakesUp(i, ticket))) <==> ClosedInSlot(s)
  {
    var (r', t', _) := LegWakes(s.routing, i, s.turns[i], ticket);
    PutAndTheSlot(s, i, (r', t'));
  }

  lemma RetryAndTheSlot(s: System, e: Event)
    requires SlotOk(s) && e.CallerRetries? && Enabled(s, e)
    ensures ClosedInSlot(Step(s, e)) <==> ClosedInSlot(s)
  {
    var i := s.routing.parked[e.ticket];
    PutAndTheSlot(s, i, Resume(s.routing, i, s.turns[i], e.caller, e.responses));
  }

  lemma AskAndTheSlot(s: System, kind: Kind, capable: bool)
    requires SlotOk(s)
    ensures ClosedInSlot(Deliver(s, kind, capable).0) <==> ClosedInSlot(s)
  {
    if s.routing.turn.Some? {
      assert Ask(s.turns[s.routing.turn.value], kind, capable).0.closed == s.turns[s.routing.turn.value].closed;
    }
  }

  lemma OthersAndTheSlot(s: System, e: Event)
    requires SlotOk(s) && SlotIsFree(s) && s.routing.serialized && Enabled(s, e) && (LeavesTurns(e) || e.MemberLeft?)
    ensures ClosedInSlot(Step(s, e)) <==> ClosedInSlot(s)
  {
    if LeavesTurns(e) {
      LeavingTurns(s, e);
    }
  }

  lemma RunOne(s: System, e: Event, rest: seq<Event>)
    ensures RunAll(s, [e] + rest) == RunAll(Step(s, e), rest)
  {
    assert ([e] + rest)[1..] == rest;
  }

  lemma RunTwo(s: System, a: Event, b: Event)
    ensures RunAll(s, [a, b]) == Step(Step(s, a), b)
  {
    RunOne(s, a, [b]);
    RunOne(Step(s, a), b, []);
    assert [a] + [b] == [a, b] && [b] + [] == [b];
  }

  lemma {:induction false} RunBoth(s: System, events: seq<Event>, more: seq<Event>)
    ensures RunAll(s, events + more) == RunAll(RunAll(s, events), more)
    decreases |events|
  {
    if events == [] {
      assert events + more == more;
    } else {
      assert (events + more)[1..] == events[1..] + more;
      RunBoth(Step(s, events[0]), events[1..], more);
    }
  }

  /** Both ways happen: a leg cancelled between the end of the run and its done-callback, */
  lemma ClosedTurnInTheSlot(caller: Caller)
    ensures ClosedInSlot(RunAll(Init(true), [TurnStarts(0, Some(caller), false)] + [RunEnds(0), LegIsCancelled(0)]))
  {
    var a := TurnStarts(0, Some(caller), false);
    RunOne(Init(true), a, [RunEnds(0), LegIsCancelled(0)]);
    RunTwo(Step(Init(true), a), RunEnds(0), LegIsCancelled(0));
  }

  /** A turn the child asked something, */
  function AskingRun(caller: Caller): seq<Event> {
    [TurnStarts(0, Some(caller), false), ChildAsks(Roots, true)]
  }

  /** which waits, */
  lemma AskedTurn(caller: Caller)
    ensures var s := RunAll(Init(true), AskingRun(caller));
            && s.turns.Keys == {0} && s.turns[0].asks == Asks(map[0 := Roots], {}, 1, map[])
            && s.turns[0].live && s.turns[0].asked && !s.turns[0].closed && !s.turns[0].task.runDone
            && s.turns[0].parking == Parking(None, false, false, 0, 0) && !s.turns[0].holding && !s.turns[0].task.drain
            && s.routing == Routing(true, Some(OfTurn(0)), Some(caller), Some(0), map[], false, {}, s.routing.log)
  {
    RunTwo(Init(true), TurnStarts(0, Some(caller), false), ChildAsks(Roots, true));
  }

  /** and which then was parked. */
  lemma AskedTurnParks(s: System, ticket: Ticket)
    requires s.turns.Keys == {0} && s.turns[0].asks == Asks(map[0 := Roots], {}, 1, map[])
    requires s.turns[0].live && s.turns[0].asked && !s.turns[0].closed && !s.turns[0].task.runDone
    requires s.routing.turn == Some(0) && s.routing.parked == map[] && !s.routing.rebuilt
    ensures var s' := Step(s, LegWakesUp(0, ticket));
            && s'.turns.Keys == {0} && s'.turns[0].parking.expiry && s'.routing.turn == Some(0)
            && !s'.turns[0].closed && !s'.turns[0].task.runDone
  {
    assert Unsent(s.turns[0].asks) == map[0 := Roots];
    assert 0 in Unsent(s.turns[0].asks);
  }

  lemma ExpiresInTheSlot(s: System)
    requires 0 in s.turns && s.turns[0].parking.expiry && s.routing.turn == Some(0)
    requires !s.turns[0].closed && !s.turns[0].task.runDone
    ensures ClosedInSlot(Step(Step(s, RunEnds(0)), TurnExpires(0)))
  {
    var t := Step(s, RunEnds(0));
    assert Step(t, TurnExpires(0)) == Put(t, 0, End(t.routing, 0, t.turns[0]));
  }

  /** and a retry overdue just then. */
  lemma ExpiredTurnInTheSlot(caller: Caller, ticket: Ticket)
    ensures ClosedInSlot(RunAll(Init(true), AskingRun(caller) + ([LegWakesUp(0, ticket)] + [RunEnds(0), TurnExpires(0)])))
  {
    var s := RunAll(Init(true), AskingRun(caller));
    RunBoth(Init(true), AskingRun(caller), [LegWakesUp(0, ticket)] + [RunEnds(0), TurnExpires(0)]);
    RunOne(s, LegWakesUp(0, ticket), [RunEnds(0), TurnExpires(0)]);
    RunTwo(Step(s, LegWakesUp(0, ticket)), RunEnds(0), TurnExpires(0));
    AskedTurn(caller);
    AskedTurnParks(s, ticket);
    ExpiresInTheSlot(Step(s, LegWakesUp(0, ticket)));
  }

  // ---------------------------------------------------------------- parking

  /** The parked table holds exactly the parked turns, under the tickets they handed out, within
      its bound; a replaced one holds none; every turn waits on few enough requests; and a hold is
      outstanding exactly while its turn is parked. */
  lemma ParkedTableIsExact(serialized: bool, events: seq<Event>)
    ensures var s := RunAll(Init(serialized), events);
            && (forall ticket, i :: i in s.turns ==>
                  (ticket in s.routing.parked && s.routing.parked[ticket] == i <==> s.turns[i].parking.ticket == Some(ticket)))
            && |s.routing.parked| <= MAX_PARKED_TURNS
            && (s.routing.rebuilt ==> s.routing.parked == map[])
            && forall i :: i in s.turns ==>
                 var t := s.turns[i];
                 && |t.asks.pending| <= MAX_PENDING_PER_TURN
                 && t.parking.holds == t.parking.lets + (if t.parking.ticket.Some? && t.holding then 1 else 0)
                 && (t.closed ==> t.asks.pending == map[])
  {
    var s := RunAll(Init(serialized), events);
    InitHolds(serialized);
    EveryRunKeeps(Init(serialized), events);
    forall i | i in s.turns
      ensures TurnOk(s.routing, i, s.turns[i])
    {
    }
  }

  /** In a group: a turn its own upstream session asked something, */
  function HeldRun(caller: Caller): seq<Event> {
    [TurnStarts(0, Some(caller), true), TurnIsAsked(0, Roots, true)]
  }

  /** which waits, */
  predicate AsksInAGroup(s: System) {
    && s.turns.Keys == {0} && s.turns[0].asks == Asks(map[0 := Roots], {}, 1, map[])
    && s.turns[0].holding && s.turns[0].live && s.turns[0].asked && !s.turns[0].closed && !s.turns[0].task.runDone
    && s.turns[0].parking == Parking(None, false, false, 0, 0)
    && !s.routing.serialized && s.routing.parked == map[]
  }

  lemma GroupTurnIsAsked(caller: Caller)
    ensures var s := RunAll(Init(false), HeldRun(caller)); AsksInAGroup(s) && !s.routing.rebuilt
  {
    RunTwo(Init(false), TurnStarts(0, Some(caller), true), TurnIsAsked(0, Roots, true));
  }

  /** and then is parked, its members held. */
  predicate ParkedInAGroup(s: System, ticket: Ticket) {
    && s.turns.Keys == {0} && s.turns[0].asks == Asks(map[0 := Roots], {0}, 1, map[]) && !s.turns[0].closed
    && s.turns[0].parking == Parking(Some(ticket), true, true, 1, 0)
    && !s.routing.serialized && s.routing.parked == map[ticket := 0]
  }

  lemma GroupTurnParks(s: System, ticket: Ticket)
    requires AsksInAGroup(s) && !s.routing.rebuilt
    ensures ParkedInAGroup(Step(s, LegWakesUp(0, ticket)), ticket)
  {
    assert Unsent(s.turns[0].asks) == map[0 := Roots];
    assert 0 in Unsent(s.turns[0].asks);
    assert {} + {0} == {0};
  }

  /** Runs in which a hold is taken and let go again: the caller's retry answers the upstream; a
      retry overdue, or one that finds a member gone, ends the turn. */
  lemma HoldsAreTakenAndLetGo(caller: Caller, ticket: Ticket, retrier: Option<Caller>, responses: map<Key, Response>)
    ensures ParkedInAGroup(RunAll(Init(false), HeldRun(caller) + [LegWakesUp(0, ticket)]), ticket)
    ensures forall e :: e in {CallerRetries(ticket, retrier, responses), TurnExpires(0), MemberLeft(ticket)} ==>
              var s := RunAll(Init(false), HeldRun(caller) + [LegWakesUp(0, ticket), e]);
              && 0 in s.turns && s.turns[0].parking == Parking(None, false, false, 1, 1)
              && s.turns[0].asks.pending == map[] && s.routing.parked == map[]
              && s.turns[0].asks.answered ==
                 map[0 := if !e.CallerRetries? then ClientGone
                          else if 0 in responses && responses[0].kind.Roots? then FromClient(responses[0].payload)
                          else NoValidAnswer]
              && (s.turns[0].closed <==> !e.CallerRetries?)
  {
    var s := RunAll(Init(false), HeldRun(caller));
    var parked := Step(s, LegWakesUp(0, ticket));
    GroupTurnIsAsked(caller);
    GroupTurnParks(s, ticket);
    RunBoth(Init(false), HeldRun(caller), [LegWakesUp(0, ticket)]);
    RunOne(s, LegWakesUp(0, ticket), []);
    assert [LegWakesUp(0, ticket)] + [] == [LegWakesUp(0, ticket)];
    forall e | e in {CallerRetries(ticket, retrier, responses), TurnExpires(0), MemberLeft(ticket)}
      ensures RunAll(Init(false), HeldRun(caller) + [LegWakesUp(0, ticket), e]) == Step(parked, e)
    {
      RunBoth(Init(false), HeldRun(caller), [LegWakesUp(0, ticket), e]);
      RunTwo(s, LegWakesUp(0, ticket), e);
    }
    GroupTurnComesBack(parked, ticket, retrier, responses);
    GroupTurnEnds(parked, ticket, TurnExpires(0));
    GroupTurnEnds(parked, ticket, MemberLeft(ticket));
  }

  lemma GroupTurnComesBack(s: System, ticket: Ticket, retrier: Option<Caller>, responses: map<Key, Response>)
    requires ParkedInAGroup(s, ticket)
    ensures var s' := Step(s, CallerRetries(ticket, retrier, responses));
            && 0 in s'.turns && s'.turns[0].parking == Parking(None, false, false, 1, 1)
            && s'.turns[0].asks.pending == map[] && s'.routing.parked == map[] && !s'.turns[0].closed
            && s'.turns[0].asks.answered == map[0 := AnswerFor(Roots, 0, responses)]
  {
    var a := s.turns[0].asks;
    assert a.sent * a.pending.Keys == {0};
    assert SentTold(a, responses).answered == map[0 := AnswerFor(Roots, 0, responses)];
  }

  lemma GroupTurnEnds(s: System, ticket: Ticket, e: Event)
    requires ParkedInAGroup(s, ticket) && (e == TurnExpires(0) || e == MemberLeft(ticket))
    ensures var s' := Step(s, e);
            && 0 in s'.turns && s'.turns[0].parking == Parking(None, false, false, 1, 1)
            && s'.turns[0].asks.pending == map[] && s'.routing.parked == map[] && s'.turns[0].closed
            && s'.turns[0].asks.answered == map[0 := ClientGone]
  {
    assert Step(s, e) == Put(s, 0, End(s.routing, 0, s.turns[0]));
    assert Told(s.turns[0].asks, {0}, ClientGone).answered == map[0 := ClientGone];
  }

  /** A run in which the group is rebuilt under an asked turn: its request is refused, and it waits
      on for its result. */
  lemma RebuiltGroupParksNobody(caller: Caller, ticket: Ticket)
    ensures var s := RunAll(Init(false), HeldRun(caller) + [TableReplaced, LegWakesUp(0, ticket)]);
            && 0 in s.turns && s.turns[0].asks == Asks(map[], {}, 1, map[0 := GroupRebuilt])
            && s.turns[0].live && !s.turns[0].closed && s.turns[0].parking.holds == 0 && s.routing.parked == map[]
  {
    var s := RunAll(Init(false), HeldRun(caller));
    GroupTurnIsAsked(caller);
    RunBoth(Init(false), HeldRun(caller), [TableReplaced, LegWakesUp(0, ticket)]);
    RunTwo(s, TableReplaced, LegWakesUp(0, ticket));
    assert Step(s, TableReplaced) == s.(routing := s.routing.(rebuilt := true));
    RebuiltGroupRefuses(Step(s, TableReplaced), ticket);
  }

  lemma RebuiltGroupRefuses(s: System, ticket: Ticket)
    requires AsksInAGroup(s) && s.routing.rebuilt
    ensures var s' := Step(s, LegWakesUp(0, ticket));
            && 0 in s'.turns && s'.turns[0].asks == Asks(map[], {}, 1, map[0 := GroupRebuilt])
            && s'.turns[0].live && !s'.turns[0].closed && s'.turns[0].parking.holds == 0 && s'.routing.parked == map[]
  {
    var a := s.turns[0].asks;
    assert Unsent(a) == map[0 := Roots] && 0 in Unsent(a);
    assert Told(a, {0}, GroupRebuilt) == Asks(map[], {}, 1, map[0 := GroupRebuilt]);
  }

  // ---------------------------------------------------------------- answers

  /** Answers are final: a step adds some, changes and drops none, and only to requests that
      were waiting. */
  ghost predicate Grows(t: Turn, t': Turn) {
    && (forall k :: k in t.asks.answered ==> k in t'.asks.answered && t'.asks.answered[k] == t.asks.answered[k])
    && (forall k :: k in t'.asks.answered && k !in t.asks.answered ==> k in t.asks.pending && k !in t'.asks.pending)
  }

  ghost predicate AnswersOnlyGrow(s: System, s': System) {
    forall i :: i in s.turns ==> i in s'.turns && Grows(s.turns[i], s'.turns[i])
  }

  lemma EndGrows(r: Routing, i: nat, t: Turn)
    requires TurnKeeps(t)
    ensures Grows(t, End(r, i, t).1) && Grows(t, LegCancelled(r, i, t).1)
  {
  }

  lemma LegRefusesGrows(t: Turn, answer: Answer)
    requires TurnKeeps(t)
    ensures Grows(t, LegRefuses(t, answer))
  {
  }

  lemma HandsOnGrows(r: Routing, i: nat, t: Turn, ticket: Ticket)
    requires TurnKeeps(t)
    ensures Grows(t, HandsOn(r, i, t, ticket).1)
  {
    LegRefusesGrows(t, GroupRebuilt);
    LegRefusesGrows(t, TooManyTurnsWaiting);
  }

  lemma LegWakesGrows(r: Routing, i: nat, t: Turn, ticket: Ticket)
    requires TurnKeeps(t)
    ensures Grows(t, LegWakes(r, i, t, ticket).1)
  {
    HandsOnGrows(r, i, t, ticket);
  }

  lemma ResumeGrows(r: Routing, i: nat, t: Turn, caller: Option<Caller>, responses: map<Key, Response>)
    requires TurnKeeps(t)
    ensures Grows(t, Resume(r, i, t, caller, responses).1)
  {
  }

  /** The steps that answer nobody. */
  predicate AnswersNobody(e: Event) {
    !(e.LegWakesUp? || e.LegIsCancelled? || e.TurnExpires? || e.CallerRetries? || e.MemberLeft?)
  }

  lemma QuietStepAnswersNobody(s: System, e: Event)
    requires AnswersNobody(e)
    ensures forall i :: i in s.turns ==> i in Step(s, e).turns && Step(s, e).turns[i].asks.answered == s.turns[i].asks.answered
  {
    if LeavesTurns(e) {
      LeavingTurns(s, e);
    } else if e.DrainFires? || e.RunCallback? {
      ReleasingAnswersNobody(s, e);
    } else if Enabled(s, e) {
      match e
      case ChildAsks(kind, capable) => DeliverToOne(s, kind, capable);
      case RunEnds(_) =>
      case UpstreamWithdraws(_, _) =>
      case TurnStarts(_, _, _) =>
      case TurnIsAsked(_, _, _) =>
    }
  }

  lemma ReleasingAnswersNobody(s: System, e: Event)
    requires e.DrainFires? || e.RunCallback?
    ensures forall i :: i in s.turns ==> i in Step(s, e).turns && Step(s, e).turns[i].asks == s.turns[i].asks
  {
  }

  lemma PutGrows(s: System, i: nat, next: (Routing, Turn))
    requires i in s.turns && Grows(s.turns[i], next.1)
    ensures AnswersOnlyGrow(s, Put(s, i, next))
  {
  }

  lemma EndingAnswersOnce(s: System, e: Event)
    requires Inv(s) && Enabled(s, e) && (e.LegIsCancelled? || e.TurnExpires? || e.MemberLeft?)
    ensures AnswersOnlyGrow(s, Step(s, e))
  {
    var i := if e.MemberLeft? then s.routing.parked[e.ticket] else e.id;
    InvIsLocal(s, i);
    EndGrows(s.routing, i, s.turns[i]);
    PutGrows(s, i, if e.LegIsCancelled? then LegCancelled(s.routing, i, s.turns[i]) else End(s.routing, i, s.turns[i]));
  }

  lemma LegAnswersOnce(s: System, e: Event)
    requires Inv(s) && Enabled(s, e) && e.LegWakesUp?
    ensures AnswersOnlyGrow(s, Step(s, e))
  {
    InvIsLocal(s, e.id);
    LegWakesGrows(s.routing, e.id, s.turns[e.id], e.ticket);
  }

  lemma RetryAnswersOnce(s: System, e: Event)
    requires Inv(s) && Enabled(s, e) && e.CallerRetries?
    ensures AnswersOnlyGrow(s, Step(s, e))
  {
    var i := s.routing.parked[e.ticket];
    InvIsLocal(s, i);
    ResumeGrows(s.routing, i, s.turns[i], e.caller, e.responses);
    PutGrows(s, i, Resume(s.routing, i, s.turns[i], e.caller, e.responses));
  }

  lemma StepAnswersOnce(s: System, e: Event)
    requires Inv(s)
    ensures AnswersOnlyGrow(s, Step(s, e))
  {
    if AnswersNobody(e) {
      QuietStepAnswersNobody(s, e);
    } else if Enabled(s, e) {
      if e.LegWakesUp? {
        LegAnswersOnce(s, e);
      } else if e.CallerRetries? {
        RetryAnswersOnce(s, e);
      } else {
        EndingAnswersOnce(s, e);
      }
    }
  }

  /** Over a whole run, no request of the upstream is answered twice or differently. */
  lemma {:induction false} EveryRequestIsAnsweredOnce(s: System, events: seq<Event>, i: nat, k: Key)
    requires Inv(s) && i in s.turns && k in s.turns[i].asks.answered
    ensures i in RunAll(s, events).turns && k in RunAll(s, events).turns[i].asks.answered
    ensures RunAll(s, events).turns[i].asks.answered[k] == s.turns[i].asks.answered[k]
    decreases |events|
  {
    if events != [] {
      StepKeeps(s, events[0]);
      StepAnswersOnce(s, events[0]);
      EveryRequestIsAnsweredOnce(Step(s, events[0]), events[1..], i, k);
    }
  }

  /** The run ended, its result went to the caller, and nobody closed the turn. */
  predicate Served(t: Turn) {
    t.task.runDone && !t.live && t.parking.ticket.None? && !t.closed && !t.parking.expiry && !t.task.drain
  }

  lemma QuietStepLeavesServed(s: System, e: Event, i: nat)
    requires AnswersNobody(e) && i in s.turns && Served(s.turns[i])
    ensures i in Step(s, e).turns && Served(Step(s, e).turns[i])
  {
    if LeavesTurns(e) {
      LeavingTurns(s, e);
    } else if Enabled(s, e) {
      match e
      case ChildAsks(kind, capable) => DeliverToOne(s, kind, capable);
      case DrainFires(_) =>
      case RunCallback(_) =>
      case RunEnds(_) =>
      case UpstreamWithdraws(_, _) =>
      case TurnStarts(_, _, _) =>
      case TurnIsAsked(_, _, _) =>
    }
  }

  /** The turn an answering step is about. */
  function Answering(s: System, e: Event): nat
    requires Enabled(s, e) && !AnswersNobody(e)
  {
    if e.CallerRetries? || e.MemberLeft? then s.routing.parked[e.ticket] else e.id
  }

  lemma AnsweringStepIsAbout(s: System, e: Event)
    requires Enabled(s, e) && !AnswersNobody(e)
    ensures Step(s, e).turns.Keys == s.turns.Keys
    ensures forall i :: i in s.turns && i != Answering(s, e) ==> Step(s, e).turns[i] == s.turns[i]
  {
  }

  lemma NobodyAnswersServed(s: System, e: Event, i: nat)
    requires Inv(s) && i in s.turns && Served(s.turns[i]) && Enabled(s, e) && !AnswersNobody(e)
    ensures Answering(s, e) != i
  {
    InvIsLocal(s, i);
    NothingToAnswer(s, e, i);
  }

  lemma NothingToAnswer(s: System, e: Event, i: nat)
    requires i in s.turns && Served(s.turns[i]) && OwnTickets(s.routing, i, s.turns[i]) && Enabled(s, e) && !AnswersNobody(e)
    ensures Answering(s, e) != i
  {
  }

  lemma StepLeavesServed(s: System, e: Event, i: nat)
    requires Inv(s) && i in s.turns && Served(s.turns[i])
    ensures i in Step(s, e).turns && Served(Step(s, e).turns[i])
    ensures Step(s, e).turns[i].asks.answered == s.turns[i].asks.answered
  {
    if AnswersNobody(e) {
      QuietStepAnswersNobody(s, e);
      QuietStepLeavesServed(s, e, i);
    } else if Enabled(s, e) {
      AnsweringStepIsAbout(s, e);
      NobodyAnswersServed(s, e, i);
    }
  }

  /** The step ends the turn for good: its leg is cancelled, its retry is overdue, or a member it
      reached has left. */
  predicate EndsTurn(s: System, e: Event, i: nat) {
    Enabled(s, e) &&
    (e == LegIsCancelled(i) || e == TurnExpires(i) || (e.MemberLeft? && s.routing.parked[e.ticket] == i))
  }

  predicate RetriesTurn(s: System, e: Event, i: nat) {
    Enabled(s, e) && e.CallerRetries? && s.routing.parked[e.ticket] == i
  }

  /** What becomes of request `k` of a turn whose run is over while it waits. */
  ghost predicate Fate(s: System, e: Event, s': System, i: nat, k: Key)
    requires i in s.turns
  {
    i in s'.turns &&
    var (t, t') := (s.turns[i], s'.turns[i]);
    && (k in t'.asks.answered <==> EndsTurn(s, e, i) || (RetriesTurn(s, e, i) && k in t.asks.sent))
    && (k in t'.asks.pending && Served(t') <==> Enabled(s, e) && e.LegWakesUp? && e.id == i)
    && (k !in t'.asks.pending && k !in t'.asks.answered <==> Enabled(s, e) && e == UpstreamWithdraws(i, k))
  }

  /** While a leg is live or a retry is due: the next step answers the request exactly when it ends
      the turn, or is a retry the request was handed out for; and it leaves it unanswered for good
      exactly when it wakes the leg, which returns the result. */
  lemma LeftoverFateIff(s: System, e: Event, i: nat, k: Key)
    requires Inv(s) && i in s.turns && s.turns[i].task.runDone && k in s.turns[i].asks.pending && !Served(s.turns[i])
    ensures Fate(s, e, Step(s, e), i, k)
  {
    InvIsLocal(s, i);
    FateOfOne(s, e, i, k);
  }

  /** Some request of turn `i` waits after its run ended, and somebody may still answer it. */
  ghost predicate LeftOver(s: System, i: nat, k: Key) {
    && i in s.turns && s.turns[i].task.runDone && k in s.turns[i].asks.pending && k !in s.turns[i].asks.answered
    && TurnKeeps(s.turns[i]) && !Served(s.turns[i])
    && (forall ticket :: ticket in s.routing.parked && s.routing.parked[ticket] == i ==> s.turns[i].parking.ticket == Some(ticket))
  }

  lemma FateOfOne(s: System, e: Event, i: nat, k: Key)
    requires LeftOver(s, i, k)
    ensures Fate(s, e, Step(s, e), i, k)
  {
    if Enabled(s, e) {
      match e
      case LegWakesUp(_, _) => WakeFate(s, e, i, k);
      case LegIsCancelled(_) => EndFate(s, e, i, k);
      case TurnExpires(_) => EndFate(s, e, i, k);
      case MemberLeft(_) => EndFate(s, e, i, k);
      case CallerRetries(_, _, _) => RetryFate(s, e, i, k);
      case _ => QuietFate(s, e, i, k);
    }
  }

  lemma WakeFate(s: System, e: Event, i: nat, k: Key)
    requires LeftOver(s, i, k) && e.LegWakesUp? && Enabled(s, e)
    ensures Fate(s, e, Step(s, e), i, k)
  {
    assert e.id != i ==> Step(s, e).turns[i] == s.turns[i];
  }

  lemma EndFate(s: System, e: Event, i: nat, k: Key)
    requires LeftOver(s, i, k) && (e.LegIsCancelled? || e.TurnExpires? || e.MemberLeft?) && Enabled(s, e)
    ensures Fate(s, e, Step(s, e), i, k)
  {
    var j := if e.MemberLeft? then s.routing.parked[e.ticket] else e.id;
    assert j != i ==> Step(s, e).turns[i] == s.turns[i];
    if j == i {
      EndTells(s.routing, i, s.turns[i], k);
      EndTells(s.routing, i, s.turns[i].(live := false), k);
    }
  }

  lemma EndTells(r: Routing, i: nat, t: Turn, k: Key)
    requires !t.closed && k in t.asks.pending
    ensures var t' := End(r, i, t).1; t'.closed && k in t'.asks.answered && k !in t'.asks.pending
  {
  }

  lemma RetryFate(s: System, e: Event, i: nat, k: Key)
    requires LeftOver(s, i, k) && e.CallerRetries? && Enabled(s, e)
    ensures Fate(s, e, Step(s, e), i, k)
  {
    var j := s.routing.parked[e.ticket];
    assert j != i ==> Step(s, e).turns[i] == s.turns[i];
    if j == i {
      assert Step(s, e).turns[i].asks == SentTold(s.turns[i].asks, e.responses) && Step(s, e).turns[i].live;
    }
  }

  lemma QuietFate(s: System, e: Event, i: nat, k: Key)
    requires LeftOver(s, i, k) && Enabled(s, e) && AnswersNobody(e)
    ensures Fate(s, e, Step(s, e), i, k)
  {
    QuietStepAnswersNobody(s, e);
    QuietStepKeepsWaiting(s, e, i, k);
    FateWhenQuiet(s, e, Step(s, e), i, k);
  }

  lemma FateWhenQuiet(s: System, e: Event, s': System, i: nat, k: Key)
    requires i in s.turns && k in s.turns[i].asks.pending && k !in s.turns[i].asks.answered
    requires AnswersNobody(e) && i in s'.turns && !Served(s'.turns[i])
    requires s'.turns[i].asks.answered == s.turns[i].asks.answered
    requires Enabled(s, e) && (k in s'.turns[i].asks.pending <==> e != UpstreamWithdraws(i, k))
    ensures Fate(s, e, s', i, k)
  {
  }

  lemma QuietStepKeepsWaiting(s: System, e: Event, i: nat, k: Key)
    requires LeftOver(s, i, k) && Enabled(s, e) && AnswersNobody(e)
    ensures i in Step(s, e).turns && !Served(Step(s, e).turns[i])
    ensures k in Step(s, e).turns[i].asks.pending <==> e != UpstreamWithdraws(i, k)
  {
    if LeavesTurns(e) {
      LeavingTurns(s, e);
    } else {
      match e
      case ChildAsks(kind, capable) => DeliverToOne(s, kind, capable);
      case DrainFires(_) =>
      case RunCallback(_) =>
      case RunEnds(_) =>
      case UpstreamWithdraws(_, _) =>
      case TurnStarts(_, _, _) =>
      case TurnIsAsked(_, _, _) =>
    }
  }

  /** Such a request can be left over: the result goes out while the child's question waits. */
  lemma LeftoverRequest(caller: Caller, ticket: Ticket)
    ensures var s := RunAll(Init(true), AskingRun(caller) + [RunEnds(0), LegWakesUp(0, ticket)]);
            0 in s.turns && Served(s.turns[0]) && 0 in s.turns[0].asks.pending && 0 !in s.turns[0].asks.answered
  {
    var s := RunAll(Init(true), AskingRun(caller));
    RunBoth(Init(true), AskingRun(caller), [RunEnds(0), LegWakesUp(0, ticket)]);
    RunTwo(s, RunEnds(0), LegWakesUp(0, ticket));
    AskedTurn(caller);
    ResultGoesOut(s, ticket);
  }

  lemma ResultGoesOut(s: System, ticket: Ticket)
    requires 0 in s.turns && s.turns[0].live && !s.turns[0].task.runDone && s.routing.parked == map[]
    requires !s.turns[0].closed && s.turns[0].parking.ticket.None? && !s.turns[0].parking.expiry && !s.turns[0].task.drain
    ensures var s' := Step(Step(s, RunEnds(0)), LegWakesUp(0, ticket));
            0 in s'.turns && Served(s'.turns[0]) && s'.turns[0].asks == s.turns[0].asks
  {
  }

  /** Once the result is out, every later step leaves the requests still waiting to the upstream
      alone. */
  lemma {:induction false} LeftoverRequestsAreNeverAnswered(s: System, events: seq<Event>, i: nat)
    requires Inv(s) && i in s.turns && Served(s.turns[i])
    ensures i in RunAll(s, events).turns && RunAll(s, events).turns[i].asks.answered == s.turns[i].asks.answered
    decreases |events|
  {
    if events != [] {
      StepKeeps(s, events[0]);
      StepLeavesServed(s, events[0], i);
      LeftoverRequestsAreNeverAnswered(Step(s, events[0]), events[1..], i);
    }
  }
}
