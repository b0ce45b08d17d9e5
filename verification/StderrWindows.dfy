/**
 Which part of a serialised child's stderr each call gets (`_with_stderr`,
 backend/app/bridge/host.py), over every run of the bridge: a call's window opens as it begins, if
 no abandoned call is running, and ends where the call fails. Nothing but the lock and the
 abandoned calls keeps the windows apart.
 */
module StderrWindows {
  import opened Basics
  import opened TurnProtocol
  import opened BridgeSystem
  import opened BridgeInvariant
  import opened BridgeSafety
  import StderrTee

  /** The stream positions `[start, end)` a failed call of `holder` carries. */
  datatype Window = Window(holder: Holder, start: nat, end: nat)

  /** `stream` is what was pumped and `pipe` what waits; `begun` are the requests and turns that
      started their call, and `open` where the windows of those still under way start. */
  datatype State = State(
    bridge: System,
    stream: Bytes,
    pipe: Bytes,
    begun: set<Holder>,
    open: map<Holder, nat>,
    windows: seq<Window>)

  datatype Happening =
    | Bridge(event: Event)
    | Writes(bytes: Bytes)
    | Pumps(n: nat)
    | CallBegins(holder: Holder, tool: bool)
    | CallFails(holder: Holder)

  function Start(): State {
    State(Init(true), [], [], {}, map[], [])
  }

  /** `mark`: where the stream is, or as far as it was pumped where the platform can't say. */
  function MarkOf(tells: bool, s: State): nat {
    if tells then |s.stream| + |s.pipe| else |s.stream|
  }

  /** The holder's `_with_stderr` hasn't returned: a turn's run isn't over, or a request hasn't
      left. An abandoned turn's run goes on when the lock is long somebody else's. */
  predicate UnderWay(b: System, h: Holder) {
    match h
    case OfTurn(i) => i in b.turns && !b.turns[i].task.runDone
    case OfRequest(i) => Active(b, i)
  }

  /** A cancelled request ends without a result. */
  predicate Cancelled(b: System, h: Holder) {
    h.OfRequest? && h.id in b.requests && b.requests[h.id].draining
  }

  function Next(tells: bool, s: State, e: Happening): State {
    match e
    case Bridge(event) =>
      var b := Step(s.bridge, event);
      s.(bridge := b, open := map h | h in s.open && UnderWay(b, h) :: s.open[h])
    case Writes(bytes) => s.(pipe := s.pipe + bytes)
    case Pumps(n) =>
      if n <= |s.pipe| && n <= StderrTee.READ_BYTES then s.(stream := s.stream + s.pipe[..n], pipe := s.pipe[n..]) else s
    case CallBegins(h, tool) =>
      if !UnderWay(s.bridge, h) || h in s.begun then s
      else
        s.(begun := s.begun + {h},
           open := if tool && s.bridge.routing.abandoned == {} then s.open[h := MarkOf(tells, s)] else s.open)
    case CallFails(h) =>
      if h !in s.open || Cancelled(s.bridge, h) then s
      else s.(open := s.open - {h}, windows := s.windows + [Window(h, s.open[h], MarkOf(tells, s))])
  }

  function RunAll(tells: bool, s: State, events: seq<Happening>): State
    decreases |events|
  {
    if events == [] then s else RunAll(tells, Next(tells, s, events[0]), events[1..])
  }

  lemma MarkNeverDecreases(tells: bool, s: State, e: Happening)
    ensures MarkOf(tells, s) <= MarkOf(tells, Next(tells, s, e))
    ensures s.stream + s.pipe <= Next(tells, s, e).stream + Next(tells, s, e).pipe
  {
    match e
    case Pumps(n) => PumpingLosesNothing(s.stream, s.pipe, n);
    case Writes(bytes) => WritingComesLast(s.stream, s.pipe, bytes);
    case Bridge(_) =>
    case CallBegins(_, _) =>
    case CallFails(_) =>
  }

  lemma PumpingLosesNothing(stream: Bytes, pipe: Bytes, n: nat)
    ensures n <= |pipe| ==> stream + pipe[..n] + pipe[n..] == stream + pipe
  {
    if n <= |pipe| {
      assert pipe == pipe[..n] + pipe[n..];
    }
  }

  lemma WritingComesLast(stream: Bytes, pipe: Bytes, bytes: Bytes)
    ensures stream + pipe <= stream + (pipe + bytes)
  {
    assert (stream + pipe) + bytes == stream + (pipe + bytes);
  }

  // ---------------------------------------------------------------- one window at a time

  /** What is under way holds the lock, or its call is abandoned. */
  lemma HolderOrAbandoned(b: System, h: Holder)
    requires Inv(b) && b.routing.serialized && UnderWay(b, h)
    ensures b.routing.lock == Some(h) || b.routing.abandoned != {}
  {
    match h
    case OfTurn(i) => assert TurnOk(b.routing, i, b.turns[i]);
    case OfRequest(i) => assert RequestOk(b.routing, b.running, i, b.requests[i]);
  }

  predicate Abandons(e: Event) {
    e.DrainFires? || e.RequestDrainEnds?
  }

  lemma OtherStepsAbandonNothing(b: System, e: Event)
    requires !Abandons(e)
    ensures Step(b, e).routing.abandoned <= b.routing.abandoned
  {
    if LeavesTurns(e) {
      RequestStepsAbandonNothing(b, e);
    } else if Enabled(b, e) {
      match e
      case ChildAsks(kind, capable) => DeliverToOne(b, kind, capable);
      case LegWakesUp(_, _) =>
      case CallerRetries(_, _, _) =>
      case LegIsCancelled(_) =>
      case TurnExpires(_) =>
      case MemberLeft(_) =>
      case _ =>
    }
  }

  lemma RequestStepsAbandonNothing(b: System, e: Event)
    requires LeavesTurns(e) && !Abandons(e)
    ensures Step(b, e).routing.abandoned <= b.routing.abandoned
  {
  }

  lemma DrainFreesTheLock(b: System, i: nat)
    requires Inv(b) && b.routing.serialized && Enabled(b, DrainFires(i)) && b.routing.abandoned == {}
    ensures var b' := Step(b, DrainFires(i)); b'.routing.abandoned != {} ==> b'.routing.lock.None?
  {
    assert TurnOk(b.routing, i, b.turns[i]);
  }

  lemma RequestDrainFreesTheLock(b: System, i: nat)
    requires Inv(b) && Enabled(b, RequestDrainEnds(i))
    ensures Step(b, RequestDrainEnds(i)).routing.lock.None?
  {
    OnlyTheHolderIsActive(b, i);
  }

  /** A call is abandoned only as the lock is given back. */
  lemma AbandoningFreesTheLock(b: System, e: Event)
    requires Inv(b) && b.routing.serialized && b.routing.abandoned == {}
    ensures Step(b, e).routing.abandoned != {} ==> Step(b, e).routing.lock.None?
  {
    if !Abandons(e) {
      OtherStepsAbandonNothing(b, e);
    } else if Enabled(b, e) {
      match e
      case DrainFires(i) => DrainFreesTheLock(b, i);
      case RequestDrainEnds(i) => RequestDrainFreesTheLock(b, i);
    }
  }

  lemma UnderWayIsKnown(b: System, h: Holder)
    requires UnderWay(b, h)
    ensures KnownHolder(b, h)
  {
  }

  /** At most one window is open; its call is under way and began; and while that call holds the
      child, none is abandoned. */
  ghost predicate Alone(s: State) {
    && (forall h :: h in s.open ==> h in s.begun && UnderWay(s.bridge, h))
    && (forall g, h :: g in s.open && h in s.open ==> g == h)
    && (forall h :: h in s.open && s.bridge.routing.lock == Some(h) ==> s.bridge.routing.abandoned == {})
  }

  ghost predicate Sound(s: State) {
    Inv(s.bridge) && s.bridge.routing.serialized && Alone(s)
  }

  lemma BridgeKeepsAlone(s: State, b: System, event: Event, open: map<Holder, nat>)
    requires Sound(s) && b == Step(s.bridge, event)
    requires open.Keys <= s.open.Keys && forall h :: h in open ==> UnderWay(b, h)
    ensures Alone(s.(bridge := b, open := open))
  {
    forall h | h in open && b.routing.lock == Some(h)
      ensures b.routing.abandoned == {}
    {
      UnderWayIsKnown(s.bridge, h);
      StepMovesTheLock(s.bridge, event);
      assert s.bridge.routing.lock == Some(h);
      AbandoningFreesTheLock(s.bridge, event);
    }
  }

  /** A window opens only where none is: whatever else is under way would hold the lock as well. */
  lemma BeginKeepsAlone(tells: bool, s: State, h: Holder, tool: bool)
    requires Sound(s)
    ensures Alone(Next(tells, s, CallBegins(h, tool)))
  {
    if UnderWay(s.bridge, h) && h !in s.begun && s.bridge.routing.abandoned == {} {
      HolderOrAbandoned(s.bridge, h);
      forall g | g in s.open
        ensures s.bridge.routing.lock == Some(g)
      {
        HolderOrAbandoned(s.bridge, g);
      }
    }
    FirstWindow(tells, s, h, tool);
  }

  lemma FirstWindow(tells: bool, s: State, h: Holder, tool: bool)
    requires Alone(s)
    requires UnderWay(s.bridge, h) && h !in s.begun && s.bridge.routing.abandoned == {} ==>
               s.bridge.routing.lock == Some(h) && forall g :: g in s.open ==> s.bridge.routing.lock == Some(g)
    ensures Alone(Next(tells, s, CallBegins(h, tool)))
  {
  }

  lemma BridgeKeepsSound(tells: bool, s: State, event: Event)
    requires Sound(s)
    ensures Sound(Next(tells, s, Bridge(event)))
  {
    StepKeeps(s.bridge, event);
    StepStaysSerialized(s.bridge, event);
    var s' := Next(tells, s, Bridge(event));
    BridgeKeepsAlone(s, s'.bridge, event, s'.open);
  }

  lemma OthersKeepAlone(tells: bool, s: State, e: Happening)
    requires Alone(s) && (e.Writes? || e.Pumps? || e.CallFails?)
    ensures Alone(Next(tells, s, e)) && Next(tells, s, e).bridge == s.bridge
  {
  }

  lemma NextKeepsSound(tells: bool, s: State, e: Happening)
    requires Sound(s)
    ensures Sound(Next(tells, s, e))
  {
    match e
    case Bridge(event) => BridgeKeepsSound(tells, s, event);
    case CallBegins(h, tool) => BeginKeepsAlone(tells, s, h, tool);
    case _ => OthersKeepAlone(tells, s, e);
  }

  lemma {:induction false} EveryRunIsSound(tells: bool, s: State, events: seq<Happening>)
    requires Sound(s)
    ensures Sound(RunAll(tells, s, events))
    decreases |events|
  {
    if events != [] {
      NextKeepsSound(tells, s, events[0]);
      EveryRunIsSound(tells, Next(tells, s, events[0]), events[1..]);
    }
  }

  // ---------------------------------------------------------------- what that means

  /** In every run, while a window is open and its call holds the child, no other call is
      unfinished upstream: what the child writes then can only be for that call. */
  lemma WindowIsTheCallsOwn(tells: bool, events: seq<Happening>, h: Holder, call: Call)
    ensures var s := RunAll(tells, Start(), events);
            h in s.open && s.bridge.routing.lock == Some(h) && Unfinished(s.bridge, call) ==> HoldersCall(s.bridge, call)
  {
    var s := RunAll(tells, Start(), events);
    SoundAtTheEnd(tells, events);
    if h in s.open && s.bridge.routing.lock == Some(h) && Unfinished(s.bridge, call) {
      InvKeepsCalls(s.bridge, call);
    }
  }

  lemma NothingOpensWhileAbandoned(tells: bool, s: State, g: Holder, tool: bool)
    requires s.bridge.routing.abandoned != {}
    ensures Next(tells, s, CallBegins(g, tool)).open == s.open
  {
  }

  lemma SoundAtTheEnd(tells: bool, events: seq<Happening>)
    ensures Sound(RunAll(tells, Start(), events))
  {
    InitHolds(true);
    EveryRunIsSound(tells, Start(), events);
  }

  /** A window still open after its call lost the child is an abandoned call's, and until that one
      finishes no other window opens. */
  lemma OpenElsewhereMeansAbandoned(tells: bool, events: seq<Happening>, h: Holder, g: Holder, tool: bool)
    ensures var s := RunAll(tells, Start(), events);
            h in s.open && s.bridge.routing.lock != Some(h) ==>
              s.bridge.routing.abandoned != {} && Next(tells, s, CallBegins(g, tool)).open == s.open
  {
    var s := RunAll(tells, Start(), events);
    SoundAtTheEnd(tells, events);
    if h in s.open && s.bridge.routing.lock != Some(h) {
      HolderOrAbandoned(s.bridge, h);
      NothingOpensWhileAbandoned(tells, s, g, tool);
    }
  }

  /** There is such a window: a turn's leg is cancelled, and the child doesn't answer in time. */
  lemma AbandonedWindowStaysOpen(tells: bool, caller: Caller)
    ensures var s := RunAll(tells, Start(),
              [Bridge(TurnStarts(0, Some(caller), false)), CallBegins(OfTurn(0), true), Bridge(LegIsCancelled(0)), Bridge(DrainFires(0))]);
            OfTurn(0) in s.open && s.bridge.routing.lock.None?
  {
    var (a, b, c, d) := (Bridge(TurnStarts(0, Some(caller), false)), CallBegins(OfTurn(0), true), Bridge(LegIsCancelled(0)),
                         Bridge(DrainFires(0)));
    var s1 := Next(tells, Start(), a);
    var s2 := Next(tells, s1, b);
    var s3 := Next(tells, s2, c);
    var s4 := Next(tells, s3, d);
    assert [a, b, c, d] == [a] + [b, c, d] && [b, c, d] == [b] + [c, d] && [c, d] == [c] + [d] && [d] == [d] + [];
    RunOne(tells, Start(), a, [b, c, d]);
    RunOne(tells, s1, b, [c, d]);
    RunOne(tells, s2, c, [d]);
    RunOne(tells, s3, d, []);
    BeginsAndIsDropped(tells, caller);
  }

  lemma BeginsAndIsDropped(tells: bool, caller: Caller)
    ensures var s := Next(tells, Next(tells, Start(), Bridge(TurnStarts(0, Some(caller), false))), CallBegins(OfTurn(0), true));
            var t := Next(tells, Next(tells, s, Bridge(LegIsCancelled(0))), Bridge(DrainFires(0)));
            OfTurn(0) in t.open && t.bridge.routing.lock.None?
  {
    var b := Step(Init(true), TurnStarts(0, Some(caller), false));
    var b' := Step(b, LegIsCancelled(0));
    assert b'.turns[0].task.drain && !b'.turns[0].task.runDone && !b'.turns[0].task.released && b'.routing.serialized;
    assert Step(b', DrainFires(0)).routing.lock.None?;
  }

  lemma RunOne(tells: bool, s: State, e: Happening, rest: seq<Happening>)
    ensures RunAll(tells, s, [e] + rest) == RunAll(tells, Next(tells, s, e), rest)
  {
    assert ([e] + rest)[1..] == rest;
  }

  /** The windows follow one another, up to the open one and the present. */
  ghost predicate Follows(tells: bool, s: State) {
    && (forall k :: 0 <= k < |s.windows| ==> s.windows[k].start <= s.windows[k].end <= MarkOf(tells, s))
    && (forall j, k :: 0 <= j < k < |s.windows| ==> s.windows[j].end <= s.windows[k].start)
    && (forall h :: h in s.open ==> s.open[h] <= MarkOf(tells, s))
    && (forall h, k :: h in s.open && 0 <= k < |s.windows| ==> s.windows[k].end <= s.open[h])
  }

  lemma NextFollows(tells: bool, s: State, e: Happening)
    requires Alone(s) && Follows(tells, s)
    ensures Follows(tells, Next(tells, s, e))
  {
    MarkNeverDecreases(tells, s, e);
    match e
    case CallFails(h) => FailureFollows(tells, s, h);
    case CallBegins(_, _) =>
    case Bridge(_) =>
    case _ =>
  }

  lemma FailureFollows(tells: bool, s: State, h: Holder)
    requires Alone(s) && Follows(tells, s)
    ensures Follows(tells, Next(tells, s, CallFails(h)))
  {
  }

  lemma {:induction false} EveryRunFollows(tells: bool, s: State, events: seq<Happening>)
    requires Sound(s) && Follows(tells, s)
    ensures Follows(tells, RunAll(tells, s, events))
    decreases |events|
  {
    if events != [] {
      NextKeepsSound(tells, s, events[0]);
      NextFollows(tells, s, events[0]);
      EveryRunFollows(tells, Next(tells, s, events[0]), events[1..]);
    }
  }

  /** In every run a byte of the child's stderr is in the window of at most one failed call, and
      the windows come in the order the calls failed. */
  lemma WindowsNeverOverlap(tells: bool, events: seq<Happening>, j: nat, k: nat)
    ensures var s := RunAll(tells, Start(), events);
            j < k < |s.windows| ==>
              s.windows[j].start <= s.windows[j].end <= s.windows[k].start <= s.windows[k].end <= MarkOf(tells, s)
  {
    InitHolds(true);
    EveryRunFollows(tells, Start(), events);
  }

  // ---------------------------------------------------------------- what a failed call carries

  /** The run of the turn isn't over, or the request hasn't left. */
  predicate AtWork(b: System, h: Holder) {
    match h
    case OfTurn(i) => i in b.turns && !b.turns[i].task.runDone
    case OfRequest(i) => i in b.requests && !b.requests[i].over
  }

  /** Its request was cancelled, and drains. */
  predicate GivenUp(b: System, h: Holder) {
    match h
    case OfTurn(_) => false
    case OfRequest(i) => i in b.requests && b.requests[i].draining
  }

  /** A tool call that begins while none is abandoned opens its window where the stream is. */
  lemma BeginningOpensAWindow(tells: bool, s: State, h: Holder, tool: bool)
    requires AtWork(s.bridge, h) && h !in s.begun
    ensures var s' := Next(tells, s, CallBegins(h, tool));
            && s'.begun == s.begun + {h} && s' == s.(begun := s'.begun, open := s'.open)
            && if tool && s.bridge.routing.abandoned == {}
               then s'.open == s.open[h := if tells then |s.stream + s.pipe| else |s.stream|]
               else s'.open == s.open
  {
  }

  lemma StepKeepsTheStart(tells: bool, s: State, e: Happening, h: Holder)
    requires h in s.open && h in s.begun
    ensures var s' := Next(tells, s, e);
            && (h in s'.open ==> s'.open[h] == s.open[h]) && h in s'.begun && (h !in s'.open ==> e.Bridge? || e == CallFails(h))
  {
  }

  lemma StaysClosed(tells: bool, s: State, e: Happening, h: Holder)
    requires h in s.begun && h !in s.open
    ensures h in Next(tells, s, e).begun && h !in Next(tells, s, e).open
  {
  }

  lemma {:induction false} ClosedForGood(tells: bool, s: State, events: seq<Happening>, h: Holder)
    requires h in s.begun && h !in s.open
    ensures h !in RunAll(tells, s, events).open
    decreases |events|
  {
    if events != [] {
      StaysClosed(tells, s, events[0], h);
      ClosedForGood(tells, Next(tells, s, events[0]), events[1..], h);
    }
  }

  /** While a window is open, it starts where it started. */
  lemma {:induction false} StartIsKept(tells: bool, s: State, events: seq<Happening>, h: Holder)
    requires h in s.open && h in s.begun && h in RunAll(tells, s, events).open
    ensures RunAll(tells, s, events).open[h] == s.open[h]
    decreases |events|
  {
    if events != [] {
      var s' := Next(tells, s, events[0]);
      StepKeepsTheStart(tells, s, events[0], h);
      if h in s'.open {
        StartIsKept(tells, s', events[1..], h);
      } else {
        ClosedForGood(tells, s', events[1..], h);
      }
    }
  }

  /** A call that is over without failing leaves no window, nor does one that was given up. */
  lemma WindowsOfTheOthersGo(tells: bool, s: State, event: Event, h: Holder)
    ensures var s' := Next(tells, s, Bridge(event));
            && s'.bridge == Step(s.bridge, event) && s' == s.(bridge := s'.bridge, open := s'.open)
            && (h in s'.open <==> h in s.open && AtWork(s'.bridge, h))
    ensures GivenUp(s.bridge, h) ==> Next(tells, s, CallFails(h)) == s
  {
  }

  lemma FailureClosesTheWindow(tells: bool, t: State, h: Holder)
    requires h in t.open && !GivenUp(t.bridge, h)
    ensures var end := if tells then |t.stream + t.pipe| else |t.stream|;
            Next(tells, t, CallFails(h)) == t.(open := t.open - {h}, windows := t.windows + [Window(h, t.open[h], end)])
  {
  }

  /** A call whose window is still open as it fails carries the stream from where it was as the call
      began to where it is now, whatever happened in between. */
  lemma FailedCallCarriesItsTime(tells: bool, s: State, events: seq<Happening>, h: Holder)
    requires AtWork(s.bridge, h) && h !in s.begun && s.bridge.routing.abandoned == {}
    requires var t := RunAll(tells, Next(tells, s, CallBegins(h, true)), events); h in t.open && !GivenUp(t.bridge, h)
    ensures var t := RunAll(tells, Next(tells, s, CallBegins(h, true)), events);
            var (start, end) := if tells then (|s.stream + s.pipe|, |t.stream + t.pipe|) else (|s.stream|, |t.stream|);
            Next(tells, t, CallFails(h)).windows == t.windows + [Window(h, start, end)]
  {
    BeginningOpensAWindow(tells, s, h, true);
    StartIsKept(tells, Next(tells, s, CallBegins(h, true)), events, h);
    FailureClosesTheWindow(tells, RunAll(tells, Next(tells, s, CallBegins(h, true)), events), h);
  }

  /** What the child writes waits in the pipe, and what is pumped is what waited longest. */
  lemma BytesMoveInOrder(tells: bool, s: State, bytes: Bytes, n: nat)
    ensures Next(tells, s, Writes(bytes)) == s.(pipe := s.pipe + bytes)
    ensures n <= |s.pipe| && n <= 65536 ==>
              Next(tells, s, Pumps(n)) == s.(stream := s.stream + s.pipe[..n], pipe := s.pipe[n..])
  {
  }
}
