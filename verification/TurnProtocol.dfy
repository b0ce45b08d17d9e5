/**
 One modern caller's request across its round trips (`_Turn`, backend/app/bridge/host.py), and
 the routing state it shares with the other requests of the same stdio child (`_StdioRouting`).
 Each function is the code between two awaits.
 */
module TurnProtocol {
  import opened Basics

  const MAX_PARKED_TURNS: nat := 256
  const MAX_PENDING_PER_TURN: nat := 16

  type Caller = nat
  /** A `request_state` handed to a caller. */
  type Ticket = nat
  /** Names one of the upstream's requests within its turn. */
  type Key = nat

  datatype Kind = Roots | Sampling | Elicitation

  datatype Response = Response(kind: Kind, payload: int)

  datatype Answer =
    | FromClient(payload: int)
    | NoValidAnswer
    | ClientGone
    | TooManyTurnsWaiting
    | GroupRebuilt

  /** Who holds the serialisation lock. */
  datatype Holder = OfTurn(id: nat) | OfRequest(id: nat)

  /** An upstream call the bridge holds a future for: a turn's run, or one call of a
      handshake-era request. */
  datatype Call = Run(turn: nat) | Plain(id: nat)

  datatype LockEvent = Acquired(holder: Holder) | Released(holder: Holder)

  /** `lock` names the holder, which the asyncio lock itself doesn't, and `log` what happened to
      it. A proxy with a session per request has no routing: `serialized` is off, and only its
      parked table is used (`rebuilt` once a group's table was replaced). */
  datatype Routing = Routing(
    serialized: bool,
    lock: Option<Holder>,
    caller: Option<Caller>,
    turn: Option<nat>,
    parked: map<Ticket, nat>,
    rebuilt: bool,
    abandoned: set<Call>,
    log: seq<LockEvent>)

  /** The upstream's requests within a turn: those waiting, those handed to the caller, and every
      answer given. */
  datatype Asks = Asks(pending: map<Key, Kind>, sent: set<Key>, nextKey: Key, answered: map<Key, Answer>)

  /** `ticket` is set while the turn is parked; `holds`/`lets` count the calls that keep group
      members awake and let them go. */
  datatype Parking = Parking(ticket: Option<Ticket>, expiry: bool, held: bool, holds: nat, lets: nat)

  /** The upstream call the turn runs, its done-callback, and the lock it runs under. */
  datatype Task = Task(runDone: bool, callbackRan: bool, drain: bool, released: bool)

  /** `live` says whether a leg of the caller is waiting. */
  datatype Turn = Turn(
    holding: bool,
    caller: Option<Caller>,
    asked: bool,
    closed: bool,
    live: bool,
    asks: Asks,
    parking: Parking,
    task: Task)

  // ---------------------------------------------------------------- the pieces of a turn

  function NewTurn(holding: bool, caller: Option<Caller>): Turn {
    Turn(holding, caller, false, false, true, Asks(map[], {}, 0, map[]), Parking(None, false, false, 0, 0),
         Task(false, false, false, false))
  }

  /** The same answer for every one of `keys`. */
  function AllTold(keys: set<Key>, answer: Answer): map<Key, Answer> {
    map k | k in keys :: answer
  }

  /** Answer the requests in `keys`; each woken request takes itself out of `pending`. */
  function Told(a: Asks, keys: set<Key>, answer: Answer): Asks {
    a.(pending := a.pending - keys, answered := a.answered + AllTold(keys * a.pending.Keys, answer))
  }

  function AnswerAll(t: Turn, keys: set<Key>, answer: Answer): Turn {
    t.(asks := Told(t.asks, keys, answer))
  }

  function Unparked(p: Parking): Parking {
    Parking(None, false, false, p.holds, if p.held then p.lets + 1 else p.lets)
  }

  function Parked(p: Parking, ticket: Ticket, holding: bool): Parking {
    Parking(Some(ticket), true, holding, if holding then p.holds + 1 else p.holds, p.lets)
  }

  function UnparkTurn(t: Turn): Turn {
    t.(parking := Unparked(t.parking))
  }

  function UnparkRouting(r: Routing, t: Turn): Routing {
    if t.parking.ticket.Some? then r.(parked := r.parked - {t.parking.ticket.value}) else r
  }

  function ClearSlots(r: Routing, id: nat): Routing {
    if r.turn == Some(id) then r.(caller := None, turn := None) else r
  }

  function Unlock(r: Routing): Routing {
    if r.lock.Some? then r.(lock := None, log := r.log + [Released(r.lock.value)]) else r
  }

  function RunOver(t: Turn): Turn {
    t.(task := t.task.(runDone := true))
  }

  function CallbackOver(t: Turn): Turn {
    t.(task := t.task.(callbackRan := true))
  }

  function DrainOver(t: Turn): Turn {
    t.(task := t.task.(drain := false))
  }

  // ---------------------------------------------------------------- a turn's steps

  /** `_release`: once, empty the slots and give the lock back. */
  function Release(r: Routing, id: nat, t: Turn): (Routing, Turn) {
    if t.task.released || !r.serialized then (r, t)
    else (Unlock(ClearSlots(r, id)), t.(task := t.task.(released := true)))
  }

  /** `_finished`, the done-callback of the run. */
  function Finished(r: Routing, id: nat, t: Turn): (Routing, Turn) {
    Release(r, id, CallbackOver(t))
  }

  /** `_drained`: the child had its time to finish a call its caller gave up. */
  function Drained(r: Routing, id: nat, t: Turn): (Routing, Turn) {
    if t.task.runDone then (r, DrainOver(t))
    else Release(r.(abandoned := r.abandoned + {Run(id)}), id, DrainOver(t))
  }

  /** `end`: the caller is gone. */
  function End(r: Routing, id: nat, t: Turn): (Routing, Turn) {
    var (r1, t1) := (UnparkRouting(r, t), UnparkTurn(t));
    if t.closed then (r1, t1)
    else
      var t2 := t1.(closed := true, asks := Told(t.asks, t.asks.pending.Keys, ClientGone));
      if t.task.runDone || !r.serialized then (r1, t2)
      else (ClearSlots(r1, id), t2.(task := t.task.(drain := true)))
  }

  /** `ask`, up to its wait: the key the request waits under, if it may wait. */
  function Ask(t: Turn, kind: Kind, capable: bool): (Turn, Option<Key>) {
    var a := t.asks;
    if t.closed || t.caller.None? || !capable || |a.pending| >= MAX_PENDING_PER_TURN then (t, None)
    else
      (t.(asked := true, asks := a.(pending := a.pending[a.nextKey := kind], nextKey := a.nextKey + 1)), Some(a.nextKey))
  }

  /** The upstream gave up on one of its requests. */
  function Withdraw(t: Turn, key: Key): Turn {
    t.(asks := t.asks.(pending := t.asks.pending - {key}))
  }

  datatype LegOutcome = Returns | Waits | Parks(requests: map<Key, Kind>)

  /** What the leg would hand to the caller. */
  function Unsent(a: Asks): map<Key, Kind> {
    a.pending - a.sent
  }

  function LegRefuses(t: Turn, answer: Answer): Turn {
    t.(asked := false, asks := Told(t.asks, Unsent(t.asks).Keys, answer))
  }

  function LegParks(t: Turn, ticket: Ticket): Turn {
    t.(asked := false, live := false, asks := t.asks.(sent := t.asks.sent + Unsent(t.asks).Keys),
       parking := Parked(t.parking, ticket, t.holding))
  }

  /** The leg hands on what the upstream asks, where the turn may park. */
  function HandsOn(r: Routing, id: nat, t: Turn, ticket: Ticket): (Routing, Turn, LegOutcome) {
    if r.rebuilt then (r, LegRefuses(t, GroupRebuilt), Waits)
    else if |r.parked| >= MAX_PARKED_TURNS then (r, LegRefuses(t, TooManyTurnsWaiting), Waits)
    else (r.(parked := r.parked[ticket := id]), LegParks(t, ticket), Parks(Unsent(t.asks)))
  }

  /** `leg`, from a wake-up to its next wait or its end. */
  function LegWakes(r: Routing, id: nat, t: Turn, ticket: Ticket): (Routing, Turn, LegOutcome) {
    if t.task.runDone then (r, t.(live := false), Returns)
    else if Unsent(t.asks) == map[] then (r, t.(asked := false), Waits)
    else HandsOn(r, id, t, ticket)
  }

  /** The leg was cancelled. */
  function LegCancelled(r: Routing, id: nat, t: Turn): (Routing, Turn) {
    End(r, id, t.(live := false))
  }

  function AnswerFor(kind: Kind, key: Key, responses: map<Key, Response>): Answer {
    if key in responses && responses[key].kind == kind then FromClient(responses[key].payload) else NoValidAnswer
  }

  /** Each of `keys` its own answer, among those the caller sent. */
  function EachTold(keys: set<Key>, pending: map<Key, Kind>, responses: map<Key, Response>): map<Key, Answer>
    requires keys <= pending.Keys
  {
    map k | k in keys :: AnswerFor(pending[k], k, responses)
  }

  function SentTold(a: Asks, responses: map<Key, Response>): Asks {
    a.(pending := a.pending - a.sent, sent := {},
       answered := a.answered + EachTold(a.sent * a.pending.Keys, a.pending, responses))
  }

  /** A turn that holds the caller slot now asks `caller`. */
  function Readdress(r: Routing, id: nat, caller: Option<Caller>): Routing {
    if r.serialized && r.turn == Some(id) then r.(caller := caller) else r
  }

  /** `resume`: the caller retried, with its answers to what it was handed. */
  function Resume(r: Routing, id: nat, t: Turn, caller: Option<Caller>, responses: map<Key, Response>): (Routing, Turn) {
    (Readdress(UnparkRouting(r, t), id, caller),
     t.(caller := caller, live := true, asks := SentTold(t.asks, responses), parking := Unparked(t.parking)))
  }

  // ---------------------------------------------------------------- what every turn keeps

  /** Every key handed out is waiting, answered or withdrawn, and answered only once it stopped
      waiting. */
  predicate Accounted(a: Asks) {
    && (forall k :: k in a.pending ==> k < a.nextKey)
    && (forall k :: k in a.answered ==> k < a.nextKey)
    && a.pending.Keys !! a.answered.Keys
    && |a.pending| <= MAX_PENDING_PER_TURN
  }

  predicate TurnKeeps(t: Turn) {
    var (p, task) := (t.parking, t.task);
    && Accounted(t.asks)
    && (t.closed ==> t.asks.pending == map[])
    && (p.ticket.Some? <==> p.expiry)
    && (p.held <==> p.ticket.Some? && t.holding)
    && p.holds == p.lets + (if p.held then 1 else 0)
    && (p.ticket.Some? ==> !t.closed && !t.live)
    && (t.live ==> !t.closed)
    && (p.ticket.None? && !t.closed ==> t.asks.sent == {})
    && (task.drain ==> t.closed)
    && (task.callbackRan ==> task.runDone)
  }
}
