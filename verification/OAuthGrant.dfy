/**
 The stored OAuth credential of one remote server against everything that can happen while a
 sign-in is under way (backend/app/auth/oauth_flow.py, backend/app/api/servers.py,
 backend/app/auth/oauth_store.py): edits, transfers, disconnects and the server's deletion.
 Database commits run in worker threads; handlers go on, and clear the credential file, on the
 event loop.
 */
module OAuthGrant {
  import opened Basics

  type Owner = Option<nat>
  /** The OAuth-relevant configuration: upstream, scopes, client. */
  type Signature = nat

  datatype Row = Row(owner: Owner, sig: Signature)

  /** What a sign-in remembers of the moment it began. `inThread` is set once its grant is being
      promoted, which a cancellation no longer stops. */
  datatype Flow = Flow(owner: Owner, sig: Signature, existed: bool, live: bool, granted: bool, inThread: bool)

  /** The tokens of sign-in `flow`: whose it was, and for which configuration. */
  datatype Grant = Grant(flow: nat, owner: Owner, sig: Signature)

  /** The stored grant, and the configuration the client registration was obtained for. */
  datatype File = File(tokens: Option<Grant>, client: Option<Signature>)

  /** `loaded` are handlers that read the row and are about to begin; `writing` is the flow between
      the check and the write of its client registration, which the event loop doesn't leave;
      `cleanups` counts edits that committed and have not cleared the file yet; `installs` is every
      grant ever written to the file. */
  datatype State = State(
    row: Option<Row>,
    file: Option<File>,
    flows: map<nat, Flow>,
    loaded: map<nat, Row>,
    writing: Option<nat>,
    cleanups: nat,
    deleting: bool,
    finished: bool,
    installs: seq<Grant>)

  /** A promotion may bring a client of its own (`brings`), or carry the stored one forward. */
  datatype Event =
    | Loads(id: nat)
    | Begins(id: nat)
    | Granted(id: nat)
    | ChecksRegistration(id: nat)
    | WritesRegistration
    | StartsPromotion(id: nat)
    | Promotes(id: nat, brings: bool)
    | Edits(sig: Signature)
    | Clears
    | Transfers(owner: Owner)
    | Cancels
    | Disconnects
    | DeleteCommits
    | DeleteFinishes

  function Init(row: Row): State {
    State(Some(row), None, map[], map[], None, 0, false, false, [])
  }

  /** `_promotion_blocked`, on the committed row. */
  predicate Blocked(row: Option<Row>, f: Flow) {
    if row.None? then f.existed else row.value.owner != f.owner || row.value.sig != f.sig
  }

  /** Every registered flow of the server is cancelled. */
  function Cancelled(flows: map<nat, Flow>): map<nat, Flow> {
    map k | k in flows :: flows[k].(live := false)
  }

  predicate Enabled(s: State, e: Event) {
    match e
    case Loads(id) => s.writing.None? && s.row.Some? && id !in s.loaded && id !in s.flows
    case Begins(id) => s.writing.None? && id in s.loaded && id !in s.flows
    case Granted(id) => s.writing.None? && id in s.flows && s.flows[id].live
    case ChecksRegistration(id) =>
      s.writing.None? && id in s.flows && s.flows[id].live && !Blocked(s.row, s.flows[id])
    case WritesRegistration => s.writing.Some?
    case StartsPromotion(id) => s.writing.None? && id in s.flows && s.flows[id].live && s.flows[id].granted
    case Promotes(id, _) => id in s.flows && s.flows[id].inThread
    case Edits(_) => s.row.Some?
    case Clears => s.writing.None? && s.cleanups > 0
    case Transfers(_) => s.row.Some?
    case Cancels => s.writing.None?
    case Disconnects => s.writing.None? && s.row.Some?
    case DeleteCommits => s.row.Some?
    case DeleteFinishes => s.writing.None? && s.deleting
  }

  function Parts(file: Option<File>): File {
    if file.Some? then file.value else File(None, None)
  }

  function Step(s: State, e: Event): State {
    if !Enabled(s, e) then s
    else
      match e
      case Loads(id) => s.(loaded := s.loaded[id := s.row.value])
      case Begins(id) =>
        s.(flows := Cancelled(s.flows)[id := Flow(s.loaded[id].owner, s.loaded[id].sig, s.row.Some?, true, false, false)],
           loaded := s.loaded - {id})
      case Granted(id) => s.(flows := s.flows[id := s.flows[id].(granted := true)])
      case ChecksRegistration(id) => s.(writing := Some(id))
      case WritesRegistration =>
        if s.writing.value in s.flows
        then s.(writing := None, file := Some(Parts(s.file).(client := Some(s.flows[s.writing.value].sig))))
        else s.(writing := None)
      case StartsPromotion(id) => s.(flows := s.flows[id := s.flows[id].(inThread := true)])
      case Promotes(id, brings) =>
        var f := s.flows[id];
        var done := s.(flows := s.flows[id := f.(inThread := false)]);
        if Blocked(s.row, f) then done
        else
          var grant := Grant(id, f.owner, f.sig);
          done.(file := Some(File(Some(grant), if brings then Some(f.sig) else Parts(s.file).client)),
                installs := s.installs + [grant])
      case Edits(sig) =>
        if sig == s.row.value.sig then s
        else s.(row := Some(s.row.value.(sig := sig)), cleanups := s.cleanups + 1)
      case Clears => s.(file := None, cleanups := s.cleanups - 1)
      case Transfers(owner) => s.(row := Some(s.row.value.(owner := owner)))
      case Cancels => s.(flows := Cancelled(s.flows))
      case Disconnects => s.(flows := Cancelled(s.flows), file := None)
      case DeleteCommits => s.(row := None, deleting := true)
      case DeleteFinishes => s.(flows := Cancelled(s.flows), file := None, deleting := false, finished := true)
  }

  function RunAll(s: State, events: seq<Event>): State
    decreases |events|
  {
    if events == [] then s else RunAll(Step(s, events[0]), events[1..])
  }

  // ---------------------------------------------------------------- what every step keeps

  /** Some sign-in began, on a row it had read before, when the server was already gone. */
  ghost predicate BegunTooLate(s: State) {
    exists id :: id in s.flows && !s.flows[id].existed
  }

  ghost predicate Inv(s: State) {
    && (s.deleting || s.finished ==> s.row.None?)
    && (s.row.None? ==> s.deleting || s.finished)
    && !(s.deleting && s.finished)
    && (s.writing.Some? ==> s.writing.value in s.flows)
    && (s.row.Some? ==> !BegunTooLate(s))
    && (s.finished && (s.file.Some? || s.writing.Some?) ==> BegunTooLate(s))
    && (s.row.Some? && s.cleanups == 0 ==>
          && (s.file.Some? && s.file.value.tokens.Some? ==> s.file.value.tokens.value.sig == s.row.value.sig)
          && (s.file.Some? && s.file.value.client.Some? ==> s.file.value.client.value == s.row.value.sig)
          && (s.writing.Some? ==> s.flows[s.writing.value].sig == s.row.value.sig))
  }

  lemma LateStaysLate(flows: map<nat, Flow>, flows': map<nat, Flow>)
    requires forall id :: id in flows ==> id in flows' && flows'[id].existed == flows[id].existed
    ensures (exists id :: id in flows && !flows[id].existed) ==> exists id :: id in flows' && !flows'[id].existed
  {
  }

  lemma BeginKeeps(s: State, e: Event)
    requires Inv(s) && Enabled(s, e) && (e.Loads? || e.Begins? || e.Granted? || e.StartsPromotion?)
    ensures Inv(Step(s, e))
  {
    LateStaysLate(s.flows, Step(s, e).flows);
  }

  lemma RegistrationKeeps(s: State, e: Event)
    requires Inv(s) && Enabled(s, e) && (e.ChecksRegistration? || e.WritesRegistration?)
    ensures Inv(Step(s, e))
  {
    LateStaysLate(s.flows, Step(s, e).flows);
    if e.ChecksRegistration? && s.finished {
      assert !s.flows[e.id].existed;
    }
  }

  lemma PromotedForTheRow(s: State, e: Event)
    requires Inv(s) && Enabled(s, e) && e.Promotes? && !Blocked(s.row, s.flows[e.id])
    ensures if s.row.Some? then s.row.value.sig == s.flows[e.id].sig else !s.flows[e.id].existed
  {
  }

  lemma PromotionKeeps(s: State, e: Event)
    requires Inv(s) && Enabled(s, e) && e.Promotes?
    ensures Inv(Step(s, e))
  {
    var s' := Step(s, e);
    LateStaysLate(s.flows, s'.flows);
    if !Blocked(s.row, s.flows[e.id]) {
      PromotedForTheRow(s, e);
      assert s.finished ==> !s'.flows[e.id].existed;
    }
  }

  lemma FlowStepKeeps(s: State, e: Event)
    requires Inv(s) && Enabled(s, e)
    requires e.Loads? || e.Begins? || e.Granted? || e.ChecksRegistration? || e.WritesRegistration? || e.StartsPromotion? || e.Promotes?
    ensures Inv(Step(s, e))
  {
    if e.Promotes? {
      PromotionKeeps(s, e);
    } else if e.ChecksRegistration? || e.WritesRegistration? {
      RegistrationKeeps(s, e);
    } else {
      BeginKeeps(s, e);
    }
  }

  lemma RowStepKeeps(s: State, e: Event)
    requires Inv(s) && Enabled(s, e)
    requires e.Edits? || e.Clears? || e.Transfers? || e.Cancels? || e.Disconnects? || e.DeleteCommits? || e.DeleteFinishes?
    ensures Inv(Step(s, e))
  {
    LateStaysLate(s.flows, Step(s, e).flows);
    if BegunTooLate(Step(s, e)) {
      var id :| id in Step(s, e).flows && !Step(s, e).flows[id].existed;
      assert id in s.flows && !s.flows[id].existed;
    }
  }

  lemma StepKeeps(s: State, e: Event)
    requires Inv(s)
    ensures Inv(Step(s, e))
  {
    if Enabled(s, e) {
      if e.Edits? || e.Clears? || e.Transfers? || e.Cancels? || e.Disconnects? || e.DeleteCommits? || e.DeleteFinishes? {
        RowStepKeeps(s, e);
      } else {
        FlowStepKeeps(s, e);
      }
    }
  }

  lemma {:induction false} EveryRunKeeps(s: State, events: seq<Event>)
    requires Inv(s)
    ensures Inv(RunAll(s, events))
    decreases |events|
  {
    if events != [] {
      StepKeeps(s, events[0]);
      EveryRunKeeps(Step(s, events[0]), events[1..]);
    }
  }

  // ---------------------------------------------------------------- step by step, from the outside

  /** Owner and configuration are what the sign-in began with, or it began with none to compare. */
  predicate StillFits(row: Option<Row>, f: Flow) {
    match row
    case Some(now) => now.owner == f.owner && now.sig == f.sig
    case None => !f.existed
  }

  /** A promotion installs the grant exactly when the row still fits its sign-in, with the client
      registration it brings or the stored one; otherwise the credential stays as it is. */
  lemma PromotionInstallsIff(s: State, id: nat, brings: bool)
    requires id in s.flows && s.flows[id].inThread
    ensures var (s', f) := (Step(s, Promotes(id, brings)), s.flows[id]);
            && s' == s.(flows := s.flows[id := f.(inThread := false)], file := s'.file, installs := s'.installs)
            && if StillFits(s.row, f) then
                 && s'.installs == s.installs + [Grant(id, f.owner, f.sig)]
                 && s'.file.Some? && s'.file.value.tokens == Some(Grant(id, f.owner, f.sig))
                 && s'.file.value.client ==
                    (if brings then Some(f.sig) else if s.file.Some? then s.file.value.client else None)
               else s'.file == s.file && s'.installs == s.installs
  {
  }

  /** A sign-in begins with what its handler read, and looks whether the row is there then; it
      supersedes every other. A live one that was granted goes on to its promotion, which nothing
      stops any more. */
  lemma SignInsGoOn(s: State, id: nat)
    requires s.writing.None?
    ensures s.row.Some? && id !in s.loaded && id !in s.flows ==>
              Step(s, Loads(id)) == s.(loaded := s.loaded[id := s.row.value])
    ensures id in s.loaded && id !in s.flows ==>
              var s' := Step(s, Begins(id));
              && s' == s.(flows := s'.flows, loaded := s'.loaded) && s'.loaded.Keys == s.loaded.Keys - {id}
              && s'.flows.Keys == s.flows.Keys + {id} && (forall k :: k in s.flows ==> s'.flows[k] == s.flows[k].(live := false))
              && s'.flows[id] == Flow(s.loaded[id].owner, s.loaded[id].sig, s.row != None, true, false, false)
    ensures id in s.flows && s.flows[id].live ==>
              Step(s, Granted(id)) == s.(flows := s.flows[id := s.flows[id].(granted := true)])
    ensures id in s.flows && s.flows[id].live && s.flows[id].granted ==>
              Step(s, StartsPromotion(id)) == s.(flows := s.flows[id := s.flows[id].(inThread := true)])
  {
  }

  /** A live sign-in's client registration is stored beside whatever tokens there are, if the row still
      fits as it is checked. */
  lemma RegistrationIsStoredIff(s: State, id: nat)
    requires s.writing.None? && id in s.flows && s.flows[id].live
    ensures var s' := Step(s, ChecksRegistration(id));
            if StillFits(s.row, s.flows[id]) then
              && s' == s.(writing := Some(id))
              && var t := Step(s', WritesRegistration);
                 && t == s.(file := t.file) && t.file.Some? && t.file.value.client == Some(s.flows[id].sig)
                 && t.file.value.tokens == if s.file.Some? then s.file.value.tokens else None
            else s' == s
  {
  }

  /** An edit of the configuration owes a clearing; a transfer leaves the credential alone; and a
      deleted row is cleaned up after. */
  lemma RowsChange(s: State, sig: Signature, owner: Owner)
    requires s.row.Some?
    ensures Step(s, Edits(sig)) ==
            if sig == s.row.value.sig then s
            else s.(row := Some(Row(s.row.value.owner, sig)), cleanups := s.cleanups + 1)
    ensures Step(s, Transfers(owner)) == s.(row := Some(Row(owner, s.row.value.sig)))
    ensures Step(s, DeleteCommits) == s.(row := None, deleting := true)
  {
  }

  ghost predicate AllStopped(s: State, s': State) {
    s'.flows.Keys == s.flows.Keys && forall k :: k in s.flows ==> s'.flows[k] == s.flows[k].(live := false)
  }

  /** What clears the credential, and what stops the sign-ins that haven't started their promotion. */
  lemma CredentialIsCleared(s: State)
    requires s.writing.None?
    ensures s.cleanups > 0 ==> Step(s, Clears) == s.(file := None, cleanups := s.cleanups - 1)
    ensures var s' := Step(s, Cancels); AllStopped(s, s') && s' == s.(flows := s'.flows)
    ensures s.row.Some? ==> var s' := Step(s, Disconnects); AllStopped(s, s') && s' == s.(flows := s'.flows, file := None)
    ensures s.deleting ==>
              var s' := Step(s, DeleteFinishes);
              AllStopped(s, s') && s' == s.(flows := s'.flows, file := None, deleting := false, finished := true)
  {
  }

  /** Between the check of a registration and its write only other threads take steps. */
  lemma WriteFollowsItsCheck(s: State, e: Event)
    requires s.writing.Some? && !e.WritesRegistration?
    requires !e.Promotes? && !e.Edits? && !e.Transfers? && !e.DeleteCommits?
    ensures Step(s, e) == s
  {
  }

  /** A sign-in nothing came between is installed. */
  lemma UndisturbedSignInIsInstalled(s: State, id: nat, brings: bool)
    requires s.writing.None? && id in s.loaded && id !in s.flows && s.row == Some(s.loaded[id])
    ensures var t := RunAll(s, [Begins(id), Granted(id), StartsPromotion(id), Promotes(id, brings)]);
            && t.row == s.row && t.file.Some?
            && t.file.value.tokens == Some(Grant(id, s.row.value.owner, s.row.value.sig))
  {
    var s1 := Step(s, Begins(id));
    var s2 := Step(s1, Granted(id));
    var s3 := Step(s2, StartsPromotion(id));
    RunOne(s, Begins(id), [Granted(id), StartsPromotion(id), Promotes(id, brings)]);
    RunOne(s1, Granted(id), [StartsPromotion(id), Promotes(id, brings)]);
    RunOne(s2, StartsPromotion(id), [Promotes(id, brings)]);
    RunOne(s3, Promotes(id, brings), []);
    SignInsGoOn(s, id);
    SignInsGoOn(s1, id);
    SignInsGoOn(s2, id);
    PromotionInstallsIff(s3, id, brings);
  }

  // ---------------------------------------------------------------- what that means

  lemma StepKeepsSnapshots(s: State, e: Event, id: nat)
    requires id in s.flows
    ensures id in Step(s, e).flows && SameBeginning(s.flows[id], Step(s, e).flows[id])
  {
    if Enabled(s, e) && (e.Begins? || e.Granted? || e.StartsPromotion? || e.Promotes?) {
      assert Step(s, e).flows.Keys == s.flows.Keys + {e.id};
      assert e.id != id ==> SameBeginning(s.flows[id], Step(s, e).flows[id]);
    }
  }

  predicate SameBeginning(f: Flow, f': Flow) {
    f'.owner == f.owner && f'.sig == f.sig && f'.existed == f.existed
  }

  /** What a sign-in remembers of its beginning stays as it was. */
  lemma {:induction false} SnapshotsAreKept(s: State, events: seq<Event>, id: nat)
    requires id in s.flows
    ensures var flows := RunAll(s, events).flows;
            id in flows && SameBeginning(s.flows[id], flows[id])
    decreases |events|
  {
    if events != [] {
      StepKeepsSnapshots(s, events[0], id);
      SnapshotsAreKept(Step(s, events[0]), events[1..], id);
    }
  }

  /** Every write of a grant, over a stored one too, is the promotion of the sign-in it is from,
      while owner and configuration are what they were when that sign-in began, or by one that
      began with no row to compare. */
  lemma GrantsAreInstalledForWhatTheyWereBegun(row: Row, events: seq<Event>, e: Event)
    ensures var s := RunAll(Init(row), events);
            var s' := Step(s, e);
            s'.installs != s.installs ||
            (s'.file.Some? && s'.file.value.tokens.Some? && (s.file.None? || s.file.value.tokens != s'.file.value.tokens)) ==>
              && e.Promotes? && e.id in s.flows
              && var f := s.flows[e.id];
                 && s'.installs == s.installs + [Grant(e.id, f.owner, f.sig)]
                 && s'.file.Some? && s'.file.value.tokens == Some(Grant(e.id, f.owner, f.sig))
                 && if f.existed then s.row == Some(Row(f.owner, f.sig)) else s.row.None?
  {
    EveryRunKeeps(Init(row), events);
    var s := RunAll(Init(row), events);
    assert Inv(s);
  }

  lemma StepKeepsLastInstalled(s: State, e: Event)
    requires LastInstalled(s)
    ensures LastInstalled(Step(s, e))
  {
  }

  /** Stored tokens are those installed last. */
  lemma {:induction false} StoredIsTheLastInstalled(s: State, events: seq<Event>)
    requires LastInstalled(s)
    ensures LastInstalled(RunAll(s, events))
    decreases |events|
  {
    if events != [] {
      StepKeepsLastInstalled(s, events[0]);
      StoredIsTheLastInstalled(Step(s, events[0]), events[1..]);
    }
  }

  predicate LastInstalled(s: State) {
    s.file.Some? && s.file.value.tokens.Some? ==> s.installs != [] && s.file.value.tokens.value == s.installs[|s.installs| - 1]
  }

  /** Unless an edit has yet to clear the file, what is stored was obtained for the server's
      present configuration, the client registration too. */
  lemma StoredForThePresentConfiguration(row: Row, events: seq<Event>)
    ensures var s := RunAll(Init(row), events);
            s.row.Some? && s.file.Some? && s.cleanups == 0 ==>
              && (s.file.value.tokens.Some? ==> s.file.value.tokens.value.sig == s.row.value.sig)
              && (s.file.value.client.Some? ==> s.file.value.client.value == s.row.value.sig)
  {
    EveryRunKeeps(Init(row), events);
  }

  /** Once a delete has finished, there is a credential file only if some sign-in began after the row
      was gone. */
  lemma DeletedServersKeepNoCredential(row: Row, events: seq<Event>)
    ensures var s := RunAll(Init(row), events);
            s.finished && !BegunTooLate(s) ==> s.file.None?
  {
    EveryRunKeeps(Init(row), events);
  }

  /** A credential file can still be written although the row is gone: a registration write is under
      way, a handler holds the row it read, or a sign-in that began too late wasn't cancelled, or not
      before its promotion started. */
  ghost predicate WayBack(s: State) {
    s.writing.Some? || HoldsTheRow(s) || exists id :: id in s.flows && Unstopped(s.flows[id])
  }

  ghost predicate HoldsTheRow(s: State) {
    exists id :: id in s.loaded && id !in s.flows
  }

  predicate Unstopped(f: Flow) {
    !f.existed && (f.live || f.inThread)
  }

  /** Once a delete has finished, the credential file can come back exactly if there is a way back. */
  lemma FileComesBackIff(s: State)
    requires Inv(s) && s.finished && s.file.None?
    ensures (exists events :: RunAll(s, events).file.Some?) <==> WayBack(s)
  {
    if WayBack(s) {
      var events := TakesTheWayBack(s);
    } else {
      forall events: seq<Event>
        ensures RunAll(s, events).file.None?
      {
        NoWayBackOpens(s, events);
      }
    }
  }

  lemma TakesTheWayBack(s: State) returns (events: seq<Event>)
    requires Inv(s) && s.row.None? && WayBack(s)
    ensures RunAll(s, events).file.Some?
  {
    if s.writing.Some? {
      events := [WritesRegistration];
      RunOne(s, WritesRegistration, []);
    } else if HoldsTheRow(s) {
      var id :| id in s.loaded && id !in s.flows;
      events := [Begins(id)] + SignsIn(id);
      RunOne(s, Begins(id), SignsIn(id));
      SignInWrites(Step(s, Begins(id)), id);
    } else {
      var id :| id in s.flows && Unstopped(s.flows[id]);
      if s.flows[id].inThread {
        events := [Promotes(id, false)];
        RunOne(s, Promotes(id, false), []);
      } else {
        events := SignsIn(id);
        SignInWrites(s, id);
      }
    }
  }

  function SignsIn(id: nat): seq<Event> {
    [Granted(id), StartsPromotion(id), Promotes(id, false)]
  }

  lemma SignInWrites(s: State, id: nat)
    requires s.row.None? && s.writing.None? && id in s.flows && s.flows[id].live && !s.flows[id].existed
    ensures RunAll(s, SignsIn(id)).file.Some?
  {
    RunOne(s, Granted(id), [StartsPromotion(id), Promotes(id, false)]);
    RunOne(Step(s, Granted(id)), StartsPromotion(id), [Promotes(id, false)]);
    RunOne(Step(Step(s, Granted(id)), StartsPromotion(id)), Promotes(id, false), []);
  }

  lemma {:induction false} NoWayBackOpens(s: State, events: seq<Event>)
    requires s.row.None? && s.file.None? && !WayBack(s)
    ensures RunAll(s, events).file.None?
    decreases |events|
  {
    if events != [] {
      StepOpensNoWayBack(s, events[0]);
      NoWayBackOpens(Step(s, events[0]), events[1..]);
    }
  }

  lemma StepOpensNoWayBack(s: State, e: Event)
    requires s.row.None? && s.file.None? && !WayBack(s)
    ensures var s' := Step(s, e); s'.row.None? && s'.file.None? && !WayBack(s')
  {
    var s' := Step(s, e);
    assert Enabled(s, e) && e.ChecksRegistration? ==> !Unstopped(s.flows[e.id]);
    forall id | id in s'.flows
      ensures id in s.flows && !Unstopped(s'.flows[id])
    {
      assert id in s.flows ==> !Unstopped(s.flows[id]);
    }
  }

  /** So what decides is what a delete finds as it finishes: a handler that read the row and has yet
      to begin, or a late sign-in whose promotion started. */
  lemma DeleteLeavesAWayBackIff(s: State)
    requires Inv(s) && Enabled(s, DeleteFinishes)
    ensures (exists events :: RunAll(Step(s, DeleteFinishes), events).file.Some?) <==>
            HoldsTheRow(s) || exists id :: id in s.flows && !s.flows[id].existed && s.flows[id].inThread
  {
    var s' := Step(s, DeleteFinishes);
    StepKeeps(s, DeleteFinishes);
    FileComesBackIff(s');
    assert HoldsTheRow(s) <==> HoldsTheRow(s');
    if id :| id in s.flows && !s.flows[id].existed && s.flows[id].inThread {
      assert Unstopped(s'.flows[id]);
    }
  }

  /** It happens: a handler reads the row, the delete commits, and only then does the sign-in look
      whether the row existed. */
  lemma LateSignInRecreatesTheFile(s: State, id: nat)
    requires s.row.Some? && s.writing.None? && id in s.loaded && id !in s.flows
    ensures var t := RunAll(s, [DeleteCommits, Begins(id), Granted(id), StartsPromotion(id), DeleteFinishes, Promotes(id, false)]);
            t.finished && t.file == Some(File(Some(Grant(id, s.loaded[id].owner, s.loaded[id].sig)), None))
  {
    var s1 := Step(s, DeleteCommits);
    var s2 := Step(s1, Begins(id));
    var s3 := Step(s2, Granted(id));
    var s4 := Step(s3, StartsPromotion(id));
    var s5 := Step(s4, DeleteFinishes);
    var s6 := Step(s5, Promotes(id, false));
    RunSix(s, DeleteCommits, Begins(id), Granted(id), StartsPromotion(id), DeleteFinishes, Promotes(id, false));
    assert s5.flows[id].inThread && !s5.flows[id].existed;
  }

  /** And a late sign-in that had not got as far is cancelled with the rest. */
  lemma LateSignInCancelled(row: Row, events: seq<Event>)
    ensures var s := RunAll(Init(row), [Loads(0), DeleteCommits, Begins(0), DeleteFinishes]);
            s.finished && BegunTooLate(s) && RunAll(s, events).file.None?
  {
    var s1 := Step(Init(row), Loads(0));
    var s2 := Step(s1, DeleteCommits);
    var s3 := Step(s2, Begins(0));
    var s4 := Step(s3, DeleteFinishes);
    RunOne(Init(row), Loads(0), [DeleteCommits, Begins(0), DeleteFinishes]);
    RunOne(s1, DeleteCommits, [Begins(0), DeleteFinishes]);
    RunOne(s2, Begins(0), [DeleteFinishes]);
    RunOne(s3, DeleteFinishes, []);
    assert s4.flows == map[0 := Flow(row.owner, row.sig, false, false, false, false)] && s4.loaded == map[];
    NoWayBackOpens(s4, events);
  }

  lemma RunSix(s: State, a: Event, b: Event, c: Event, d: Event, e: Event, f: Event)
    ensures RunAll(s, [a, b, c, d, e, f]) == Step(Step(Step(Step(Step(Step(s, a), b), c), d), e), f)
  {
    RunOne(s, a, [b, c, d, e, f]);
    RunOne(Step(s, a), b, [c, d, e, f]);
    RunOne(Step(Step(s, a), b), c, [d, e, f]);
    RunOne(Step(Step(Step(s, a), b), c), d, [e, f]);
    RunOne(Step(Step(Step(Step(s, a), b), c), d), e, [f]);
    RunOne(Step(Step(Step(Step(Step(s, a), b), c), d), e), f, []);
  }

  lemma RunOne(s: State, e: Event, rest: seq<Event>)
    ensures RunAll(s, [e] + rest) == RunAll(Step(s, e), rest)
  {
    assert ([e] + rest)[1..] == rest;
  }
}
