/**
 The credential record of one server (`ServerTokenStorage`, backend/app/auth/oauth_store.py): each
 write reads, changes and replaces the whole record under one lock.
 */
module OAuthStore {
  import opened Basics

  const DEFAULT_REFRESHABLE_TTL: nat := 3600

  datatype Tokens = Tokens(access: string, refresh: Option<string>, expiresIn: Option<nat>)

  /** Absent parts of a record are `None`, and a missing file is an empty record. */
  datatype Record = Record(
    tokens: Option<Tokens>,
    expiresAt: Option<nat>,
    client: Option<string>,
    metadata: Option<string>,
    resource: Option<string>)

  const EMPTY := Record(None, None, None, None, None)

  /** `_expires_at_for`. */
  function ExpiresAt(now: nat, tokens: Tokens): Option<nat> {
    if tokens.expiresIn.Some? then Some(now + tokens.expiresIn.value)
    else if tokens.refresh.Some? then Some(now + DEFAULT_REFRESHABLE_TTL)
    else None
  }

  function Or(a: Option<string>, b: Option<string>): Option<string> {
    if a.Some? then a else b
  }

  function RefreshOf(r: Record): Option<string> {
    if r.tokens.Some? then r.tokens.value.refresh else None
  }

  /** A refresh carries the old refresh token forward where the provider sends none. */
  function Refreshed(r: Record, now: nat, tokens: Tokens): Record {
    var kept := tokens.(refresh := Or(tokens.refresh, RefreshOf(r)));
    r.(tokens := Some(kept), expiresAt := ExpiresAt(now, kept))
  }

  /** A new grant replaces the credential, and nothing of the old one is grafted on; what discovery
      learned stays. */
  function Promoted(
      r: Record, now: nat, tokens: Tokens, client: Option<string>, metadata: Option<string>, resource: Option<string>): Record
  {
    Record(Some(tokens), ExpiresAt(now, tokens), Or(client, r.client), Or(metadata, r.metadata), Or(resource, r.resource))
  }

  class ServerTokenStorage {
    var file: Option<Record>

    ghost function View(): Record
      reads this
    {
      if file.Some? then file.value else EMPTY
    }

    constructor ()
      ensures file.None? && View() == EMPTY
    {
      file := None;
    }

    method Read() returns (data: Record)
      ensures data == View()
    {
      data := if file.Some? then file.value else EMPTY;
    }

    method SetTokens(now: nat, tokens: Tokens)
      modifies this
      ensures file.Some? && View() == Refreshed(old(View()), now, tokens)
    {
      var data := Read();
      var stored := tokens;
      if stored.refresh.None? {
        var previous := RefreshOf(data);
        if previous.Some? {
          stored := stored.(refresh := previous);
        }
      }
      data := data.(tokens := Some(stored));
      data := data.(expiresAt := ExpiresAt(now, stored));
      file := Some(data);
    }

    method SetClientInfo(client: string)
      modifies this
      ensures file.Some? && View() == old(View()).(client := Some(client))
    {
      var data := Read();
      file := Some(data.(client := Some(client)));
    }

    method Promote(now: nat, tokens: Tokens, client: Option<string>, metadata: Option<string>, resource: Option<string>)
      modifies this
      ensures file.Some? && View() == Promoted(old(View()), now, tokens, client, metadata, resource)
    {
      var existing := Read();
      var data := EMPTY;
      data := data.(client := Or(client, existing.client));
      data := data.(metadata := Or(metadata, existing.metadata));
      data := data.(resource := Or(resource, existing.resource));
      data := data.(tokens := Some(tokens), expiresAt := ExpiresAt(now, tokens));
      file := Some(data);
    }

    /** Both go, whichever of them is there. */
    method ClearTokens()
      modifies this
      ensures View() == old(View()).(tokens := None, expiresAt := None)
      ensures file.Some? <==> old(file).Some?
    {
      if file.None? {
        return;
      }
      var data := file.value;
      if data.tokens.Some? || data.expiresAt.Some? {
        file := Some(data.(tokens := None, expiresAt := None));
      }
    }

    method Clear()
      modifies this
      ensures file.None? && View() == EMPTY
    {
      file := None;
    }
  }

  // ---------------------------------------------------------------- what a write stores

  /** When the access token runs out: as the provider says, or an hour after a token that can be
      refreshed. */
  predicate RunsOutAt(now: nat, sent: Tokens, refresh: Option<string>, at: Option<nat>) {
    match sent.expiresIn
    case Some(seconds) => at == Some(now + seconds)
    case None => at == if refresh == None then None else Some(now + 3600)
  }

  /** A refresh stores the access token it was sent, and the refresh token it was sent or else the one
      there was. */
  lemma RefreshStoresWhatWasSent(r: Record, now: nat, sent: Tokens)
    ensures var after := Refreshed(r, now, sent);
            && after.tokens.Some? && after.tokens.value.access == sent.access && after.tokens.value.expiresIn == sent.expiresIn
            && (match sent.refresh
                case Some(_) => after.tokens.value.refresh == sent.refresh
                case None => after.tokens.value.refresh == if r.tokens.Some? then r.tokens.value.refresh else None)
            && RunsOutAt(now, sent, after.tokens.value.refresh, after.expiresAt)
            && after == r.(tokens := after.tokens, expiresAt := after.expiresAt)
  {
  }

  /** Sent, or else as before. */
  predicate SentOrKept(sent: Option<string>, before: Option<string>, after: Option<string>) {
    match sent
    case Some(_) => after == sent
    case None => after == before
  }

  /** A promotion stores exactly the tokens of the grant, and of client and discovery what the grant
      brings, or else what there was. */
  lemma PromotionStoresWhatWasSent(
      r: Record, now: nat, sent: Tokens, client: Option<string>, metadata: Option<string>, resource: Option<string>)
    ensures var after := Promoted(r, now, sent, client, metadata, resource);
            && after.tokens == Some(sent) && RunsOutAt(now, sent, sent.refresh, after.expiresAt)
            && SentOrKept(client, r.client, after.client) && SentOrKept(metadata, r.metadata, after.metadata)
            && SentOrKept(resource, r.resource, after.resource)
  {
  }

  // ---------------------------------------------------------------- over a life of refreshes

  /** The record after the bridge's refreshes, in order. */
  function AfterRefreshes(r: Record, answers: seq<(nat, Tokens)>): Record
    decreases |answers|
  {
    if answers == [] then r
    else
      var last := answers[|answers| - 1];
      Refreshed(AfterRefreshes(r, answers[..|answers| - 1]), last.0, last.1)
  }

  predicate SendsOne(answers: seq<(nat, Tokens)>, k: nat) {
    k < |answers| && answers[k].1.refresh.Some?
  }

  ghost predicate SentLast(answers: seq<(nat, Tokens)>, k: nat) {
    SendsOne(answers, k) && forall j: nat :: k < j ==> !SendsOne(answers, j)
  }

  function LastSent(answers: seq<(nat, Tokens)>, own: Option<string>): Option<string>
    decreases |answers|
  {
    if answers == [] then own
    else Or(answers[|answers| - 1].1.refresh, LastSent(answers[..|answers| - 1], own))
  }

  lemma {:induction false} RefreshInForce(r: Record, answers: seq<(nat, Tokens)>)
    ensures var after := AfterRefreshes(r, answers);
            && after.client == r.client && after.metadata == r.metadata && after.resource == r.resource
            && RefreshOf(after) == LastSent(answers, RefreshOf(r))
            && (answers != [] && RefreshOf(after).Some? ==> after.expiresAt.Some?)
    decreases |answers|
  {
    if answers != [] {
      RefreshInForce(r, answers[..|answers| - 1]);
    }
  }

  lemma {:induction false} LastSentIs(answers: seq<(nat, Tokens)>, own: Option<string>, k: nat)
    requires SentLast(answers, k)
    ensures LastSent(answers, own) == answers[k].1.refresh
    decreases |answers|
  {
    var n := |answers| - 1;
    assert SendsOne(answers, k);
    if k < n {
      assert !SendsOne(answers, n);
      var before := answers[..n];
      assert SendsOne(before, k);
      forall j: nat | k < j
        ensures !SendsOne(before, j)
      {
        assert !SendsOne(answers, j);
      }
      LastSentIs(before, own, k);
    }
  }

  lemma {:induction false} NoneSent(answers: seq<(nat, Tokens)>, own: Option<string>)
    requires forall k: nat :: !SendsOne(answers, k)
    ensures LastSent(answers, own) == own
    decreases |answers|
  {
    if answers != [] {
      var n := |answers| - 1;
      assert !SendsOne(answers, n);
      forall j: nat
        ensures !SendsOne(answers[..n], j)
      {
        assert !SendsOne(answers, j);
      }
      NoneSent(answers[..n], own);
    }
  }

  /** The refresh token in force is the last one the provider sent, or the grant's own; it is never
      lost, nor is what the sign-in registered and discovered, and the next refresh is due. */
  lemma RefreshTokenIsNeverLost(r: Record, answers: seq<(nat, Tokens)>, k: nat)
    ensures var after := AfterRefreshes(r, answers);
            && after.client == r.client && after.metadata == r.metadata && after.resource == r.resource
            && (SentLast(answers, k) ==> after.tokens.Some? && after.tokens.value.refresh == answers[k].1.refresh)
            && ((forall j: nat :: !SendsOne(answers, j)) ==> RefreshOf(after) == RefreshOf(r))
            && (answers != [] && RefreshOf(after).Some? ==> after.expiresAt.Some?)
            && (answers != [] ==> after.tokens.Some? && after.tokens.value.access == answers[|answers| - 1].1.access)
  {
    RefreshInForce(r, answers);
    if SentLast(answers, k) {
      LastSentIs(answers, RefreshOf(r), k);
    }
    if forall j: nat :: !SendsOne(answers, j) {
      NoneSent(answers, RefreshOf(r));
    }
  }

  /** A sign-in starts over: nothing of the credential before it is left. */
  lemma PromotionForgetsTheOldGrant(
      a: Record, b: Record, now: nat, tokens: Tokens, client: Option<string>, metadata: Option<string>, resource: Option<string>)
    requires a.client == b.client && a.metadata == b.metadata && a.resource == b.resource
    ensures Promoted(a, now, tokens, client, metadata, resource) == Promoted(b, now, tokens, client, metadata, resource)
    ensures RefreshOf(Promoted(a, now, tokens, client, metadata, resource)) == tokens.refresh
  {
  }
}
