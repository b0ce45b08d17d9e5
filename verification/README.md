# Proofs for mcpelevator's control plane and bridge

mcpelevator runs MCP servers behind one control plane. A Dafny model of its hardest parts, with
proofs over every input, every run or every interleaving:

- **The bridge** (`TurnProtocol`, `BridgeSystem`, `BridgeInvariant`, `BridgeSafety`, `BridgeEffects`,
  `BridgeHost`, `BridgeRun`). A serialised stdio child serves many clients over one connection, and its own
  requests name no caller; a remote upstream or a group has a session per request, and its parked
  turns hold group members awake. The system is a transition system whose steps are the code
  between two awaits; a request that is answered and takes itself out of `pending` is one step.
  `BridgeEffects` says from the outside what each step answers, leaves waiting and
  frees. `BridgeHost` holds the same objects as classes whose methods do those steps in place, and
  `BridgeRun` a whole proxy of them.
- **Schema dialect normalisation** (`SchemaEvaluation`, `SchemaDialect`, `SchemaPreservation`,
  `SchemaMetaValidity`, `SchemaPortability`): two evaluators for the keywords the walk is about (draft-07 core section
  8.3, validation sections 6.4.1, 6.4.6, 6.5.7; 2020-12 core sections 8.2.1, 8.2.3.1, 10.3.1 and 11,
  validation sections 6.4.4, 6.4.5, 6.5.4), when changing only `$schema` keeps the meaning, and which schemas it is changed on.
- **Tool policy** (`ToolPolicy`, `ToolAgreement`, `ToolServing`): listing tools and resolving a name
  are two algorithms; they agree, and serve what the operator set.
- **The multi-user control plane** (`ControlPlane`, `ControlPlaneInvariant`, `ControlPlaneSafety`,
  `ControlPlaneEffects`, `ControlPlaneHost`, `ControlPlaneRun`): requests resolve a principal on arrival, wait, and
  re-authorise and commit under one lock; the handlers are methods of a class over the tables, and
  any run of them is a run of the model.
- **Secret env values** (`SealedEnv`, `SealedHistory`) and **captured output** (`HideValues`,
  `StderrTee`; `StderrWindows`, whose runs are those of the bridge).
- **Scanners** (`ValueScanner`, `PrintedJson`, `ValueGrammar`, `RedactSecrets`; `EventSplitter`,
  `EventGrammar`), each beside a grammar of what it looks for.
- **Graph translations** (`Selection`, `SelectionOutline`, `InputSchema`, `ExpandedSize`).
- **Stored-state protocols** (`OAuthGrant`, `OAuthStore`, `CatalogMirror`).

The functions that stand for the code are checked against statements that do not use them: the
`…Effects`, `…Serving`, `…Portability`, `…Grammar` and `…Outline` modules, and the policy in
`ControlPlaneSafety`, are written in terms of what goes in and what comes out.

`dafny verify dfyconfig.toml` checks everything.

## Where the code falls short of its own words

Each failing case is a lemma, beside one that says when the promise does hold.

- The normaliser trusts `#/$defs/<name>` and `#/definitions/<name>` to lead to a schema it walked.
  A name with an encoded slash (`%2F`) leads below one, and `definitions` may be an array, which is
  not walked (`backend/app/bridge/host.py:1687-1758`).
- A relabelled schema can become invalid against the 2020-12 meta-schema, because `$defs` and
  `contentSchema` were never checked by draft-07's.
- Two enabled renames to one target: the later wins the way back, and the earlier stays listed
  (`backend/app/bridge/host.py:1925-1950`).
- A turn ended between the end of its run and the done-callback, by a cancelled leg or an overdue
  retry, stays in the slot, closed, until that callback (`backend/app/bridge/host.py:621-662`).
- A leg that finds its run over returns the result and leaves what the child still asks unanswered
  for good (`backend/app/bridge/host.py:572-573`).
- A member's token outlives the server it was minted for (it authorises nothing then, as ids are
  not reused), so "only for servers they own" holds of servers that exist.
- A sign-in whose handler read the server's row before a delete committed, and looked again only
  after, is exempt from the deletion check. It can recreate the credential file unless it has begun,
  and its promotion hasn't started, when the delete cancels what is under way
  (`backend/app/auth/oauth_flow.py:1202-1205`).
- A key skipped as part of an earlier key's value leaves its own value in the clear where that value
  ends too soon: `code=code: "S"` becomes `code=<redacted> "S"`
  (`backend/app/auth/oauth_flow.py:320-321`).
- A non-null custom scalar's JSON Schema admits `null` (`backend/app/bridge/graphql.py:339-354`).
- The fields of a union's selection can share a response name and differ in type: the aliases of
  `a_B` on `C` and `a` on `B_C` are one, and the alias of `a` on `B` is a field `a_B` of its own on
  `C` (`backend/app/bridge/graphql.py:448`). The bridge validates each candidate before it uses it.

## Model

| member | source | states |
|---|---|---|
| SchemaPreservation.RelabelKeepsMeaning | backend/app/bridge/host.py:1761-1974 | a schema the normaliser relabels from draft-07 to 2020-12 accepts the same instances under the new dialect, for every instance, pattern engine and number of references followed, provided no walked reference hides an encoded slash and `$defs`/`definitions` are objects |
| SchemaPreservation.TrustedRefNamesAMemberIff | backend/app/bridge/host.py:1687-1707 | a trusted `$ref` points to a member of its container, and not below one, exactly when it holds no `%2F` |
| SchemaPreservation.TrustedRefTargetIsWalked | backend/app/bridge/host.py:1687-1758 | then what it resolves to is one of the subschemas the walk cleared |
| SchemaPreservation.SiblingsAreInert | backend/app/bridge/host.py:1710-1726 | beside a `$ref` only keywords are left that 2020-12 doesn't assert, so ignoring siblings (draft-07) and honouring them (2020-12) come to the same |
| SchemaPreservation.EncodedSlashChangesMeaning | backend/app/bridge/host.py:1687-1707 | the first guard is needed: with an encoded slash an unwalked target is reached and the verdicts differ |
| SchemaPreservation.DefinitionsArrayChangesMeaning | backend/app/bridge/host.py:1738-1758 | the second guard is needed: an array under `definitions` is not walked, yet a trusted reference reaches its elements |
| SchemaPreservation.NestedIdWouldChangeMeaning | backend/app/bridge/host.py:1710-1726 | the walk is right to refuse an `$id` below the root: beside a `$ref` draft-07 ignores it and 2020-12 resolves by it, and relabelling would turn schemas that accept nothing into ones that accept everything |
| SchemaMetaValidity.OnlyTheCommonRulesMatter | backend/app/bridge/host.py:1738-1873 | for a schema that passed the walk, 2020-12 meta-validity is just the rules draft-07 already had, on every subschema 2020-12 inspects |
| SchemaMetaValidity.RelabelKeepsMetaValidityIff | backend/app/bridge/host.py:1952-1974 | relabelling a meta-valid draft-07 schema leaves it meta-valid exactly when the subschemas only 2020-12 inspects keep those rules |
| SchemaMetaValidity.HiddenSchemaBreaksMetaValidity | backend/app/bridge/host.py:1952-1974 | the condition is needed: `$defs` members draft-07 never checked can make the result invalid |
| SchemaPortability.PortableSchemasAreRelabelled | backend/app/bridge/host.py:1953-1974 | a schema that declares draft-07 has its `$schema`, and nothing else, changed exactly when at every subschema position all is portable: no keyword or value whose meaning or shape moved, references only to members of `$defs` or `definitions` beside annotations, no object a hundred deep; every other schema is left as it is |
| SchemaPortability.WalkRefusesTheRest | backend/app/bridge/host.py:1738-1873 | the recursive walk refuses a schema exactly when something at some path to a subschema is not portable |
| ToolPolicy.List | backend/app/bridge/host.py:2023-2037 | the listing loop yields exactly the specified list |
| ToolAgreement.EveryListedToolAnswersIff | backend/app/bridge/host.py:2002-2082 | every advertised tool can be called and yields the same upstream tool, name, description and schemas, exactly when no rename that applies is shadowed by another with the same target |
| ToolAgreement.NothingElseAnswers | backend/app/bridge/host.py:2039-2082 | a name that isn't advertised is refused, whatever hides, renames, chains, swaps or stale renames there are |
| ToolAgreement.ListedExactlyWhenResolved | backend/app/bridge/host.py:2023-2082 | under that condition a name resolves exactly when it is listed, and no name is listed twice |
| ToolAgreement.DistinctTargetsShadowNothing | backend/app/bridge/host.py:1925-1950 | distinct targets among the enabled renames are enough for the condition |
| ToolAgreement.ShadowedRenameIsUncallable | backend/app/bridge/host.py:1925-1950 | without it a listed tool can be impossible to call |
| ToolAgreement.IdentityCannotBeForged | backend/app/bridge/host.py:1976-2021 | a listed or resolved tool leads back to its real upstream name whatever the upstream put in `_meta`, and nothing but name, description, dialect and that entry changes |
| ToolServing.ListsWhatTheOperatorSet | backend/app/bridge/host.py:2023-2150 | from the hidden names, the overrides and the dialect toggle to what is listed: the tools not hidden, in order, each under the name wanted for it unless a live tool holds that one, with the override's description where one is set, schemas normalised exactly with the toggle on, and its metadata as the upstream's but for the identity entry |
| ToolServing.AnswersWhatTheOperatorSet | backend/app/bridge/host.py:2039-2150 | and to what a name is answered with: a live tool its own name, unless it goes by another; a free name the last tool wanted under it, if the upstream has that one; nobody else |
| BridgeInvariant.StepKeeps | backend/app/bridge/host.py:267-396 | each of the 22 kinds of step keeps the whole invariant (turn, request, routing, parked table and call ownership), for a serialised stdio child and for a proxy with an upstream session per request |
| BridgeInvariant.EveryRunKeeps | backend/app/bridge/host.py:453-704 | so does every interleaving of them |
| BridgeInvariant.InitHolds | backend/app/bridge/host.py:301-319 | and it holds of a fresh routing |
| BridgeSafety.UnfinishedIsHeldOrAbandoned | backend/app/bridge/host.py:1161-1200 | in every reachable state each unfinished upstream call is the lock holder's or abandoned |
| BridgeSafety.ChildReachesOnlyTheHolder | backend/app/bridge/host.py:341-374 | a request of the child gets past the routing only while every unfinished call is the holder's, and only to that holder's live caller or open turn |
| BridgeSafety.EveryAcquisitionIsReleasedOnce | backend/app/bridge/host.py:664-704 | every acquisition of the lock is released exactly once unless it is the one held, in every order of completion, cancellation, expiry and drain |
| BridgeSafety.AbandonedTurnFreesTheLock | backend/app/bridge/host.py:621-670 | an abandoned turn always has a step ahead that gives the child back |
| BridgeSafety.SlottedTurnHolds | backend/app/bridge/host.py:486-518 | a filled turn slot names the lock holder and its caller; a turn in it is open until its run's end, and until its callback where nothing ends it in between |
| BridgeSafety.ClosedTurnInTheSlotIff | backend/app/bridge/host.py:621-670 | a step leaves a closed turn in the slot exactly when it ends the slot's open turn (a cancelled leg, an overdue retry) after its run's end and before the done-callback, or one was there and the callback still hasn't run |
| BridgeSafety.ClosedTurnInTheSlot | backend/app/bridge/host.py:621-641 | a cancelled leg does that in a run from the start |
| BridgeSafety.ExpiredTurnInTheSlot | backend/app/bridge/host.py:591-592 | so does an overdue retry |
| BridgeSafety.ParkedTableIsExact | backend/app/bridge/host.py:557-657 | in every run, of a serialised child's proxy or of one with a session per request, a ticket is in the parked table for a turn exactly when it is that turn's state; at most 256 turns park, none in a table that was replaced, at most 16 requests wait per turn, a hold is outstanding exactly while its turn is parked, and a closed turn leaves nothing waiting |
| BridgeSafety.HoldsAreTakenAndLetGo | backend/app/bridge/host.py:595-657 | runs of a group get there: an asked turn parks with one hold outstanding, and a retry, an overdue one, or one that finds a member gone lets it go; the first tells the upstream the roots the client sent, or that it sent no valid answer, the others that the caller is gone |
| BridgeSafety.RebuiltGroupParksNobody | backend/app/bridge/host.py:577-597 | a run in which the group is rebuilt under an asked turn: its request is refused, nothing is held or parked, and the turn waits on for its result |
| BridgeSafety.EveryRequestIsAnsweredOnce | backend/app/bridge/host.py:519-641 | no held upstream request is answered twice or differently in any run |
| BridgeSafety.LeftoverFateIff | backend/app/bridge/host.py:557-641 | of a request waiting when its turn's run is over: the next step answers it exactly when it ends the turn or is a retry it was handed out for, and leaves it unanswered for good exactly when it wakes the leg, which returns the result first |
| BridgeSafety.LeftoverRequestsAreNeverAnswered | backend/app/bridge/host.py:572-573 | once the result is out, no later step of any run answers what still waits |
| BridgeSafety.LeftoverRequest | backend/app/bridge/host.py:572-573 | a run from the start gets there: the child asks, the call ends, the leg returns, and the question waits |
| BridgeEffects.RetryAnswersWhatWasSent | backend/app/bridge/host.py:600-619 | in every reachable state a retry answers each request its caller was handed and the upstream still waits for: with what the client sent if that is of the kind asked, as having no valid answer otherwise; no other request moves, and the turn leaves the table, lets its members go and asks the new caller from now on |
| BridgeEffects.CancelledLegEndsTheTurn | backend/app/bridge/host.py:565-567 | a cancelled leg tells everything that waits that the client is gone, unparks the turn, and on a serialised child empties the slots and starts the drain of a call still running |
| BridgeEffects.OverdueRetryEndsTheTurn | backend/app/bridge/host.py:621-641 | so does an overdue retry |
| BridgeEffects.LostMemberEndsTheTurn | backend/app/bridge/host.py:689-691 | so does a retry that finds a member gone |
| BridgeEffects.LegHandsOutWhatIsNew | backend/app/bridge/host.py:572-598 | a leg hands its caller exactly the requests nobody was handed yet, each as it was asked, and exactly when the turn parks |
| BridgeEffects.WokenLegParksOrWaits | backend/app/bridge/host.py:557-598 | in every reachable state a woken leg returns, waits on, parks the turn with what is new, or, where the table was replaced or holds 256, tells what is new why it is refused |
| BridgeEffects.SessionAsksItsTurn | backend/app/bridge/host.py:519-538 | a request waits under a key nobody had, and wakes the leg, exactly when the turn is open, its caller can answer that kind and fewer than sixteen wait |
| BridgeEffects.ChildAsksTheSlot | backend/app/bridge/host.py:341-374 | a request of the child is asked exactly while no abandoned call runs and the slot names a caller that can answer: of the turn in the slot, or of the request's own caller |
| BridgeEffects.WithdrawnRequestWaitsNoMore | backend/app/bridge/host.py:535-538 | a request the upstream gives up on waits no more, and no other moves |
| BridgeEffects.DrainAbandonsAndFrees | backend/app/bridge/host.py:643-646 | a drain timer that finds its call still running marks it abandoned and frees the child the turn still holds |
| BridgeEffects.CallbackFrees | backend/app/bridge/host.py:659-670 | the done-callback frees the child the turn still holds, and does nothing else |
| BridgeEffects.TurnStartsFresh | backend/app/bridge/host.py:486-518 | a turn starts open with nothing asked; on a serialised child it holds the lock and both slots |
| BridgeEffects.CancelledRequestDrainsOrLeaves | backend/app/bridge/host.py:985-993 | a cancelled handshake-era request keeps the child while its call drains, its caller asked for nothing; one without a caller leaves |
| BridgeEffects.DrainedRequestLeaves | backend/app/bridge/host.py:333-339 | one drained long enough leaves, its call abandoned if it still runs |
| BridgeEffects.FailedOrIdleRequestLeaves | backend/app/bridge/host.py:985-993 | one that failed, or has no call under way, leaves, and the child is free |
| BridgeHost.StdioRouting.Put | backend/app/bridge/host.py:589-590 | a turn enters the parked table under its ticket |
| BridgeHost.StdioRouting.Pop | backend/app/bridge/host.py:653-654 | and leaves it |
| BridgeHost.StdioRouting.HasRoom | backend/app/bridge/host.py:578-579 | whether the table is below its bound |
| BridgeHost.StdioRouting.Enter | backend/app/bridge/host.py:985-986 | a handshake-era request takes the lock and fills the caller slot |
| BridgeHost.StdioRouting.Leave | backend/app/bridge/host.py:985-993 | its exit empties the slot and gives the lock back |
| BridgeHost.StdioRouting.Abandon | backend/app/bridge/host.py:333-339 | a call joins `abandoned` |
| BridgeHost.StdioRouting.Forward | backend/app/bridge/host.py:341-374 | where a request of the child goes, and what it leaves unchanged |
| BridgeHost.Turn.constructor | backend/app/bridge/host.py:486-517 | a new turn takes the lock and both slots of a serialised child, or nothing |
| BridgeHost.Turn.AnswerAll | backend/app/bridge/host.py:626-628 | every request named is answered once and taken out of `pending` |
| BridgeHost.Turn.Unpark | backend/app/bridge/host.py:648-657 | timer, ticket and hold go, and the hold is released once |
| BridgeHost.Turn.Release | backend/app/bridge/host.py:664-670 | the slots are emptied and the lock released, once |
| BridgeHost.Turn.Finished | backend/app/bridge/host.py:659-662 | the done-callback does the specified step |
| BridgeHost.Turn.Drained | backend/app/bridge/host.py:643-646 | the drain timer does the specified step |
| BridgeHost.Turn.End | backend/app/bridge/host.py:621-641 | the end of a turn does the specified step to turn and routing |
| BridgeHost.Turn.Ask | backend/app/bridge/host.py:519-538 | a request waits under a fresh key exactly when it may |
| BridgeHost.Turn.Park | backend/app/bridge/host.py:586-597 | the turn parks with exactly the unsent requests |
| BridgeHost.Turn.HandOn | backend/app/bridge/host.py:574-597 | refuses or parks as the table allows |
| BridgeHost.Turn.LegWakes | backend/app/bridge/host.py:557-598 | a wake-up of a leg does the specified step and reports what the leg returns |
| BridgeHost.Turn.AnswerSent | backend/app/bridge/host.py:606-619 | each request handed out gets the caller's valid answer, or is told there is none |
| BridgeHost.Turn.Resume | backend/app/bridge/host.py:600-619 | a retry does the specified step to turn and routing |
| BridgeRun.Proxy.AskTurn | backend/app/bridge/host.py:1077-1094 | a request on a turn's own upstream session is asked of that turn, and no other turn and nothing of the routing changes |
| BridgeRun.Proxy.Handle | backend/app/bridge/host.py:341-704 | each event, handled by the object it concerns (routing, turn or request), is the step of the model, and keeps the invariant |
| BridgeRun.Proxy.Serve | backend/app/bridge/host.py:341-704 | so any run of the objects is a run of the model |
| ControlPlaneInvariant.CommitKeeps | backend/app/api/users.py:133-297 | every commit keeps referential integrity, members' reach, the built-in server's ownership and the admin login |
| ControlPlaneInvariant.EveryRunKeeps | backend/app/api/servers.py:392-684 | and so does every interleaving of arriving, waiting and committing requests |
| ControlPlaneInvariant.StartupHolds | backend/app/main.py:92-106 | every start on a sound database has the invariant, enforced or not, with a login, without, or with one forced |
| ControlPlaneSafety.EverythingStaysLinked | backend/app/api/users.py:216-241 | over every run owners and token users exist, group members and group tokens' groups exist, and the built-in server has no owner |
| ControlPlaneSafety.MemberTokensAreTheirs | backend/app/api/users.py:63-77 | over every run a member's data-plane token is for a server they own, or one that is gone |
| ControlPlaneSafety.DeletedServerLeavesItsTokens | backend/app/api/servers.py:668-677 | that exception is real: deleting a server leaves its tokens |
| ControlPlaneSafety.SomebodyCanLogIn | backend/app/auth/control_plane.py:36-91 | over every run without a break-glass token, while enforcement is on some stored credential resolves to admin at the gate |
| ControlPlaneSafety.RefreshedIsStored | backend/app/auth/principal.py:155-187 | a waiting request's refreshed principal is exactly what the stored token and user rows say of its credential |
| ControlPlaneSafety.CommitsExactlyWhatIsAllowed | backend/app/auth/principal.py:155-198 | a queued request commits exactly when the policy, read on the rows stored by then, allows it and nothing else stands against it; otherwise nothing changes |
| ControlPlaneSafety.RevokedCallerChangesNothing | backend/app/auth/principal.py:175-181 | a request whose token was revoked or whose user was deleted commits nothing |
| ControlPlaneSafety.LocalOperatorEndsWithEnforcement | backend/app/api/settings.py:76-105 | a request let in before enforcement commits nothing after it, but a settings write carrying an admin credential |
| ControlPlaneSafety.MembersTouchOnlyTheirOwn | backend/app/auth/policy.py:38-101 | what a member commits leaves users, settings, and everybody else's servers and tokens as they were, and what it adds is theirs |
| ControlPlaneSafety.OnlyPermittedCallersShapeLocalServers | backend/app/api/servers.py:165-174 | no commit of any kind lets a caller without the local-runner permission change what a local server executes |
| ControlPlaneEffects.LetInExactly | backend/app/auth/principal.py:96-152 | a request waits for the lock exactly when what is stored as it arrives lets its credential ask for that, and it remembers who it was |
| ControlPlaneEffects.CommitsDoWhatWasAsked | backend/app/api/servers.py:392-684 | what each of the 14 operations leaves, row by row: who or what was created stands under a fresh id as asked, an edited row reads as sent and otherwise as before, what was deleted is gone and a deleted token stands for nobody, and demotion, transfer and deletion revoke exactly their tokens; every other row is as it was, and a commit that isn't allowed leaves all of them so |
| ControlPlaneEffects.BuiltinStaysItself | backend/app/registry/service.py:2335-2362 | no commit changes what the built-in server runs or whose it is, makes another, or deletes it |
| ControlPlaneEffects.StartMintsALogin | backend/app/main.py:92-106 | a start mints one admin login exactly when a credential is demanded, none comes from the environment, and there is no login yet or a new one is forced |
| ControlPlaneHost.Database.Refresh | backend/app/auth/principal.py:155-187 | the refreshed principal, or none |
| ControlPlaneHost.Database.AdminNow | backend/app/auth/principal.py:190-198 | whether the caller is an admin on committed state |
| ControlPlaneHost.Database.AdminCredentialExists | backend/app/db/repo.py:616-630 | the early-exit scan finds a login that resolves to admin exactly when there is one |
| ControlPlaneHost.Database.OverprivilegedTokenIds | backend/app/api/users.py:63-77 | the loop collects exactly the tokens a member could not have minted |
| ControlPlaneHost.Database.OwnsServers | backend/app/db/repo.py:596-597 | whether the user owns a server |
| ControlPlaneHost.Database.DeleteTokens | backend/app/db/repo.py:517-530 | exactly the named tokens go |
| ControlPlaneHost.Database.CreateUser | backend/app/api/users.py:133-138 | the locked creation makes the specified commit |
| ControlPlaneHost.Database.UpdateUser | backend/app/api/users.py:156-193 | the locked edit, with its guard and revocations, makes the specified commit |
| ControlPlaneHost.Database.DeleteUser | backend/app/api/users.py:216-241 | the locked deletion makes the specified commit |
| ControlPlaneHost.Database.MintLogin | backend/app/api/users.py:280-297 | the locked mint makes the specified commit |
| ControlPlaneHost.Database.CreateToken | backend/app/api/tokens.py:73-108 | validate-and-insert makes the specified commit |
| ControlPlaneHost.Database.DeleteToken | backend/app/api/tokens.py:133-150 | delete-then-guard, with its rollback, makes the specified commit |
| ControlPlaneHost.Database.CreateServer | backend/app/api/servers.py:392-398 | the locked creation makes the specified commit |
| ControlPlaneHost.Database.UpdateServer | backend/app/api/servers.py:527-593 | edit, revocation and transfer make the specified commit |
| ControlPlaneHost.Database.DeleteServer | backend/app/api/servers.py:668-677 | prune-then-delete makes the specified commit |
| ControlPlaneHost.Database.CloneServer | backend/app/api/servers.py:990-1000 | the locked clone makes the specified commit |
| ControlPlaneHost.Database.SetEnabled | backend/app/api/servers.py:217-230 | the locked toggle makes the specified commit |
| ControlPlaneHost.Database.Prune | backend/app/groups/registry.py:124-136 | the server leaves every explicit member list and nothing else changes |
| ControlPlaneHost.Database.UpsertGroup | backend/app/groups/registry.py:95-109 | the member check and write make the specified commit |
| ControlPlaneHost.Database.DeleteGroup | backend/app/api/groups.py:50-72 | revoke-then-remove makes the specified commit |
| ControlPlaneHost.Database.WriteSettings | backend/app/api/settings.py:60-105 | staging, guard and rollback make the specified commit |
| ControlPlaneRun.Perform | backend/app/api/users.py:133-297 | a request's commit, by the handler its operation belongs to, is the specified one |
| ControlPlaneRun.App.Serve | backend/app/auth/principal.py:155-198 | any interleaving of arrivals and commits, handled on the tables, is a run of the model and keeps the invariant |
| SealedEnv.Resolve | backend/app/sealed.py:91-154 | the pass answers as specified: each refusal, by name, or the resolved env; it stores exactly the acceptable saves |
| SealedHistory.UnsealEnv | backend/app/sealed.py:61-78 | every value opened, or exactly the keys that can't be |
| SealedHistory.SavedValuesMeanWhatWasSent | backend/app/sealed.py:91-154 | a stored save means what it sent: a kept secret its old plaintext, everything else what was typed; sealed are exactly the keys asked to be secret |
| SealedHistory.SecretsWereTypedForWhatRuns | backend/app/sealed.py:101-113 | over every history of saves, a sealed value was typed in as plaintext, and every save stored since kept the target and, where the server's own process reads the env, what every variable reads |
| SealedHistory.AskedAgainIff | backend/app/sealed.py:113-154 | a save with nothing else against it is told to enter its hidden values again exactly when it leaves some hidden and moves the target or, where the server's own process reads the env, adds, changes or removes a value; otherwise it is stored |
| SealedHistory.BadlyMadeIsToldWhy | backend/app/sealed.py:113-148 | each other refusal names exactly the keys it is about |
| SealedHistory.UnchangedSecretsKeepTheirToken | backend/app/sealed.py:121-139 | a secret left hidden, or typed in again as it was, keeps its stored token |
| SealedHistory.MaskedShowsNoToken | backend/app/sealed.py:81-83 | what the API shows has the mask for each token and every other value as it is |
| SealedHistory.HistoriesStayClean | backend/app/sealed.py:129-132 | no history stores a value that reads as the mask or as a token |
| SealedHistory.MaskedResaveIsExactIff | backend/app/sealed.py:81-154 | saving back the masked env stores exactly what was stored, if and only if no plain value equals the mask |
| SealedHistory.EveryHistoryResavesExactly | backend/app/sealed.py:81-154 | so it does after every history |
| SealedHistory.CloneMeansTheSame | backend/app/registry/service.py:2576-2589 | a clone means the same env and keeps the same keys secret |
| HideValues.Occurrences | backend/app/sealed.py:186-190 | the find loop covers exactly the bytes of all occurrences, overlapping ones too |
| HideValues.OpenEndSpan | backend/app/sealed.py:212-220 | the longest trailing part covers exactly the bytes any trailing part of 4 or more does |
| HideValues.OpenStartSpan | backend/app/sealed.py:223-231 | likewise for a leading part |
| HideValues.HideIn | backend/app/sealed.py:166-206 | for any values, empty ones too, the output stands for the window's bytes in order, and a byte is shown exactly when no occurrence or open-edge part covers it |
| HideValues.SliceIsEnough | backend/app/bridge/host.py:817-836 | hiding on a slice that keeps the longest value's length around a window, or the edge, is hiding on the whole |
| HideValues.HiddenIff | backend/app/sealed.py:166-231 | a byte counts as covered exactly when it is part of a value in the text, of one the text begins to spell at an open end, or of the end of one at an open start, at least 4 bytes of it |
| StderrTee.Tee.File | backend/app/bridge/host.py:856-862 | the ring stays the last 256 KiB of the stream at its recorded offsets |
| StderrTee.RingHoldsTheLast | backend/app/bridge/host.py:856-862 | and never more than that: the last bytes written, in order |
| StderrTee.Tee.Pump | backend/app/bridge/host.py:843-854 | a read moves bytes from the pipe to the stream, and loses none |
| StderrTee.Tee.Mark | backend/app/bridge/host.py:797-800 | the position is everything written so far, or pumped so far where the platform can't say |
| StderrTee.Tee.Window | backend/app/bridge/host.py:817-841 | a window shows a kept byte exactly when masking the whole ring would |
| StderrTee.WindowIsEnough | backend/app/bridge/host.py:820-836 | looking the longest secret past each edge is as good as looking at the whole ring, its open edges included |
| StderrTee.WindowHidesTheStreamsSecrets | backend/app/bridge/host.py:759-776 | no byte of a secret's occurrence in the whole stream shows, even where the ring dropped its head, while 4 bytes of it are left |
| StderrTee.WindowHidesWhatIsBegun | backend/app/sealed.py:212-220 | nor does one of a secret the child has only begun to write, from its fourth byte on |
| StderrWindows.MarkNeverDecreases | backend/app/bridge/host.py:797-800 | no step moves the mark back |
| StderrWindows.WindowsNeverOverlap | backend/app/bridge/host.py:905-947 | over every run of the bridge, several calls in flight at once, the windows of the failed calls are disjoint and in order |
| StderrWindows.WindowIsTheCallsOwn | backend/app/bridge/host.py:917-922 | while a window is open and its call holds the child, no other call is unfinished upstream |
| StderrWindows.OpenElsewhereMeansAbandoned | backend/app/bridge/host.py:922-923 | a window open past its call's lock is an abandoned call's, and until that call finishes no other opens |
| StderrWindows.AbandonedWindowStaysOpen | backend/app/bridge/host.py:643-646 | there is such a window: a cancelled leg whose call isn't drained in time |
| StderrWindows.FailedCallCarriesItsTime | backend/app/bridge/host.py:917-945 | a call whose window is open as it fails carries the stream from where it was as the call began to where it is as it fails, whatever happened in between |
| StderrWindows.WindowsOfTheOthersGo | backend/app/bridge/host.py:923-947 | a call that is over without failing, or was given up, leaves no window |
| StderrTee.StderrBlock | backend/app/bridge/host.py:881-902 | the block is the longest suffix of the last 20 cleaned lines that fits 2048 bytes, or the end of one huge line |
| StderrTee.SizeIsTheBlocksLength | backend/app/bridge/host.py:889-902 | what is counted is the length of the lines as the block shows them, a line break after each |
| EventSplitter.SplitAppend | backend/app/debug.py:382-383 | an event end found in a prefix of the stream is the one found in the whole |
| EventSplitter.ChunksDoNotMatter | backend/app/debug.py:520-525 | for every chunking, splitting incrementally finds the events of the whole stream |
| EventSplitter.TailFindsTheSame | backend/app/debug.py:532-537 | keeping three bytes of a skipped event finds its end and all that follows unchanged |
| EventSplitter.ShortEventsAreLoggedWhole | backend/app/debug.py:520-537 | a log faithful to a stream of events of at most the limit less 3 bytes is those events, whole, once and in order |
| EventGrammar.NothingIsLost | backend/app/debug.py:382-383 | a stream is its events, each up to its first blank line, the blank lines after them, and a rest that has none: nothing is lost and nothing added |
| EventGrammar.EntriesTellTheirEvents | backend/app/debug.py:520-537 | each entry of a faithful log is its event, whole, or more than the limit of its beginning |
| EventSplitter.EventLog.LogDone | backend/app/debug.py:528-531 | the loop logs each nonempty event once, but for the tail of a skipped one |
| EventSplitter.EventLog.LogWindow | backend/app/debug.py:520-537 | a window keeps the log faithful, through skip mode and to the end of the stream |
| EventSplitter.EventLog.LogEvents | backend/app/debug.py:514-518 | and so does a chunk of any size |
| ValueScanner.ValueEnd | backend/app/auth/oauth_flow.py:213-280 | the one-pass scan ends where the specification says, for quotes, prefixed literals, containers and bare values |
| ValueScanner.ContainerEnd | backend/app/debug.py:285-306 | likewise for the counting scan |
| PrintedJson.PrintedValueEnds | backend/app/auth/oauth_flow.py:213-280 | a JSON string, array or object, printed with any whitespace, ends exactly where the scan stops, whatever text follows |
| PrintedJson.PrintedContainerEnds | backend/app/debug.py:285-306 | the counting scan stops there too on arrays and objects |
| PrintedJson.ScannersAgree | backend/app/auth/oauth_flow.py:252-276 | on any text the two agree where brackets match, and elsewhere the stack scan masks the rest; it never stops first |
| ValueGrammar.BareValueRunsToAStop | backend/app/auth/oauth_flow.py:276-280 | an unquoted value is all the text up to the next separator, or for an `Authorization` header up to the end of the line |
| ValueGrammar.QuotedValueRunsToItsQuote | backend/app/auth/oauth_flow.py:240-251 | a quoted value, a literal's prefix and all, ends with the first quote of its kind that isn't escaped, or with the text |
| ValueGrammar.BracketedValueIsItsGroup | backend/app/auth/oauth_flow.py:252-275 | a value in brackets ends exactly where the well-nested group it begins does, and where it begins none it is all the rest |
| RedactSecrets.Redact | backend/app/auth/oauth_flow.py:283-337 | one pass: everything outside ordered, disjoint ranges is copied, and the ranges are exactly the values of the keys that start past every value masked before them, each in a mask that wears its quotes |
| RedactSecrets.RedactionIsDetermined | backend/app/auth/oauth_flow.py:297-337 | text and key matches leave one possible output |
| RedactSecrets.MaskedWholeIff | backend/app/auth/oauth_flow.py:297-337 | whatever the finders match, overlapping or not: a key's value is masked to its last character exactly when one key in its turn, this or another, has a value that contains it |
| RedactSecrets.MaskedUnlessCutOff | backend/app/auth/oauth_flow.py:317-333 | where matches don't overlap: exactly when no earlier masked value swallows the key and ends before the key's own value does |
| RedactSecrets.OverlappingKeyHasNoTurn | backend/app/auth/oauth_flow.py:320-321 | of two matches that overlap the second never gets a range of its own |
| RedactSecrets.JsonValueIsMaskedWholeIff | backend/app/auth/oauth_flow.py:297-337 | so a printed JSON value behind a key is masked to its last character exactly under that condition |
| RedactSecrets.UnquotedValueRunsToAStop | backend/app/auth/oauth_flow.py:322-328 | an unquoted value behind an `Authorization` header is masked to the end of its line, behind any other key to the next separator |
| RedactSecrets.OutputHidesTheValues | backend/app/auth/oauth_flow.py:283-337 | texts that differ only inside the masked ranges, and not in the quotes worn there, come out the same |
| RedactSecrets.MaskWearsTheQuotes | backend/app/auth/oauth_flow.py:283-294 | a mask wears a quote exactly where the value did |
| RedactSecrets.NestedSecretStays | backend/app/auth/oauth_flow.py:320-321 | the condition can fail: in `code=code: "S"` the second key is skipped as part of the first one's value, and its own value stays |
| ExpandedSize.Measurement.Measure | backend/app/bridge/openapi.py:126-149 | the memoised measurement equals the size of the node written out, meets each composite once, and fails only on an alias cycle |
| ExpandedSize.ExpandedSizeOf | backend/app/bridge/openapi.py:126-149 | it returns exactly when no cycle is reachable, and then the size of the one full unfolding |
| ExpandedSize.CyclesHaveNoTree | backend/app/bridge/openapi.py:138-139 | a document with a reachable cycle can't be written out |
| ExpandedSize.SizeIsTheTextsLength | backend/app/bridge/openapi.py:126-149 | that size is the length of the written document, and two more for each composite that has parts |
| Selection.UnionConflicts | backend/app/bridge/graphql.py:399-407 | exactly the names two members declare with different types |
| Selection.Generator.SelectionFor | backend/app/bridge/graphql.py:416-465 | ends on every type graph and yields the specified selection, in which leaves and arguments are as GraphQL wants and nesting is bounded by depth and free hops; the counter is the number of fields emitted |
| Selection.ExactlyTheAskableFields | backend/app/bridge/graphql.py:438-462 | on an object or interface exactly the fields that need no argument, aren't deprecated and aren't cut off by the depth are selected, each with everything below it |
| Selection.EveryMemberHasItsFragment | backend/app/bridge/graphql.py:428-435 | on a union every member has its fragment, in order |
| SelectionOutline.SelectionAsksInOrder | backend/app/bridge/graphql.py:438-465 | on an object or interface the selection is, in order, a part for each field that can be asked for, with its alias and its own selection at its own depth; then the type's name on an interface and where there is nothing else |
| SelectionOutline.UnionSelectsEachMember | backend/app/bridge/graphql.py:428-435 | on a union: the type's name, and each member's fragment in which the fields that members declare with different types have aliases |
| Selection.ConflictIff | backend/app/bridge/graphql.py:399-448 | two fields of a union's selection of different types (or different fields of one member) share a response name exactly when their names collide: two aliases where one name is the other with the start of a member's name on it, or an alias that equals a name kept |
| Selection.PlainFieldsAgree | backend/app/bridge/graphql.py:399-407 | fields that keep their own name under one name have one type |
| Selection.AliasMeetsANameThere | backend/app/bridge/graphql.py:448 | schemas, `B {a: Int}` with `C {a: String, a_B: String}` for one, whose selection holds an alias and a kept name that collide |
| Selection.AliasesMeetThere | backend/app/bridge/graphql.py:448 | and schemas, `C {a: Int, a_B: Int}` with `B_C {a: String, a_B: String}` for one, where two aliases do |
| Selection.CandidateSelections | backend/app/bridge/graphql.py:468-476 | the candidates are exactly the deep selection if it has at most 300 fields, the shallow one, and the type name; each is a selection the type allows, nested at most `depth * (FREE_HOPS + 1)` deep |
| InputSchema.SchemaMeansTheType | backend/app/bridge/graphql.py:313-387 | the generated schema admits exactly the values the input type accepts, null for a non-null custom scalar aside |
| InputSchema.SchemaIsExactIff | backend/app/bridge/graphql.py:335-387 | no accepted value is refused, and the schema admits exactly what the type accepts if and only if no non-null custom scalar is reachable from it through lists and input fields |
| InputSchema.NonNullCustomScalarAdmitsNull | backend/app/bridge/graphql.py:339-354 | that exception is real |
| InputSchema.Builder.For | backend/app/bridge/graphql.py:335-341 | builds the specified schema on recursive types, and every reference in it has its definition |
| InputSchema.SchemaFor | backend/app/bridge/graphql.py:335-387 | schema and definitions together are complete and admit what the type accepts |
| OAuthGrant.GrantsAreInstalledForWhatTheyWereBegun | backend/app/auth/oauth_flow.py:1022-1161 | over every run each write of tokens, over stored ones too, is the promotion of the sign-in they are from, while owner and OAuth configuration equal those it began with, or, for a sign-in begun when the row was gone, while there is none |
| OAuthGrant.SnapshotsAreKept | backend/app/auth/oauth_flow.py:1271-1276 | over every run a sign-in keeps the owner, configuration and existence of the row it began with |
| OAuthGrant.PromotionInstallsIff | backend/app/auth/oauth_flow.py:1022-1149 | a promotion installs the grant, with the client it brings or the stored one, exactly when the row still fits its sign-in; otherwise it changes nothing |
| OAuthGrant.UndisturbedSignInIsInstalled | backend/app/auth/oauth_flow.py:1195-1286 | a sign-in nothing came between is installed |
| OAuthGrant.RegistrationIsStoredIff | backend/app/auth/oauth_flow.py:577-583 | a live sign-in that writes its client registration through stores it, beside whatever tokens there are, exactly when the row still fits as it is checked |
| OAuthGrant.WriteFollowsItsCheck | backend/app/auth/oauth_flow.py:577-583 | between that check and the write only other threads take steps |
| OAuthGrant.CredentialIsCleared | backend/app/api/servers.py:614-734 | what clears the credential, and that it stops every sign-in that hasn't started its promotion |
| OAuthGrant.StoredIsTheLastInstalled | backend/app/auth/oauth_store.py:274-327 | over every run the stored tokens are those installed last |
| OAuthGrant.StoredForThePresentConfiguration | backend/app/api/servers.py:614-620 | unless an edit has yet to clear the file, stored tokens and client registration are for the present configuration |
| OAuthGrant.DeletedServersKeepNoCredential | backend/app/api/servers.py:687-734 | after a finished delete there is a credential file only if some sign-in began when the row was already gone |
| OAuthGrant.FileComesBackIff | backend/app/auth/oauth_flow.py:1022-1057 | of a finished delete that left no file: some continuation brings the file back exactly when a registration write is under way, a handler holds the row it read, or a sign-in begun too late is live or in its promotion |
| OAuthGrant.DeleteLeavesAWayBackIff | backend/app/api/servers.py:716-726 | so a delete, as it finishes, leaves a way back exactly when a handler that read the row has yet to begin, or the promotion of a sign-in begun too late has started |
| OAuthGrant.LateSignInRecreatesTheFile | backend/app/auth/oauth_flow.py:1202-1205 | one way it happens: read before the delete committed, begun after, promoting when the delete finished |
| OAuthGrant.LateSignInCancelled | backend/app/api/servers.py:725-726 | one way it does not: begun too late, cancelled with the rest as the delete finished, after which no run brings the file back |
| OAuthStore.ServerTokenStorage.SetTokens | backend/app/auth/oauth_store.py:175-212 | a refresh replaces the tokens and keeps the refresh token where none is sent |
| OAuthStore.ServerTokenStorage.Promote | backend/app/auth/oauth_store.py:274-327 | a grant replaces the credential and keeps only what discovery learned |
| OAuthStore.ServerTokenStorage.ClearTokens | backend/app/auth/oauth_store.py:345-360 | tokens and expiry go together, and nothing else does |
| OAuthStore.ServerTokenStorage.Clear | backend/app/auth/oauth_store.py:362-371 | the record goes |
| OAuthStore.RefreshTokenIsNeverLost | backend/app/auth/oauth_store.py:175-212 | over every sequence of refreshes the refresh token in force is the last one sent, or the grant's, and the access token is the last one sent |
| OAuthStore.RefreshStoresWhatWasSent | backend/app/auth/oauth_store.py:175-212 | a refresh stores the access token sent, the refresh token sent or else the stored one, and the expiry that follows; all else is as it was |
| OAuthStore.PromotionStoresWhatWasSent | backend/app/auth/oauth_store.py:274-327 | a promotion stores exactly the tokens sent, and client, metadata and resource as sent, or as before where none was |
| OAuthStore.PromotionForgetsTheOldGrant | backend/app/auth/oauth_store.py:274-327 | what a promotion stores doesn't depend on the credential before it |
| CatalogMirror.Mirror.SyncFull | backend/app/catalog/mirror.py:168-185 | a full pass leaves exactly what the listing says last of each record, in its place, whatever was there before |
| CatalogMirror.PagesFollowEachOther | backend/app/catalog/mirror.py:168-185 | the listing is what its pages hold, page after page |
| CatalogMirror.Mirror.WriteChanges | backend/app/catalog/mirror.py:109-128 | an incremental write leaves what it says last of each record under its generation, keeps known places, puts new records after them in the order it names them, and touches nothing else |
| CatalogMirror.FullSyncShowsTheListing | backend/app/catalog/mirror.py:90-139 | the query's order after a full sync is the listing's, deleted records left out |
| CatalogMirror.PageIsTheNextRows | backend/app/catalog/mirror.py:90-158 | a page is the next rows, as many as asked for or as there are, with a cursor exactly when more follow |
| CatalogMirror.PagingShowsAll | backend/app/catalog/mirror.py:142-158 | following the cursors shows every record once, in order |
| CatalogMirror.ReadersSeeTheListing | backend/app/catalog/mirror.py:90-158 | so after a full sync a reader who follows the cursors sees the listing's records, each once and in the listing's order |

## Left out

- HTTP, subprocesses, SQLite, the MCP SDK and FastMCP: represented by abstract steps or finite maps.
- The bridge's progress and log forwarding, the queue of requests waiting for the lock, and group
  hubs beyond the calls that hold and let go their members.
- A handshake-era call that the bridge cancels outright (its session failed, or its request named no
  caller) counts as finished at once, without the event-loop turn its cancellation takes.
- `await` points inside a commit: each commit under the config write lock, and each settings write
  under the database's write lock, is one step.
- Cloudflare Access identities, JWTs and key fetching; hashing and encryption, which are opaque
  (`seal` and its inverse are any pair that inverts).
- JSON Schema keywords both dialects read alike beyond a representative few, references outside the
  schema resource, and `format` assertion; `$dynamicRef` is treated as 2020-12 treats `$ref`.
- `$anchor`, `$dynamicAnchor` and `$vocabulary`: a reference by name resolves to nothing in either
  evaluator. The walk trusts no such reference and refuses schemas that hold these keywords.
- The tear-down of a group as one step: it ends its parked turns one after the other, as members
  that left, and its table counts as replaced once none is left.
- Server configuration beyond the launch fields: the service's own validation is any predicate on
  the row, docker reclassification keeps a local runner local, and stored NULLs read as empty.
- Bulk import of servers, which commits several creations under one hold of the lock.
- Group names' grammar, and settings other than those that decide enforcement.
- The key finders of `redact_secrets` and the log scrubber's patterns: matches come in order of
  their start, that two never share a character is a premise where it is needed, and `scrub` is any
  function.
- The split of a stderr window into lines, and the decoding of shown bytes.
- A secret only half written to stderr at a window's end is hidden only when that end is the end of
  what was read.
- A platform whose pipe count fails now and then: `mark` is monotone where it always or never works.
- When a sign-in writes its client registration through (only where none was seeded and no tokens were
  stored as it began): the model lets any sign-in.
- Callback futures and the state index of a sign-in, superseded sign-ins' messages, and the bridge's
  own refreshes racing a cleared credential.
- GraphQL defaults and descriptions in input schemas, list coercion of a lone value, and the
  GraphQL parser and validator.
- `_json_shaped`, `resolve_base_url` and document fetching; catalog sources and incremental syncs'
  time windows; usage, health and log routes; the frontend.
- SealedEnv.Resolve: where several keys are refused, it may name any of them, as the order of the
  env's keys is not modelled.
- StderrTee.StderrBlock: sizes are in bytes of the encoded line; `readable` stands for dropping a
  character cut in two.
- CatalogMirror.Mirror.SyncFull: assumes generations increase from one sync to the next.
- ToolAgreement.EveryListedToolAnswersIff: does not compare `_meta`, where the two paths differ for an
  override whose name is its own key.
- Selection.ConflictIff: types are compared as written; how the selections below two fields of one
  response name merge in turn is not modelled.
- SchemaPreservation.RelabelKeepsMeaning: one way only. A schema outside the two guards can keep its
  meaning by luck, where the value its reference reaches reads alike in both dialects; what is exact
  is when a trusted reference names a member of its container.
- HideValues.HideIn: says which bytes are masked, not into how many marks a run of overlapping
  values falls.
