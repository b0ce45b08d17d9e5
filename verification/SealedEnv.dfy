/**
 The write-only store of secret env values (backend/app/sealed.py): what a save may keep, what it
 has to type in again, and what every history of saves leaves behind.
 */
module SealedEnv {
  import opened Basics

  const PREFIX: string := "mcpe-sealed:v1:"
  const HIDDEN: string := "<hidden>"

  type Env = map<string, string>

  /** Encryption, as an opaque pair. `seal` draws on `salt` so that no two tokens need be alike. */
  datatype Cipher = Cipher(seal: (string, nat) -> string, unseal: string -> Option<string>)

  predicate IsSealed(value: string) {
    PREFIX <= value
  }

  ghost predicate Inverts(c: Cipher) {
    forall value: string, salt: nat :: IsSealed(c.seal(value, salt)) && c.unseal(c.seal(value, salt)) == Some(value)
  }

  predicate SealedAt(env: Env, key: string) {
    key in env && IsSealed(env[key])
  }

  /** `env` as the API shows it. */
  function Masked(env: Env): Env {
    map k | k in env :: if IsSealed(env[k]) then HIDDEN else env[k]
  }

  function SecretKeys(env: Env): set<string> {
    set k | k in env && IsSealed(env[k])
  }

  // ---------------------------------------------------------------- one save

  /** What a save sends: the env, which keys are secret (or nothing about that), whether it changes
      what the server runs, and whether the server's own process reads its env. */
  datatype Save = Save(incoming: Env, secret: Option<set<string>>, retargeted: bool, envRunsCode: bool, salt: nat)

  datatype Result =
    | Stored(env: Env)
    | UnknownSecrets(keys: set<string>)
    | NothingHidden(key: string)
    | LooksSealed(key: string)
    | MadeVisible(keys: set<string>)
    | MustReenter(keys: set<string>)

  predicate IsSecret(stored: Env, s: Save, key: string) {
    if s.secret.Some? then key in s.secret.value else SealedAt(stored, key)
  }

  /** The save sends the key's mask, or its stored token: its sealed value stays. */
  predicate Keeps(stored: Env, s: Save, key: string)
    requires key in s.incoming
  {
    SealedAt(stored, key) && (s.incoming[key] == HIDDEN || s.incoming[key] == stored[key])
  }

  /** A value no save may send. */
  predicate Refused(stored: Env, s: Save, key: string)
    requires key in s.incoming
  {
    !Keeps(stored, s, key) && (s.incoming[key] == HIDDEN || IsSealed(s.incoming[key]))
  }

  /** A secret typed in again as it was. */
  predicate Retyped(c: Cipher, stored: Env, s: Save, key: string)
    requires key in s.incoming
  {
    IsSecret(stored, s, key) && SealedAt(stored, key) && c.unseal(stored[key]) == Some(s.incoming[key])
  }

  function KeptIn(stored: Env, s: Save, keys: set<string>): set<string>
    requires keys <= s.incoming.Keys
  {
    set k | k in keys && Keeps(stored, s, k)
  }

  function Kept(stored: Env, s: Save): set<string> {
    KeptIn(stored, s, s.incoming.Keys)
  }

  function ShownIn(stored: Env, s: Save, keys: set<string>): set<string>
    requires keys <= s.incoming.Keys
  {
    set k | k in keys && Keeps(stored, s, k) && !IsSecret(stored, s, k)
  }

  function Shown(stored: Env, s: Save): set<string> {
    ShownIn(stored, s, s.incoming.Keys)
  }

  predicate ChangesKey(c: Cipher, stored: Env, s: Save, key: string)
    requires key in s.incoming
  {
    && !Keeps(stored, s, key) && !Retyped(c, stored, s, key)
    && (SealedAt(stored, key) || key !in stored || stored[key] != s.incoming[key])
  }

  function ChangedIn(c: Cipher, stored: Env, s: Save, keys: set<string>): set<string>
    requires keys <= s.incoming.Keys
  {
    set k | k in keys && ChangesKey(c, stored, s, k)
  }

  function Changed(c: Cipher, stored: Env, s: Save): set<string> {
    ChangedIn(c, stored, s, s.incoming.Keys)
  }

  /** Some value is added, changed or removed. */
  predicate ChangesSomething(c: Cipher, stored: Env, s: Save) {
    Changed(c, stored, s) != {} || !(stored.Keys <= s.incoming.Keys)
  }

  /** The save makes the server run something else. */
  predicate Retargets(c: Cipher, stored: Env, s: Save) {
    s.retargeted || (s.envRunsCode && ChangesSomething(c, stored, s))
  }

  function Entry(c: Cipher, stored: Env, s: Save, key: string): string
    requires key in s.incoming
  {
    if Keeps(stored, s, key) || Retyped(c, stored, s, key) then stored[key]
    else if IsSecret(stored, s, key) then c.seal(s.incoming[key], s.salt)
    else s.incoming[key]
  }

  function Resolved(c: Cipher, stored: Env, s: Save): Env {
    map k | k in s.incoming :: Entry(c, stored, s, k)
  }

  function Unknown(s: Save): set<string> {
    if s.secret.Some? then s.secret.value - s.incoming.Keys else {}
  }

  /** The save is stored. */
  predicate Accepted(c: Cipher, stored: Env, s: Save) {
    && Unknown(s) == {}
    && (forall k :: k in s.incoming ==> !Refused(stored, s, k))
    && Shown(stored, s) == {}
    && (Kept(stored, s) == {} || !Retargets(c, stored, s))
  }

  /** What `resolve` may answer. Where several keys are refused, it names the first it meets. */
  ghost predicate Answers(c: Cipher, stored: Env, s: Save, r: Result) {
    if Unknown(s) != {} then r == UnknownSecrets(Unknown(s))
    else if exists k :: k in s.incoming && Refused(stored, s, k) then
      (r.NothingHidden? || r.LooksSealed?) && r.key in s.incoming && Refused(stored, s, r.key) &&
      (r.NothingHidden? <==> s.incoming[r.key] == HIDDEN)
    else if Shown(stored, s) != {} then r == MadeVisible(Shown(stored, s))
    else if Kept(stored, s) != {} && Retargets(c, stored, s) then r == MustReenter(Kept(stored, s))
    else r == Stored(Resolved(c, stored, s))
  }

  lemma OneMoreKey(c: Cipher, stored: Env, s: Save, done: set<string>, key: string)
    requires done <= s.incoming.Keys && key in s.incoming && key !in done
    ensures KeptIn(stored, s, done + {key}) == KeptIn(stored, s, done) + if Keeps(stored, s, key) then {key} else {}
    ensures ShownIn(stored, s, done + {key}) ==
            ShownIn(stored, s, done) + if Keeps(stored, s, key) && !IsSecret(stored, s, key) then {key} else {}
    ensures ChangedIn(c, stored, s, done + {key}) ==
            ChangedIn(c, stored, s, done) + if ChangesKey(c, stored, s, key) then {key} else {}
  {
  }

  /** What becomes of one key. */
  datatype Decision = Keep(shown: bool) | Refuse(why: Result) | Retype | Enter(value: string, changes: bool)

  /** The body of the pass, for one key. */
  method Decide(c: Cipher, stored: Env, s: Save, key: string) returns (d: Decision)
    requires key in s.incoming
    ensures d.Keep? <==> Keeps(stored, s, key)
    ensures d.Keep? ==> (d.shown <==> !IsSecret(stored, s, key))
    ensures d.Refuse? <==> Refused(stored, s, key)
    ensures d.Refuse? ==> d.why == if s.incoming[key] == HIDDEN then NothingHidden(key) else LooksSealed(key)
    ensures d.Retype? ==> SealedAt(stored, key) && Entry(c, stored, s, key) == stored[key]
    ensures d.Enter? ==> d.value == Entry(c, stored, s, key)
    ensures ChangesKey(c, stored, s, key) && !d.Refuse? <==> d.Enter? && d.changes
  {
    var value, was := s.incoming[key], if key in stored then Some(stored[key]) else None;
    var secret := if s.secret.Some? then key in s.secret.value else was.Some? && IsSealed(was.value);
    var sealed := was.Some? && IsSealed(was.value);
    if sealed && (value == HIDDEN || value == was.value) {
      return Keep(!secret);
    }
    if value == HIDDEN {
      return Refuse(NothingHidden(key));
    }
    if IsSealed(value) {
      return Refuse(LooksSealed(key));
    }
    if secret && sealed && c.unseal(was.value) == Some(value) {
      return Retype;
    }
    return Enter(if secret then c.seal(value, s.salt) else value, sealed || was != Some(value));
  }

  ghost predicate Settled(c: Cipher, stored: Env, s: Save, done: set<string>, out: Env) {
    && done <= s.incoming.Keys && out.Keys == done
    && forall k :: k in done ==> !Refused(stored, s, k) && out[k] == Entry(c, stored, s, k)
  }

  lemma SettledMore(c: Cipher, stored: Env, s: Save, done: set<string>, out: Env, key: string)
    requires Settled(c, stored, s, done, out) && key in s.incoming && !Refused(stored, s, key)
    ensures Settled(c, stored, s, done + {key}, out[key := Entry(c, stored, s, key)])
  {
  }

  /** The pass over what the save sends, up to the first refused value. */
  method Collect(c: Cipher, stored: Env, s: Save)
    returns (refused: Option<Result>, out: Env, kept: set<string>, shown: set<string>, changed: bool)
    ensures refused.None? ==>
              && (forall k :: k in s.incoming ==> !Refused(stored, s, k))
              && out == Resolved(c, stored, s) && kept == Kept(stored, s) && shown == Shown(stored, s)
              && (changed <==> Changed(c, stored, s) != {})
    ensures refused.Some? ==>
              var r := refused.value;
              && (r.NothingHidden? || r.LooksSealed?) && r.key in s.incoming && Refused(stored, s, r.key)
              && (r.NothingHidden? <==> s.incoming[r.key] == HIDDEN)
  {
    refused, out, kept, shown, changed := None, map[], {}, {}, false;
    var todo := s.incoming.Keys;
    ghost var done: set<string> := {};
    while todo != {}
      invariant refused.None? && done !! todo && done + todo == s.incoming.Keys && Settled(c, stored, s, done, out)
      invariant kept == KeptIn(stored, s, done) && shown == ShownIn(stored, s, done)
      invariant changed <==> ChangedIn(c, stored, s, done) != {}
      decreases todo
    {
      var key :| key in todo;
      OneMoreKey(c, stored, s, done, key);
      todo, done := todo - {key}, done + {key};
      var decision := Decide(c, stored, s, key);
      if decision.Refuse? {
        refused := Some(decision.why);
        return;
      }
      SettledMore(c, stored, s, done - {key}, out, key);
      out := out[key := if decision.Enter? then decision.value else stored[key]];
      if decision.Keep? {
        kept, shown := kept + {key}, if decision.shown then shown + {key} else shown;
      }
      changed := changed || (decision.Enter? && decision.changes);
    }
    assert done == s.incoming.Keys && out == Resolved(c, stored, s);
  }

  /** `resolve`. */
  method Resolve(c: Cipher, stored: Env, s: Save) returns (r: Result)
    ensures Answers(c, stored, s, r)
    ensures r.Stored? <==> Accepted(c, stored, s)
  {
    var unknown := if s.secret.Some? then s.secret.value - s.incoming.Keys else {};
    if unknown != {} {
      return UnknownSecrets(unknown);
    }
    var refused, out, kept, shown, changed := Collect(c, stored, s);
    if refused.Some? {
      return refused.value;
    }
    changed := changed || !(stored.Keys <= s.incoming.Keys);
    if shown != {} {
      return MadeVisible(shown);
    }
    if kept != {} && (s.retargeted || (s.envRunsCode && changed)) {
      return MustReenter(kept);
    }
    return Stored(out);
  }
}
