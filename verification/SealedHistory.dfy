/** What every history of saves keeps of a server's secret env (backend/app/sealed.py). */
module SealedHistory {
  import opened Basics
  import opened SealedEnv

  // ---------------------------------------------------------------- what an env means

  /** A value as the server's process reads it. */
  function Plaintext(c: Cipher, value: string): Option<string> {
    if IsSealed(value) then c.unseal(value) else Some(value)
  }

  /** No stored value, sealed or not, reads as the mask or as a token. */
  ghost predicate Clean(c: Cipher, env: Env) {
    forall k :: k in env ==>
      var value := Plaintext(c, env[k]);
      value.Some? && value.value != HIDDEN && !IsSealed(value.value)
  }

  predicate Readable(c: Cipher, env: Env) {
    forall k :: k in env ==> Plaintext(c, env[k]).Some?
  }

  function Plain(c: Cipher, env: Env): Env
    requires Readable(c, env)
  {
    map k | k in env :: Plaintext(c, env[k]).value
  }

  /** `unseal_env`: every value opened, or the keys that can't be. */
  method UnsealEnv(c: Cipher, env: Env) returns (plain: Env, lost: set<string>)
    ensures lost == set k | k in env && Plaintext(c, env[k]).None?
    ensures lost == {} ==> Readable(c, env) && plain == Plain(c, env)
  {
    plain, lost := map[], {};
    var todo := env.Keys;
    while todo != {}
      invariant todo <= env.Keys && plain.Keys + lost == env.Keys - todo
      invariant forall k :: k in plain ==> Plaintext(c, env[k]) == Some(plain[k])
      invariant lost == set k | k in env && k !in todo && Plaintext(c, env[k]).None?
      decreases todo
    {
      var key :| key in todo;
      todo := todo - {key};
      var value := Plaintext(c, env[key]);
      if value.None? {
        lost := lost + {key};
      } else {
        plain := plain[key := value.value];
      }
    }
  }

  /** The save asks for the key to be secret, or says nothing about that and it was. */
  predicate AskedSecret(stored: Env, s: Save, key: string) {
    match s.secret
    case Some(keys) => key in keys
    case None => key in stored && IsSealed(stored[key])
  }

  /** The save sends a stored secret back as the API shows it, or as its token. */
  predicate LeavesHidden(stored: Env, s: Save, key: string)
    requires key in s.incoming
  {
    key in stored && IsSealed(stored[key]) && s.incoming[key] in {HIDDEN, stored[key]}
  }

  /** A stored save means what it sent: a kept secret stays what it was, everything else is what
      was typed, and exactly the keys asked to be secret are sealed. */
  lemma SavedValuesMeanWhatWasSent(c: Cipher, stored: Env, s: Save, key: string)
    requires Inverts(c) && Accepted(c, stored, s) && key in s.incoming
    ensures var env := Resolved(c, stored, s);
            && env.Keys == s.incoming.Keys && (IsSealed(env[key]) <==> AskedSecret(stored, s, key))
            && Plaintext(c, env[key]) ==
               if LeavesHidden(stored, s, key) then Plaintext(c, stored[key]) else Some(s.incoming[key])
  {
    assert !Refused(stored, s, key);
    if Keeps(stored, s, key) {
      assert key !in Shown(stored, s);
    }
  }

  lemma SavesStayClean(c: Cipher, stored: Env, s: Save)
    requires Inverts(c) && Clean(c, stored) && Accepted(c, stored, s)
    ensures Clean(c, Resolved(c, stored, s))
  {
    forall k | k in s.incoming
      ensures var value := Plaintext(c, Resolved(c, stored, s)[k]);
              value.Some? && value.value != HIDDEN && !IsSealed(value.value)
    {
      SavedValuesMeanWhatWasSent(c, stored, s, k);
      assert !Refused(stored, s, k);
    }
  }

  // ---------------------------------------------------------------- every history of saves

  /** The stored env after `saves`, oldest first, from the server's creation on; a refused save
      leaves it alone. */
  function After(c: Cipher, saves: seq<Save>): Env
    decreases |saves|
  {
    if saves == [] then map[]
    else
      var (before, last) := (After(c, saves[..|saves| - 1]), saves[|saves| - 1]);
      if Accepted(c, before, last) then Resolved(c, before, last) else before
  }

  lemma {:induction false} HistoriesStayClean(c: Cipher, saves: seq<Save>)
    requires Inverts(c)
    ensures Clean(c, After(c, saves))
    decreases |saves|
  {
    if saves != [] {
      var before := saves[..|saves| - 1];
      HistoriesStayClean(c, before);
      if Accepted(c, After(c, before), saves[|saves| - 1]) {
        SavesStayClean(c, After(c, before), saves[|saves| - 1]);
      }
    }
  }

  predicate StoredSave(c: Cipher, saves: seq<Save>, i: nat)
    requires i < |saves|
  {
    Accepted(c, After(c, saves[..i]), saves[i])
  }

  /** Every key reads the same in both, and neither has one more. */
  ghost predicate ReadsTheSame(c: Cipher, before: Env, after: Env) {
    before.Keys == after.Keys && forall k :: k in before ==> Plaintext(c, before[k]) == Plaintext(c, after[k])
  }

  /** Save `i` left what the server runs alone: neither its target nor, where its own process reads
      the env, what any variable reads. */
  ghost predicate LeavesItRunning(c: Cipher, saves: seq<Save>, i: nat)
    requires i < |saves|
  {
    !saves[i].retargeted && (saves[i].envRunsCode ==> ReadsTheSame(c, After(c, saves[..i]), After(c, saves[..i + 1])))
  }

  /** Save `j` was stored, typed in what `key` holds now, and every save stored since left what the
      server runs alone. */
  ghost predicate TypedAt(c: Cipher, saves: seq<Save>, key: string, j: nat) {
    && j < |saves| && StoredSave(c, saves, j)
    && key in After(c, saves) && key in saves[j].incoming
    && Plaintext(c, After(c, saves)[key]) == Some(saves[j].incoming[key])
    && forall i :: j < i < |saves| && StoredSave(c, saves, i) ==> LeavesItRunning(c, saves, i)
  }

  /** A save that keeps a hidden value and is stored changes nothing that runs. */
  lemma KeepingLeavesItRunning(c: Cipher, stored: Env, s: Save, key: string)
    requires Inverts(c) && Accepted(c, stored, s) && key in s.incoming && LeavesHidden(stored, s, key)
    ensures !s.retargeted && (s.envRunsCode ==> ReadsTheSame(c, stored, Resolved(c, stored, s)))
  {
    assert key in Kept(stored, s);
    if s.envRunsCode {
      assert Changed(c, stored, s) == {} && stored.Keys <= s.incoming.Keys;
      forall k | k in s.incoming
        ensures k in stored && Plaintext(c, stored[k]) == Plaintext(c, Resolved(c, stored, s)[k])
      {
        assert k !in Changed(c, stored, s);
        assert !ChangesKey(c, stored, s, k) && !Refused(stored, s, k);
        SavedValuesMeanWhatWasSent(c, stored, s, k);
      }
    }
  }

  lemma StillTyped(c: Cipher, saves: seq<Save>, last: Save, key: string, j: nat)
    requires TypedAt(c, saves, key, j)
    requires key in After(c, saves + [last]) && After(c, saves + [last])[key] == After(c, saves)[key]
    requires Accepted(c, After(c, saves), last) ==>
               !last.retargeted &&
               (last.envRunsCode ==> ReadsTheSame(c, After(c, saves), Resolved(c, After(c, saves), last)))
    ensures TypedAt(c, saves + [last], key, j)
  {
    var all := saves + [last];
    assert forall i :: 0 <= i <= |saves| ==> all[..i] == saves[..i];
    assert saves[..|saves|] == saves && all[..|saves| + 1] == all;
    forall i | j < i < |all| && StoredSave(c, all, i)
      ensures LeavesItRunning(c, all, i)
    {
      if i < |saves| {
        assert StoredSave(c, saves, i) && LeavesItRunning(c, saves, i);
      } else {
        assert all[..i] == saves && After(c, all) == Resolved(c, After(c, saves), last);
      }
    }
  }

  /** Every sealed value was typed in as plaintext in, or after, the last stored save that changed
      what the server runs: it can't be carried anywhere else. */
  lemma {:induction false} SecretsWereTypedForWhatRuns(c: Cipher, saves: seq<Save>, key: string)
    requires Inverts(c) && SealedAt(After(c, saves), key)
    ensures exists j :: TypedAt(c, saves, key, j)
    decreases |saves|
  {
    var (init, last) := (saves[..|saves| - 1], saves[|saves| - 1]);
    var before := After(c, init);
    assert saves == init + [last];
    if !Accepted(c, before, last) {
      SecretsWereTypedForWhatRuns(c, init, key);
      var j :| TypedAt(c, init, key, j);
      StillTyped(c, init, last, key, j);
    } else if Keeps(before, last, key) {
      SecretsWereTypedForWhatRuns(c, init, key);
      var j :| TypedAt(c, init, key, j);
      KeepingLeavesItRunning(c, before, last, key);
      StillTyped(c, init, last, key, j);
    } else {
      SavedValuesMeanWhatWasSent(c, before, last, key);
      assert TypedAt(c, saves, key, |init|);
    }
  }

  // ---------------------------------------------------------------- what a save is asked for

  /** A value the save adds or changes, as the variable reads; a secret typed in again to be stored in
      the clear counts too. */
  predicate TypesAnother(c: Cipher, stored: Env, s: Save, key: string)
    requires key in s.incoming
  {
    !LeavesHidden(stored, s, key) &&
    (key !in stored || Plaintext(c, stored[key]) != Some(s.incoming[key]) ||
     (IsSealed(stored[key]) && !AskedSecret(stored, s, key)))
  }

  /** What may stand against a save before its hidden values do. */
  ghost predicate WellMade(stored: Env, s: Save) {
    && (s.secret.Some? ==> s.secret.value <= s.incoming.Keys)
    && forall k :: k in s.incoming ==>
         if LeavesHidden(stored, s, k) then AskedSecret(stored, s, k)
         else s.incoming[k] != HIDDEN && !IsSealed(s.incoming[k])
  }

  /** A save is told to enter hidden values again exactly when it leaves some hidden and changes what
      the server runs: its target, or, where the server's own process reads the env, any value,
      added, changed or removed. Otherwise a well-made save is stored. */
  lemma AskedAgainIff(c: Cipher, stored: Env, s: Save, r: Result)
    requires Answers(c, stored, s, r) && WellMade(stored, s)
    ensures var hidden := set k | k in s.incoming && LeavesHidden(stored, s, k);
            var moves := s.retargeted ||
                         (s.envRunsCode && (!(stored.Keys <= s.incoming.Keys) ||
                                            exists k :: k in s.incoming && TypesAnother(c, stored, s, k)));
            if hidden != {} && moves then r == MustReenter(hidden) else r == Stored(Resolved(c, stored, s))
  {
    forall k | k in s.incoming
      ensures LeavesHidden(stored, s, k) <==> Keeps(stored, s, k)
      ensures !Refused(stored, s, k) && (TypesAnother(c, stored, s, k) <==> ChangesKey(c, stored, s, k))
      ensures AskedSecret(stored, s, k) <==> IsSecret(stored, s, k)
    {
    }
    assert Unknown(s) == {} && Shown(stored, s) == {};
    assert Kept(stored, s) == set k | k in s.incoming && LeavesHidden(stored, s, k);
    assert Changed(c, stored, s) != {} <==> exists k :: k in s.incoming && TypesAnother(c, stored, s, k) by {
      if k :| k in s.incoming && TypesAnother(c, stored, s, k) {
        assert k in Changed(c, stored, s);
      }
    }
  }

  /** And one that isn't well made is told why: secrets it doesn't send, a mask or a token where no
      hidden value is stored, or hidden values it would show. */
  lemma BadlyMadeIsToldWhy(c: Cipher, stored: Env, s: Save, r: Result)
    requires Answers(c, stored, s, r) && !WellMade(stored, s)
    ensures match r
            case UnknownSecrets(keys) => s.secret.Some? && keys == s.secret.value - s.incoming.Keys != {}
            case NothingHidden(k) => k in s.incoming && s.incoming[k] == HIDDEN && !LeavesHidden(stored, s, k)
            case LooksSealed(k) => k in s.incoming && IsSealed(s.incoming[k]) && !LeavesHidden(stored, s, k)
            case MadeVisible(keys) =>
              keys != {} && keys == set k | k in s.incoming && LeavesHidden(stored, s, k) && !AskedSecret(stored, s, k)
            case _ => false
  {
    forall k | k in s.incoming
      ensures LeavesHidden(stored, s, k) <==> Keeps(stored, s, k)
      ensures AskedSecret(stored, s, k) <==> IsSecret(stored, s, k)
    {
    }
    assert Shown(stored, s) == set k | k in s.incoming && LeavesHidden(stored, s, k) && !AskedSecret(stored, s, k);
    if Unknown(s) == {} && forall k :: k in s.incoming ==> !Refused(stored, s, k) {
      assert s.secret.Some? ==> forall k :: k in s.secret.value && k !in s.incoming ==> k in Unknown(s);
      var k :| k in s.incoming && LeavesHidden(stored, s, k) && !AskedSecret(stored, s, k);
      assert k in Shown(stored, s);
    }
  }

  /** A secret left hidden, or typed in again as it was, keeps its stored token. */
  lemma UnchangedSecretsKeepTheirToken(c: Cipher, stored: Env, s: Save, key: string)
    requires key in s.incoming && key in stored && IsSealed(stored[key]) && AskedSecret(stored, s, key)
    requires LeavesHidden(stored, s, key) || c.unseal(stored[key]) == Some(s.incoming[key])
    ensures Resolved(c, stored, s)[key] == stored[key]
  {
  }

  // ---------------------------------------------------------------- round trips

  /** What the API shows has no token in it, the mask for each, and every other value as it is. */
  lemma MaskedShowsNoToken(env: Env)
    ensures Masked(env).Keys == env.Keys
    ensures forall k :: k in env ==> Masked(env)[k] == if PREFIX <= env[k] then "<hidden>" else env[k]
    ensures forall v :: v in Masked(env).Values ==> !IsSealed(v)
  {
    assert !IsSealed(HIDDEN);
  }

  /** Sending back what the API shows, with nothing else changed, stores exactly what was stored,
      unless some plain value reads as the mask. */
  lemma MaskedResaveIsExactIff(c: Cipher, env: Env, named: bool, envRunsCode: bool, salt: nat)
    ensures var s := Save(Masked(env), if named then Some(SecretKeys(env)) else None, false, envRunsCode, salt);
            (Accepted(c, env, s) && Resolved(c, env, s) == env) <==> HIDDEN !in env.Values
  {
    var s := Save(Masked(env), if named then Some(SecretKeys(env)) else None, false, envRunsCode, salt);
    if HIDDEN in env.Values {
      var k :| k in env && env[k] == HIDDEN;
      assert !IsSealed(HIDDEN);
      assert Refused(env, s, k);
    } else {
      forall k | k in env
        ensures !Refused(env, s, k) && Entry(c, env, s, k) == env[k] && !ChangesKey(c, env, s, k)
        ensures Keeps(env, s, k) ==> IsSecret(env, s, k)
      {
        assert env[k] != HIDDEN;
      }
    }
  }

  /** And no history of saves stores such a value. */
  lemma EveryHistoryResavesExactly(c: Cipher, saves: seq<Save>, named: bool, envRunsCode: bool, salt: nat)
    requires Inverts(c)
    ensures var env := After(c, saves);
            var s := Save(Masked(env), if named then Some(SecretKeys(env)) else None, false, envRunsCode, salt);
            Accepted(c, env, s) && Resolved(c, env, s) == env
  {
    var env := After(c, saves);
    HistoriesStayClean(c, saves);
    assert !IsSealed(HIDDEN);
    assert HIDDEN !in env.Values;
    MaskedResaveIsExactIff(c, env, named, envRunsCode, salt);
  }

  /** A clone unseals the source's env and seals the same keys again: it means the same, and keeps
      the same keys secret. */
  lemma CloneMeansTheSame(c: Cipher, saves: seq<Save>, salt: nat)
    requires Inverts(c)
    ensures var env := After(c, saves);
            Readable(c, env) &&
            var s := Save(Plain(c, env), Some(SecretKeys(env)), false, false, salt);
            && Accepted(c, map[], s)
            && var copy := Resolved(c, map[], s);
               Readable(c, copy) && Plain(c, copy) == Plain(c, env) && SecretKeys(copy) == SecretKeys(env)
  {
    var env := After(c, saves);
    HistoriesStayClean(c, saves);
    var s := Save(Plain(c, env), Some(SecretKeys(env)), false, false, salt);
    assert Accepted(c, map[], s);
    var copy := Resolved(c, map[], s);
    forall k | k in env
      ensures Plaintext(c, copy[k]) == Plaintext(c, env[k]) && (SealedAt(copy, k) <==> SealedAt(env, k))
    {
      SavedValuesMeanWhatWasSent(c, map[], s, k);
    }
    assert copy.Keys == env.Keys;
  }
}
