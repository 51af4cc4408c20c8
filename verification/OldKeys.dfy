/**
 Which key opens which stored text, and what a rotation sweep makes of it, in terms of the texts themselves.
 */
module OldKeys {
  import opened Wrappers
  import opened Crypto
  import opened Rotation

  /** A current payload: version, key id and the three parts. */
  function V2Text(id: string, s: Sealed): string {
    "v2." + id + "." + s.iv + "." + s.tag + "." + s.ct
  }

  /** A legacy payload: no key id. */
  function V1Text(s: Sealed): string {
    "v1." + s.iv + "." + s.tag + "." + s.ct
  }

  lemma V2IsPayload(id: string, s: Sealed)
    ensures V2Text(id, s) == Payload(id, s)
  {
    assert "v2." == "v2" + ".";
  }

  lemma V2Parts(id: string, s: Sealed)
    requires '.' !in id && '.' !in s.iv && '.' !in s.tag && '.' !in s.ct
    ensures Split(V2Text(id, s)) == ["v2", id, s.iv, s.tag, s.ct] && V2Text(id, s) != ""
  {
    V2IsPayload(id, s);
    SplitPayload(id, s);
  }

  lemma V1Parts(s: Sealed)
    requires '.' !in s.iv && '.' !in s.tag && '.' !in s.ct
    ensures Split(V1Text(s)) == ["v1", s.iv, s.tag, s.ct] && V1Text(s) != ""
  {
    var p3 := s.tag + ("." + s.ct);
    var p2 := s.iv + ("." + p3);
    assert "v1." == "v1" + ".";
    assert V1Text(s) == "v1" + ("." + p2);
    hide Split;
    SplitPlain(s.ct);
    SplitFirst(s.tag, s.ct);
    SplitFirst(s.iv, p3);
    SplitFirst("v1", p2);
  }

  /** What the cipher gives for a text under a key. */
  lemma SealedParts(env: Env, k: Key, iv: Iv, p: string)
    requires CipherOk(env)
    ensures var s := env.seal(k, iv, p);
            env.unseal(k, s) == Some(p) && '.' !in s.iv && '.' !in s.tag && '.' !in s.ct
  {
  }

  // ----- which key opens a text ------------------------------------------------------------------------

  /** A payload tagged with the id of any key in the set, active or not, opens with that key. */
  lemma V2Opens(env: Env, id: string, iv: Iv, p: string)
    requires CipherOk(env) && id in env.keys && '.' !in id
    ensures var text := V2Text(id, env.seal(env.keys[id], iv, p));
            && Decrypt(env, Some(text)) == Some(p)
            && (NeedsReencrypt(env, Some(text)) <==> id != env.active)
  {
    SealedParts(env, env.keys[id], iv, p);
    hide CipherOk, Split, V2Text;
    V2Parts(id, env.seal(env.keys[id], iv, p));
  }

  /** A payload tagged with an id that is not in the set no longer opens. */
  lemma UnknownKeyOpensNothing(env: Env, id: string, s: Sealed)
    requires env.active in env.keys && id !in env.keys
    requires '.' !in id && '.' !in s.iv && '.' !in s.tag && '.' !in s.ct
    ensures Decrypt(env, Some(V2Text(id, s))) == None
  {
    hide Split, V2Text;
    V2Parts(id, s);
  }

  /** The key of legacy payloads is "1" if there is one, else "dev", else the active key - whichever is active. */
  ghost predicate LegacyKeyIs(env: Env, k: Key)
    requires env.active in env.keys
  {
    && ("1" in env.keys ==> k == env.keys["1"])
    && ("1" !in env.keys && "dev" in env.keys ==> k == env.keys["dev"])
    && ("1" !in env.keys && "dev" !in env.keys ==> k == env.keys[env.active])
  }

  /** A legacy payload opens with that key, and is always due. */
  lemma V1Opens(env: Env, k: Key, iv: Iv, p: string)
    requires CipherOk(env) && LegacyKeyIs(env, k)
    ensures var text := V1Text(env.seal(k, iv, p));
            Decrypt(env, Some(text)) == Some(p) && NeedsReencrypt(env, Some(text))
  {
    SealedParts(env, k, iv, p);
    hide CipherOk, Split, V1Text;
    V1Parts(env.seal(k, iv, p));
  }

  /** Encryption tags its payload with the active id and seals it under the active key. */
  lemma EncryptsUnderActive(env: Env, iv: Iv, p: string)
    requires env.active in env.keys && p != ""
    ensures Encrypt(env, iv, Some(p)) == Some(V2Text(env.active, env.seal(env.keys[env.active], iv, p)))
  {
    V2IsPayload(env.active, env.seal(env.keys[env.active], iv, p));
  }

  // ----- what a sweep makes of it ------------------------------------------------------------------------

  /** `text` is `p` sealed under a key that is due for rotation. */
  ghost predicate UnderOldKey(env: Env, text: string, p: string)
    requires env.active in env.keys
  {
    || (exists id, iv :: id in env.keys && id != env.active && '.' !in id
                         && text == V2Text(id, env.seal(env.keys[id], iv, p)))
    || (exists k, iv :: LegacyKeyIs(env, k) && text == V1Text(env.seal(k, iv, p)))
  }

  /** `text` is `p` sealed under the active key. */
  ghost predicate UnderActiveKey(env: Env, text: string, p: string)
    requires env.active in env.keys
  {
    exists iv :: text == V2Text(env.active, env.seal(env.keys[env.active], iv, p))
  }

  /** It does not even begin like a payload: a value still stored in the clear. */
  predicate InTheClear(text: string) {
    |text| < 3 || text[..3] !in {"v1.", "v2."}
  }

  lemma OldKeyIsDue(env: Env, text: string, p: string)
    requires CipherOk(env) && UnderOldKey(env, text, p)
    ensures Decrypt(env, Some(text)) == Some(p) && NeedsReencrypt(env, Some(text)) && text != ""
  {
    ActiveInKeys(env);
    hide Decrypt, NeedsReencrypt, CipherOk, V1Text, V2Text;
    if id, iv :| id in env.keys && id != env.active && '.' !in id
                 && text == V2Text(id, env.seal(env.keys[id], iv, p)) {
      V2Opens(env, id, iv, p);
    } else {
      var k, iv :| LegacyKeyIs(env, k) && text == V1Text(env.seal(k, iv, p));
      V1Opens(env, k, iv, p);
    }
    EmptyIsNotDue(env);
  }

  lemma EmptyIsNotDue(env: Env)
    requires env.active in env.keys
    ensures !NeedsReencrypt(env, Some("")) && !NeedsReencrypt(env, None)
  {
  }

  lemma ClearIsNotDue(env: Env, text: string)
    requires env.active in env.keys && InTheClear(text)
    ensures !NeedsReencrypt(env, Some(text)) && (text != "" ==> Decrypt(env, Some(text)) == Some(text))
  {
    if text != "" {
      var parts := Split(text);
      SplitHead(text);
      hide Split;
      if |parts| > 1 && |parts[0]| == 2 {
        assert text[..3] == parts[0] + ".";
        assert "v1" + "." == "v1." && "v2" + "." == "v2.";
      }
    }
  }

  /** What the sweep leaves of a column. */
  ghost predicate SweptTo(env: Env, was: Option<string>, now: Option<string>)
    requires env.active in env.keys
  {
    && (forall text, p | was == Some(text) && p != "" && UnderOldKey(env, text, p) ::
          now.Some? && UnderActiveKey(env, now.value, p))
    && (forall text, p | was == Some(text) && UnderActiveKey(env, text, p) :: now == was)
    && (was.Some? && InTheClear(was.value) ==> now == was)
    && (was == None ==> now == None)
  }

  lemma ColumnSwept(env: Env, was: Option<string>, now: Option<string>)
    requires CipherOk(env) && '.' !in env.active && Reencrypted(env, was, now)
    ensures SweptTo(env, was, now)
  {
    var iv2: Iv :| now == Reencrypt(env, iv2, was);
    hide Decrypt, NeedsReencrypt, CipherOk, V2Text, UnderOldKey;
    EmptyIsNotDue(env);
    forall text, p | was == Some(text) && p != "" && UnderOldKey(env, text, p)
      ensures now.Some? && UnderActiveKey(env, now.value, p)
    {
      OldKeyIsDue(env, text, p);
      EncryptsUnderActive(env, iv2, p);
    }
    forall text, p | was == Some(text) && UnderActiveKey(env, text, p) ensures now == was {
      var iv: Iv :| text == V2Text(env.active, env.seal(env.keys[env.active], iv, p));
      ActiveInKeys(env);
      V2Opens(env, env.active, iv, p);
    }
    if was.Some? && InTheClear(was.value) { ClearIsNotDue(env, was.value); }
  }

  lemma ActiveInKeys(env: Env)
    requires CipherOk(env)
    ensures env.active in env.keys
  {
  }

  /**
   A sweep over a table, in the texts it holds: whatever key of the set a column was sealed under, legacy
   payloads included, it is afterwards the same text sealed under the active key; columns under the active key,
   in the clear or null stay as they are.
   */
  lemma SweepMigrates(env: Env, before: seq<Row>, after: seq<Row>)
    requires CipherOk(env) && '.' !in env.active && Rotated(env, before, after)
    ensures |after| == |before|
    ensures forall i, c | 0 <= i < |before| && 0 <= c < |before[i].cols| ::
              |after[i].cols| == |before[i].cols| && SweptTo(env, before[i].cols[c], after[i].cols[c])
  {
    ActiveInKeys(env);
    hide Reencrypted, SweptTo, CipherOk;
    forall i, c | 0 <= i < |before| && 0 <= c < |before[i].cols|
      ensures |after[i].cols| == |before[i].cols| && SweptTo(env, before[i].cols[c], after[i].cols[c])
    {
      assert RowRotated(env, before[i], after[i]);
      ColumnSwept(env, before[i].cols[c], after[i].cols[c]);
    }
  }
}
