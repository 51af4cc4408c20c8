/**
 Field encryption: the dot-separated, key-tagged payload of the crypto service. The authenticated cipher
 (with its base64 text) is a parameter; the key set is fixed, with one active id.
 */
module Crypto {
  import opened Wrappers

  type Key = nat
  type Iv = nat

  /** The three base64 parts of a sealed text. */
  datatype Sealed = Sealed(iv: string, tag: string, ct: string)

  datatype Env = Env(
    seal: (Key, Iv, string) -> Sealed,
    unseal: (Key, Sealed) -> Option<string>,
    keys: map<string, Key>,
    active: string)

  /** Opening what was sealed under the same key gives the text back; base64 has no dots and is no shorter
      than the text it carries. */
  ghost predicate CipherOk(env: Env) {
    && env.active in env.keys
    && forall k, iv, p {:trigger env.seal(k, iv, p)} ::
         var s := env.seal(k, iv, p);
         env.unseal(k, s) == Some(p) && '.' !in s.iv && '.' !in s.tag && '.' !in s.ct && |p| <= |s.ct|
  }

  // ----- split and join ----------------------------------------------------------------------

  /** `split('.')`. */
  function Split(t: string): (parts: seq<string>)
    ensures |parts| >= 1
  {
    if t == "" then [""]
    else if t[0] == '.' then [""] + Split(t[1..])
    else
      var rest := Split(t[1..]);
      [[t[0]] + rest[0]] + rest[1..]
  }

  lemma {:induction false} SplitPlain(a: string)
    requires '.' !in a
    ensures Split(a) == [a]
    decreases |a|
  {
    if a != "" {
      assert a[0] in a;
      SplitPlain(a[1..]);
      assert [a[0]] + a[1..] == a;
    }
  }

  /** Splitting cuts off a first part that has no dot. */
  lemma {:induction false} SplitFirst(a: string, rest: string)
    requires '.' !in a
    ensures Split(a + ("." + rest)) == [a] + Split(rest)
    decreases |a|
  {
    var t := a + ("." + rest);
    if a == "" {
      assert t[1..] == rest;
    } else {
      assert a[0] in a;
      assert t[0] == a[0] && t[1..] == a[1..] + ("." + rest);
      SplitFirst(a[1..], rest);
      assert [a[0]] + a[1..] == a;
      assert Split(t) == [[t[0]] + a[1..]] + Split(rest);
    }
  }

  /** The first part runs up to the first dot. */
  lemma {:induction false} SplitHead(t: string)
    ensures var h := Split(t)[0]; |h| <= |t| && t[..|h|] == h && (|Split(t)| > 1 ==> |h| < |t| && t[|h|] == '.')
    decreases |t|
  {
    if t != "" && t[0] != '.' {
      SplitHead(t[1..]);
      var h := Split(t[1..])[0];
      assert Split(t)[0] == [t[0]] + h;
      assert t[..|h| + 1] == [t[0]] + t[1..][..|h|];
    }
  }

  function Dots(t: string): nat {
    if t == "" then 0 else (if t[0] == '.' then 1 else 0) + Dots(t[1..])
  }

  lemma {:induction false} SplitCount(t: string)
    ensures |Split(t)| == Dots(t) + 1
    decreases |t|
  {
    if t != "" { SplitCount(t[1..]); }
  }

  lemma {:induction false} DotsAppend(a: string, b: string)
    ensures Dots(a + b) == Dots(a) + Dots(b)
    decreases |a|
  {
    if a == "" {
      assert a + b == b;
    } else {
      assert (a + b)[1..] == a[1..] + b;
      DotsAppend(a[1..], b);
    }
  }

  lemma NoDots(a: string)
    ensures Dots(a) == 0 <==> '.' !in a
  {
    if a != "" {
      NoDots(a[1..]);
      assert a == [a[0]] + a[1..];
    }
  }

  // ----- the service -------------------------------------------------------------------------

  /** v2.<keyId>.<iv>.<tag>.<ct> */
  function Payload(id: string, s: Sealed): string {
    "v2" + ("." + (id + ("." + (s.iv + ("." + (s.tag + ("." + s.ct)))))))
  }

  function Encrypt(env: Env, iv: Iv, plain: Option<string>): Option<string>
    requires env.active in env.keys
  {
    if plain.None? || plain.value == "" then None
    else Some(Payload(env.active, env.seal(env.keys[env.active], iv, plain.value)))
  }

  function KeyById(env: Env, id: string): Option<Key> {
    if id in env.keys then Some(env.keys[id]) else None
  }

  function LegacyKey(env: Env): Key
    requires env.active in env.keys
  {
    if "1" in env.keys then env.keys["1"] else if "dev" in env.keys then env.keys["dev"] else env.keys[env.active]
  }

  predicate IsV2(parts: seq<string>) { |parts| == 5 && parts[0] == "v2" }

  predicate IsV1(parts: seq<string>) { |parts| == 4 && parts[0] == "v1" }

  function Decrypt(env: Env, payload: Option<string>): Option<string>
    requires env.active in env.keys
  {
    if payload.None? || payload.value == "" then None
    else
      var parts := Split(payload.value);
      if IsV2(parts) then
        match KeyById(env, parts[1])
        case None => None
        case Some(k) => env.unseal(k, Sealed(parts[2], parts[3], parts[4]))
      else if IsV1(parts) then env.unseal(LegacyKey(env), Sealed(parts[1], parts[2], parts[3]))
      else payload
  }

  predicate NeedsReencrypt(env: Env, payload: Option<string>) {
    payload.Some? && payload.value != "" &&
    var parts := Split(payload.value);
    if IsV2(parts) then parts[1] != env.active else IsV1(parts)
  }

  function Reencrypt(env: Env, iv: Iv, payload: Option<string>): Option<string>
    requires env.active in env.keys
  {
    if NeedsReencrypt(env, payload) then Encrypt(env, iv, Decrypt(env, payload)) else payload
  }

  // ----- what it guarantees --------------------------------------------------------------------

  lemma SplitPayload(id: string, s: Sealed)
    requires '.' !in s.iv && '.' !in s.tag && '.' !in s.ct
    ensures '.' !in id ==> Split(Payload(id, s)) == ["v2", id, s.iv, s.tag, s.ct]
    ensures '.' in id ==> |Split(Payload(id, s))| > 5
  {
    var p4 := s.tag + ("." + s.ct);
    var p3 := s.iv + ("." + p4);
    var p2 := id + ("." + p3);
    hide Split, Dots;
    if '.' !in id {
      SplitPlain(s.ct);
      SplitFirst(s.tag, s.ct);
      SplitFirst(s.iv, p4);
      SplitFirst(id, p3);
      SplitFirst("v2", p2);
    } else {
      SplitCount(Payload(id, s));
      DotsAppend("v2", "." + p2);
      DotsAppend(".", p2);
      DotsAppend(id, "." + p3);
      DotsAppend(".", p3);
      DotsAppend(s.iv, "." + p4);
      DotsAppend(".", p4);
      DotsAppend(s.tag, "." + s.ct);
      DotsAppend(".", s.ct);
      NoDots(id);
      OneDot();
    }
  }

  lemma OneDot()
    ensures Dots(".") == 1
  {
    assert "."[1..] == "";
  }

  /** Encrypting then decrypting gives the text back exactly when the active key id has no dot in it. */
  lemma DecryptUndoesEncrypt(env: Env, iv: Iv, p: string)
    requires CipherOk(env) && p != ""
    ensures Decrypt(env, Encrypt(env, iv, Some(p))) == Some(p) <==> '.' !in env.active
    ensures !NeedsReencrypt(env, Encrypt(env, iv, Some(p)))
  {
    var s := env.seal(env.keys[env.active], iv, p);
    SplitPayload(env.active, s);
    assert Payload(env.active, s) != "";
    assert |Payload(env.active, s)| > |s.ct|;
  }

  /**
   Re-encryption keeps what decryption gives and leaves nothing to do - except that a ciphertext which no
   longer decrypts (or decrypts to nothing) is erased.
   */
  lemma ReencryptKeepsOrErases(env: Env, iv: Iv, x: string)
    requires CipherOk(env) && '.' !in env.active
    ensures var was, now := Some(x), Reencrypt(env, iv, Some(x));
            var d := Decrypt(env, was);
            && !NeedsReencrypt(env, now)
            && (now == None <==> NeedsReencrypt(env, was) && (d == None || d == Some("")))
            && (now != None ==> Decrypt(env, now) == d)
  {
    var d := Decrypt(env, Some(x));
    if d.Some? && d.value != "" { DecryptUndoesEncrypt(env, iv, d.value); }
  }
}
