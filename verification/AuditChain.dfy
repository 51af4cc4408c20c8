/**
 The tamper-evident audit log: the hashed payload, the locked append (`AuditService.log`) and the
 checker (`AuditQueryService.verify`). SHA-256 and Date.toISOString are parameters.
 */
module AuditChain {
  import opened Wrappers
  import opened StableJson

  /** The hash and the timestamp printer the log is run with. */
  datatype Env = Env(hash: string -> string, iso: int -> string)

  predicate IsHex(t: string) {
    forall i | 0 <= i < |t| :: '0' <= t[i] <= '9' || 'a' <= t[i] <= 'f'
  }

  /** Digests are 64 lower-case hex digits. Nothing is assumed about collisions. */
  ghost predicate Digests(env: Env) {
    forall t {:trigger env.hash(t)} :: |env.hash(t)| == 64 && IsHex(env.hash(t))
  }

  ghost predicate IsoInjective(env: Env) {
    forall m, n {:trigger env.iso(m), env.iso(n)} :: env.iso(m) == env.iso(n) ==> m == n
  }

  /** The hashed fields of an entry; an absent before/after value is `Null`. */
  datatype Entry = Entry(
    actorType: string, actorId: Option<string>, action: string, entity: string,
    entityId: Option<string>, beforeJson: Json, afterJson: Json)

  /** A stored row. The null hash of the first row is the empty string, as `|| ''` reads it. */
  datatype Row = Row(entry: Entry, createdAt: int, prev: string, curr: string)

  predicate WellFormedEntry(e: Entry) {
    WellFormed(e.beforeJson) && WellFormed(e.afterJson)
  }

  function OrNull(s: Option<string>): Json {
    if s.Some? then Str(s.value) else Null
  }

  function Fields(e: Entry, ts: string): seq<Keyed<Json>> {
    [Keyed("actorType", Str(e.actorType)), Keyed("actorId", OrNull(e.actorId)),
     Keyed("action", Str(e.action)), Keyed("entity", Str(e.entity)), Keyed("entityId", OrNull(e.entityId)),
     Keyed("beforeJson", e.beforeJson), Keyed("afterJson", e.afterJson), Keyed("ts", Str(ts))]
  }

  function Payload(env: Env, e: Entry, createdAt: int): string {
    Stringify(Obj(Fields(e, env.iso(createdAt))))
  }

  /** The hash of the row before row `i`, or the empty string before the first. */
  function PrevHash(rows: seq<Row>, i: nat): string
    requires i <= |rows|
  {
    if i == 0 then "" else rows[i - 1].curr
  }

  /** The text whose digest row `i` must carry. */
  function Preimage(env: Env, rows: seq<Row>, i: nat): string
    requires i < |rows|
  {
    PrevHash(rows, i) + Payload(env, rows[i].entry, rows[i].createdAt)
  }

  predicate LinkOk(env: Env, rows: seq<Row>, i: nat)
    requires i < |rows|
  {
    rows[i].prev == PrevHash(rows, i) && rows[i].curr == env.hash(Preimage(env, rows, i))
  }

  predicate Accepted(env: Env, rows: seq<Row>) {
    forall i | 0 <= i < |rows| :: LinkOk(env, rows, i)
  }

  datatype Reason = PrevLinkMismatch | HashMismatch

  datatype Verdict =
    | Verified(count: nat, headHash: Option<string>)
    | Broken(count: nat, brokenAt: nat, reason: Reason)

  /** `verify`: one pass over the rows in creation order, stopping at the first break. */
  method Verify(env: Env, rows: seq<Row>) returns (v: Verdict)
    requires Digests(env)
    ensures v.count == |rows|
    ensures v.Verified? <==> Accepted(env, rows)
    ensures v.Verified? ==> v.headHash == if rows == [] then None else Some(rows[|rows| - 1].curr)
    ensures v.Broken? ==>
              && 0 < v.brokenAt <= |rows|
              && (forall i | 0 <= i < v.brokenAt - 1 :: LinkOk(env, rows, i))
              && !LinkOk(env, rows, v.brokenAt - 1)
              && (v.reason == PrevLinkMismatch <==> rows[v.brokenAt - 1].prev != PrevHash(rows, v.brokenAt - 1))
  {
    var prevHash := "";
    for i := 0 to |rows|
      invariant prevHash == PrevHash(rows, i)
      invariant forall k | 0 <= k < i :: LinkOk(env, rows, k)
      invariant i > 0 ==> |prevHash| == 64
    {
      var r := rows[i];
      var expected := env.hash(prevHash + Payload(env, r.entry, r.createdAt));
      if r.prev != prevHash {
        assert !LinkOk(env, rows, i);
        return Broken(|rows|, i + 1, PrevLinkMismatch);
      }
      if r.curr != expected {
        assert !LinkOk(env, rows, i);
        return Broken(|rows|, i + 1, HashMismatch);
      }
      prevHash := r.curr;
    }
    return Verified(|rows|, if prevHash == "" then None else Some(prevHash));
  }

  // ----- the head hash fixes the whole log ---------------------------------------------------

  lemma {:induction false} MemberMeaning(ms: seq<Keyed<Json>>, i: nat)
    requires DistinctKeys(ms) && i < |ms|
    ensures ms[i].key in MeaningMembers(ms) && MeaningMembers(ms)[ms[i].key] == Meaning(ms[i].value)
    decreases |ms|
  {
    hide Meaning;
    if i > 0 {
      MemberMeaning(ms[1..], i - 1);
      assert ms[1..][i - 1] == ms[i];
    }
  }

  lemma FieldsDistinct(e: Entry, ts: string)
    ensures DistinctKeys(Fields(e, ts))
  {
    assert "actorType"[1] == 'c' && "afterJson"[1] == 'f';
    assert "action"[0] == 'a' && "entity"[0] == 'e';
    assert |"actorType"| == |"afterJson"| == 9 && |"action"| == |"entity"| == 6;
    assert |"actorId"| == 7 && |"entityId"| == 8 && |"beforeJson"| == 10 && |"ts"| == 2;
  }

  /** Two entries say the same: equal fields, and the same JSON values before and after. */
  ghost predicate SameEntry(a: Entry, b: Entry) {
    && a.actorType == b.actorType && a.actorId == b.actorId && a.action == b.action
    && a.entity == b.entity && a.entityId == b.entityId
    && Meaning(a.beforeJson) == Meaning(b.beforeJson) && Meaning(a.afterJson) == Meaning(b.afterJson)
  }

  lemma FieldMeaning(a: seq<Keyed<Json>>, b: seq<Keyed<Json>>, i: nat)
    requires DistinctKeys(a) && DistinctKeys(b) && MeaningMembers(a) == MeaningMembers(b)
    requires i < |a| && i < |b| && a[i].key == b[i].key
    ensures Meaning(a[i].value) == Meaning(b[i].value)
  {
    MemberMeaning(a, i);
    MemberMeaning(b, i);
  }

  /** Each field of a payload can be read off its meaning. */
  lemma PayloadField(e: Entry, f: Entry, ts: string, us: string, i: nat)
    requires MeaningMembers(Fields(e, ts)) == MeaningMembers(Fields(f, us)) && i < 8
    ensures Meaning(Fields(e, ts)[i].value) == Meaning(Fields(f, us)[i].value)
  {
    FieldsDistinct(e, ts);
    FieldsDistinct(f, us);
    hide MeaningMembers, DistinctKeys, Meaning;
    FieldMeaning(Fields(e, ts), Fields(f, us), i);
  }

  lemma FieldsMeaning(e: Entry, f: Entry, ts: string, us: string)
    requires MeaningMembers(Fields(e, ts)) == MeaningMembers(Fields(f, us))
    ensures SameEntry(e, f) && ts == us
  {
    hide MeaningMembers;
    PayloadField(e, f, ts, us, 0);
    PayloadField(e, f, ts, us, 1);
    PayloadField(e, f, ts, us, 2);
    PayloadField(e, f, ts, us, 3);
    PayloadField(e, f, ts, us, 4);
    PayloadField(e, f, ts, us, 5);
    PayloadField(e, f, ts, us, 6);
    PayloadField(e, f, ts, us, 7);
  }

  lemma MeaningOfFields(e: Entry, f: Entry, ts: string)
    requires SameEntry(e, f)
    ensures MeaningMembers(Fields(e, ts)) == MeaningMembers(Fields(f, ts))
  {
    SameMeanings(Fields(e, ts), Fields(f, ts));
  }

  lemma SameMeanings(a: seq<Keyed<Json>>, b: seq<Keyed<Json>>)
    requires |a| == |b| && forall i | 0 <= i < |a| :: a[i].key == b[i].key && Meaning(a[i].value) == Meaning(b[i].value)
    ensures MeaningMembers(a) == MeaningMembers(b)
  {
    hide Meaning;
    if a != [] {
      SameMeanings(a[1..], b[1..]);
    }
  }

  /** A payload determines every hashed field. */
  lemma PayloadInjective(env: Env, e: Entry, f: Entry, m: int, n: int)
    requires WellFormedEntry(e) && WellFormedEntry(f) && IsoInjective(env)
    ensures Payload(env, e, m) == Payload(env, f, n) <==> SameEntry(e, f) && m == n
  {
    var a, b := Fields(e, env.iso(m)), Fields(f, env.iso(n));
    FieldsDistinct(e, env.iso(m));
    FieldsDistinct(f, env.iso(n));
    StringifyInjective(Obj(a), Obj(b));
    if Payload(env, e, m) == Payload(env, f, n) {
      assert Meaning(Obj(a)).members == Meaning(Obj(b)).members;
      FieldsMeaning(e, f, env.iso(m), env.iso(n));
    }
    if SameEntry(e, f) && m == n {
      MeaningOfFields(e, f, env.iso(m));
    }
  }

  ghost predicate WellFormedRows(rows: seq<Row>) {
    forall i | 0 <= i < |rows| :: WellFormedEntry(rows[i].entry)
  }

  ghost predicate SameRow(a: Row, b: Row) {
    SameEntry(a.entry, b.entry) && a.createdAt == b.createdAt && a.prev == b.prev && a.curr == b.curr
  }

  /** Two different texts, each hashed by one of the logs, with the same digest. */
  ghost predicate Collision(env: Env, a: seq<Row>, b: seq<Row>) {
    exists i, j | 0 <= i < |a| && 0 <= j < |b| ::
      Preimage(env, a, i) != Preimage(env, b, j) && env.hash(Preimage(env, a, i)) == env.hash(Preimage(env, b, j))
  }

  /** `prevHash + payload` splits in one way: a digest is 64 hex digits and a payload starts with a brace. */
  lemma UniqueSplit(p: string, q: string, s: string, t: string)
    requires (p == "" || |p| == 64) && (q == "" || |q| == 64) && IsHex(p) && IsHex(q)
    requires s != "" && t != "" && s[0] == '{' && t[0] == '{' && p + s == q + t
    ensures p == q && s == t
  {
    assert p == "" ==> (p + s)[0] == '{';
    assert q == "" ==> (q + t)[0] == '{';
    assert p != "" ==> (p + s)[0] == p[0];
    assert q != "" ==> (q + t)[0] == q[0];
    assert (p + s)[..|p|] == p && (q + t)[..|q|] == q;
    assert (p + s)[|p|..] == s && (q + t)[|q|..] == t;
  }

  lemma PayloadStarts(env: Env, e: Entry, createdAt: int)
    ensures Payload(env, e, createdAt) != "" && Payload(env, e, createdAt)[0] == '{'
  {
  }

  lemma {:induction false} SameDigestSamePrefix(env: Env, a: seq<Row>, i: nat, b: seq<Row>, j: nat)
    requires Digests(env) && IsoInjective(env) && WellFormedRows(a) && WellFormedRows(b)
    requires Accepted(env, a) && Accepted(env, b) && !Collision(env, a, b)
    requires i < |a| && j < |b| && a[i].curr == b[j].curr
    ensures i == j && forall k | 0 <= k <= i :: SameRow(a[k], b[k])
    decreases i
  {
    hide Payload, SameEntry, WellFormedEntry;
    PayloadStarts(env, a[i].entry, a[i].createdAt);
    PayloadStarts(env, b[j].entry, b[j].createdAt);
    assert LinkOk(env, a, i) && LinkOk(env, b, j);
    assert i > 0 ==> LinkOk(env, a, i - 1);
    assert j > 0 ==> LinkOk(env, b, j - 1);
    assert Preimage(env, a, i) == Preimage(env, b, j);
    UniqueSplit(PrevHash(a, i), PrevHash(b, j),
                Payload(env, a[i].entry, a[i].createdAt), Payload(env, b[j].entry, b[j].createdAt));
    PayloadInjective(env, a[i].entry, b[j].entry, a[i].createdAt, b[j].createdAt);
    if i > 0 {
      SameDigestSamePrefix(env, a, i - 1, b, j - 1);
    }
  }

  function HeadHash(rows: seq<Row>): Option<string> {
    if rows == [] then None else Some(rows[|rows| - 1].curr)
  }

  /**
   The head hash fixes the log: two row sequences the checker accepts with one head hash have the same
   length and agree on every hashed field of every row, or they exhibit a collision of the hash.
   */
  lemma HeadHashFixesLog(env: Env, a: seq<Row>, b: seq<Row>)
    requires Digests(env) && IsoInjective(env) && WellFormedRows(a) && WellFormedRows(b)
    requires Accepted(env, a) && Accepted(env, b) && HeadHash(a) == HeadHash(b)
    ensures Collision(env, a, b) || (|a| == |b| && forall k | 0 <= k < |a| :: SameRow(a[k], b[k]))
  {
    if !Collision(env, a, b) && a != [] {
      SameDigestSamePrefix(env, a, |a| - 1, b, |b| - 1);
    }
  }
}
