/**
 What each exam request answers and writes, field by field, and the marks in terms of the fields and choices.
 */
module ExamAnswers {
  import opened Wrappers
  import opened ExamDraw
  import opened Exam

  // ----- marks -----------------------------------------------------------------------------------------------

  /** The Part 1 fields filled in validly. */
  function ValidFields(valid: Validate, part1: map<string, string>, keys: seq<string>): set<string> {
    set key | key in keys && valid(key, if key in part1 then part1[key] else "")
  }

  /** The questions answered with their right option. */
  function RightOnes(qs: seq<AttemptQuestion>): set<nat> {
    set k: nat | k < |qs| && qs[k].chosen.Some? && qs[k].chosen.value == qs[k].correctIndex
  }

  lemma {:induction false} CorrectCounts(qs: seq<AttemptQuestion>)
    ensures Correct(qs) == |RightOnes(qs)|
    decreases |qs|
  {
    if qs != [] {
      var n := |qs| - 1;
      CorrectCounts(qs[..n]);
      var before := RightOnes(qs[..n]);
      if qs[n].chosen.Some? && qs[n].chosen.value == qs[n].correctIndex {
        assert RightOnes(qs) == before + {n};
      } else {
        assert RightOnes(qs) == before;
      }
    }
  }

  ghost predicate DistinctKeys(keys: seq<string>) {
    forall i, j | 0 <= i < j < |keys| :: keys[i] != keys[j]
  }

  lemma OneMoreField(valid: Validate, part1: map<string, string>, keys: seq<string>, key: string)
    requires key !in keys
    ensures ValidFields(valid, part1, keys + [key]) ==
            ValidFields(valid, part1, keys) + if valid(key, FieldValue(part1, key)) then {key} else {}
    ensures key !in ValidFields(valid, part1, keys)
  {
  }

  lemma {:induction false} FilledCounts(valid: Validate, part1: map<string, string>, keys: seq<string>)
    requires DistinctKeys(keys)
    ensures Filled(valid, part1, keys) == |ValidFields(valid, part1, keys)|
    decreases |keys|
  {
    if keys != [] {
      hide ValidFields, FieldValue;
      var n := |keys| - 1;
      FilledCounts(valid, part1, keys[..n]);
      OneMoreField(valid, part1, keys[..n], keys[n]);
      assert keys == keys[..n] + [keys[n]];
    } else {
      NoFields(valid, part1);
    }
  }

  lemma NoFields(valid: Validate, part1: map<string, string>)
    ensures ValidFields(valid, part1, []) == {}
  {
  }

  lemma Part1KeysDistinct()
    ensures DistinctKeys(PART1_KEYS) && |PART1_KEYS| == 7
  {
    assert |"fullName"| == 8 && |"staffNumber"| == 11 && |"staffCadre"| == 10 && |"email"| == |"group"| == 5;
    assert |"department"| == 10 && |"unitTaxOffice"| == 13;
    assert "staffCadre"[0] == 's' && "department"[0] == 'd' && "email"[0] == 'e' && "group"[0] == 'g';
  }

  /** Fifty points for the seven fields in proportion, to the nearest hundredth; five for each right answer; and
      their sum. */
  predicate Marks(valid: Validate, a: Attempt, s: Scores) {
    && -7 <= 2 * (7 * s.part1 - 5000 * |ValidFields(valid, a.part1, PART1_KEYS)|) <= 7
    && s.part2 == 500 * |RightOnes(a.questions)|
    && s.total == s.part1 + s.part2
  }

  lemma ScoresAreMarks(valid: Validate, a: Attempt)
    ensures Marks(valid, a, ScoresOf(valid, a.part1, a.questions))
  {
    Part1KeysDistinct();
    FilledCounts(valid, a.part1, PART1_KEYS);
    CorrectCounts(a.questions);
    hide Filled, Correct, ValidFields;
  }

  // ----- the draw ------------------------------------------------------------------------------------------------

  /** The active questions of a topic. */
  function ActiveOn(qs: seq<Question>, topic: string): set<nat> {
    set q | q in qs && q.active && q.topic == topic :: q.id
  }

  lemma TopicCount(qs: seq<Question>, topic: string)
    requires Distinct(qs) && forall q | q in qs :: q.active
    ensures |OfTopic(qs, topic)| == |ActiveOn(qs, topic)|
  {
    IdsCount(OfTopic(qs, topic));
    assert Ids(OfTopic(qs, topic)) == ActiveOn(qs, topic);
  }

  predicate Enough(bank: seq<Question>, rows: seq<Question>, topic: string, quota: nat) {
    |ActiveOn(rows, topic)| >= quota || |ActiveOn(rows, topic)| >= |ActiveOn(bank, topic)|
  }

  lemma QuotaIs(bank: seq<Question>, rows: seq<Question>, topic: string, quota: nat)
    requires Distinct(bank) && Distinct(rows) && (forall q | q in rows :: q in Active(bank))
    requires QuotaMet(bank, rows, (topic, quota))
    ensures Enough(bank, rows, topic, quota)
  {
    TopicCount(rows, topic);
    TopicCount(Active(bank), topic);
    assert ActiveOn(Active(bank), topic) == ActiveOn(bank, topic);
    hide ActiveOn;
  }

  /** A draw takes four active questions on tax, and two each on documents, spreadsheets and security, or all there
      are; ten in all, or all there are; none twice. */
  lemma DrawIs(bank: seq<Question>, rows: seq<Question>)
    requires Distinct(bank) && Drawn(bank, rows)
    ensures Enough(bank, rows, "TAX", 4) && Enough(bank, rows, "WORD", 2) && Enough(bank, rows, "EXCEL", 2)
    ensures Enough(bank, rows, "CYBERSECURITY", 2)
    ensures |Ids(rows)| == |rows| && forall q | q in rows :: q in bank && q.active
    ensures |rows| == 10 || (|rows| < 10 && |rows| == |set q | q in bank && q.active :: q.id|)
  {
    hide QuotaMet, Enough;
    assert QuotaMet(bank, rows, TOPIC_QUOTA[0]) && QuotaMet(bank, rows, TOPIC_QUOTA[1]);
    assert QuotaMet(bank, rows, TOPIC_QUOTA[2]) && QuotaMet(bank, rows, TOPIC_QUOTA[3]);
    QuotaIs(bank, rows, "TAX", 4);
    QuotaIs(bank, rows, "WORD", 2);
    QuotaIs(bank, rows, "EXCEL", 2);
    QuotaIs(bank, rows, "CYBERSECURITY", 2);
    IdsCount(rows);
    IdsCount(Active(bank));
    assert Ids(Active(bank)) == set q | q in bank && q.active :: q.id;
  }

  // ----- the requests ----------------------------------------------------------------------------------------

  /** The attempt is open although its time is up. */
  predicate Overrun(a: Attempt, now: int) {
    a.status == InProgress && a.expiresAt <= now
  }

  /** `b` is the attempt `a`, closed and marked. */
  predicate ClosedAs(valid: Validate, a: Attempt, b: Attempt, status: Status, now: int) {
    && b.participant == a.participant && b.expiresAt == a.expiresAt && b.part1 == a.part1 && b.questions == a.questions
    && b.status == status && b.submittedAt == Some(now) && b.scores.Some? && Marks(valid, a, b.scores.value)
  }

  /** What looking at an attempt makes of it. */
  predicate Looked(valid: Validate, a: Attempt, b: Attempt, now: int) {
    if Overrun(a, now) then ClosedAs(valid, a, b, Elapsed, now) else b == a
  }

  lemma LookedAt(valid: Validate, a: Attempt, now: int)
    ensures Looked(valid, a, FinalizeIfExpired(valid, a, now), now)
  {
    ScoresAreMarks(valid, a);
    hide ScoresOf, Marks;
  }

  /** Only attempt `id` may have changed. */
  predicate OnlyAttempt(s: State, z: State, id: nat) {
    && z.bank == s.bank && z.participants == s.participants && |z.attempts| == |s.attempts|
    && forall k | 0 <= k < |s.attempts| && k != id :: z.attempts[k] == s.attempts[k]
  }

  lemma GetStateAnswered(valid: Validate, s: State, id: nat, now: int)
    ensures var (z, r) := GetStateStep(valid, s, id, now);
            if id >= |s.attempts| then r == Some(NotFound) && z == s
            else r == None && OnlyAttempt(s, z, id) && Looked(valid, s.attempts[id], z.attempts[id], now)
  {
    hide FinalizeIfExpired, Looked;
    if id < |s.attempts| { LookedAt(valid, s.attempts[id], now); }
  }

  /** Details are merged, later ones winning, while the attempt is open and in time. */
  lemma SavePart1Answered(valid: Validate, s: State, id: nat, details: map<string, string>, now: int)
    ensures var (z, r) := SavePart1Step(valid, s, id, details, now);
            if id >= |s.attempts| then r == Some(NotFound) && z == s
            else
              var a := s.attempts[id];
              && OnlyAttempt(s, z, id)
              && if a.status == InProgress && now < a.expiresAt then
                   && r == None
                   && z.attempts[id] == a.(part1 := map key | key in a.part1.Keys + details.Keys ::
                                             if key in details then details[key] else a.part1[key])
                 else r == Some(Closed) && Looked(valid, a, z.attempts[id], now)
  {
    if id < |s.attempts| {
      var a := s.attempts[id];
      LookedAt(valid, a, now);
      assert a.part1 + details ==
          map key | key in a.part1.Keys + details.Keys :: if key in details then details[key] else a.part1[key];
      hide ScoresOf;
    }
  }

  /** A choice that is an option of an asked question is stored, in an attempt that is open and in time. */
  lemma SaveAnswerAnswered(valid: Validate, s: State, id: nat, questionId: nat, chosen: int, now: int)
    ensures var (z, r) := SaveAnswerStep(valid, s, id, questionId, chosen, now);
            if id >= |s.attempts| then r == Some(NotFound) && z == s
            else
              var a := s.attempts[id];
              && OnlyAttempt(s, z, id)
              && if a.status != InProgress || a.expiresAt <= now then
                   r == Some(Closed) && Looked(valid, a, z.attempts[id], now)
                 else if forall k | 0 <= k < |a.questions| :: a.questions[k].questionId != questionId then
                   r == Some(BadRequest) && z == s
                 else
                   && r == None && |z.attempts[id].questions| == |a.questions|
                   && z.attempts[id] == a.(questions := z.attempts[id].questions)
                   && forall k | 0 <= k < |a.questions| :: Stored(a.questions[k], z.attempts[id].questions[k],
                                                                   questionId, chosen)
  {
    hide ChooseAll, ScoresOf;
    if id < |s.attempts| { LookedAt(valid, s.attempts[id], now); }
  }

  predicate Stored(q: AttemptQuestion, w: AttemptQuestion, questionId: nat, chosen: int) {
    && w == q.(chosen := w.chosen)
    && w.chosen == if q.questionId == questionId && 0 <= chosen < |q.options| then Some(chosen) else q.chosen
  }

  /** A submission closes an open attempt, in time or not. */
  lemma SubmitAnswered(valid: Validate, s: State, id: nat, now: int)
    ensures var (z, r) := SubmitStep(valid, s, id, now);
            if id >= |s.attempts| then r == Some(NotFound) && z == s
            else
              && r == None && OnlyAttempt(s, z, id)
              && if s.attempts[id].status == InProgress
                 then ClosedAs(valid, s.attempts[id], z.attempts[id], Submitted, now) else z == s
  {
    if id < |s.attempts| { ScoresAreMarks(valid, s.attempts[id]); }
    hide ScoresOf, Marks;
  }

  /** A code logs in to its participant's one attempt, or starts it: open, empty, due in five minutes. */
  lemma LoginAnswered(valid: Validate, s: State, code: string, questions: seq<AttemptQuestion>, now: int)
    ensures var (z, r) := LoginStep(valid, s, code, questions, now);
            if code !in s.participants then r == Some(Unauthorized) && z == s
            else
              var p := s.participants[code];
              if exists k :: 0 <= k < |s.attempts| && s.attempts[k].participant == p then
                && r == None
                && exists k :: && 0 <= k < |s.attempts| && s.attempts[k].participant == p
                               && OnlyAttempt(s, z, k) && Looked(valid, s.attempts[k], z.attempts[k], now)
              else if questions == [] then r == Some(BadRequest) && z == s
              else r == None
                   && z == s.(attempts := s.attempts + [
                             Attempt(p, now + 300_000, None, InProgress, map[], questions, None)])
  {
    hide FinalizeIfExpired, Looked;
    if code in s.participants {
      var i := FindAttempt(s.attempts, s.participants[code], 0);
      if i.Some? {
        LookedAt(valid, s.attempts[i.value], now);
        var z := LoginStep(valid, s, code, questions, now).0;
        assert OnlyAttempt(s, z, i.value) && Looked(valid, s.attempts[i.value], z.attempts[i.value], now);
      }
    }
  }
}
