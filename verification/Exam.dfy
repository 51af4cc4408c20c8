/**
 The timed exam: one sitting per participant, saved answers, the server-side deadline, and the scores.
 Requests are atomic; every action carries its own clock reading, in milliseconds.
 */
module Exam {
  import opened Wrappers
  import opened ExamDraw

  const EXAM_DURATION_MS := 5 * 60 * 1000
  const PART1_KEYS := ["fullName", "staffNumber", "staffCadre", "email", "group", "department", "unitTaxOffice"]
  const PART1_WEIGHT := 50
  const PART2_WEIGHT := 50

  /** Whether a value is a valid completion of a Part 1 field. */
  type Validate = (string, string) -> bool

  datatype Status = InProgress | Submitted | Elapsed

  /** Scores in hundredths of a point. */
  datatype Scores = Scores(part1: int, part2: int, total: int)

  datatype Attempt = Attempt(
    participant: nat, expiresAt: int, submittedAt: Option<int>, status: Status,
    part1: map<string, string>, questions: seq<AttemptQuestion>, scores: Option<Scores>)

  datatype State = State(bank: seq<Question>, participants: map<string, nat>, attempts: seq<Attempt>)

  datatype Error = Unauthorized | NotFound | Closed | BadRequest

  // ----- scores ------------------------------------------------------------------------------------

  function FieldValue(part1: map<string, string>, key: string): string {
    if key in part1 then part1[key] else ""
  }

  function Filled(valid: Validate, part1: map<string, string>, keys: seq<string>): (n: nat)
    ensures n <= |keys|
  {
    if keys == [] then 0
    else Filled(valid, part1, keys[..|keys| - 1]) +
         if valid(keys[|keys| - 1], FieldValue(part1, keys[|keys| - 1])) then 1 else 0
  }

  predicate Right(q: AttemptQuestion) {
    q.chosen == Some(q.correctIndex)
  }

  function Correct(qs: seq<AttemptQuestion>): (n: nat)
    ensures n <= |qs|
  {
    if qs == [] then 0 else Correct(qs[..|qs| - 1]) + if Right(qs[|qs| - 1]) then 1 else 0
  }

  /** `Math.round(a / b)`: halves go up. */
  function Round(a: nat, b: nat): int
    requires b > 0
  {
    (2 * a + b) / (2 * b)
  }

  function ScoresOf(valid: Validate, part1: map<string, string>, qs: seq<AttemptQuestion>): Scores {
    var one := Round(Filled(valid, part1, PART1_KEYS) * PART1_WEIGHT * 100, |PART1_KEYS|);
    var two := Round(Correct(qs) * PART2_WEIGHT * 100, QUESTIONS_PER_ATTEMPT);
    Scores(one, two, Round(one + two, 1))
  }

  /** The scores in closed form: five points a right answer, and a total that needs no rounding of its own. */
  lemma ScoreBounds(valid: Validate, part1: map<string, string>, qs: seq<AttemptQuestion>)
    requires |qs| <= QUESTIONS_PER_ATTEMPT
    ensures var s := ScoresOf(valid, part1, qs);
            && 0 <= s.part1 <= 5000 && s.part2 == 500 * Correct(qs) && s.total == s.part1 + s.part2
            && 0 <= s.total <= 500 * |qs| + 5000 <= 10000
            && (s.total == 10000 <==> Filled(valid, part1, PART1_KEYS) == 7 && Correct(qs) == QUESTIONS_PER_ATTEMPT)
  {
    var f := Filled(valid, part1, PART1_KEYS);
    RoundPart1(f);
  }

  lemma RoundPart1(f: nat)
    requires f <= 7
    ensures 0 <= Round(f * 50 * 100, 7) <= 5000
    ensures Round(f * 50 * 100, 7) == 5000 <==> f == 7
  {
  }

  // ----- what each request does ----------------------------------------------------------------------

  function Finalize(valid: Validate, a: Attempt, status: Status, now: int): Attempt {
    a.(status := status, submittedAt := Some(now), scores := Some(ScoresOf(valid, a.part1, a.questions)))
  }

  function FinalizeIfExpired(valid: Validate, a: Attempt, now: int): Attempt {
    if a.status.InProgress? && a.expiresAt <= now then Finalize(valid, a, Elapsed, now) else a
  }

  function FindAttempt(attempts: seq<Attempt>, participant: nat, i: nat): (r: Option<nat>)
    requires i <= |attempts|
    ensures r.Some? ==> i <= r.value < |attempts| && attempts[r.value].participant == participant
    ensures r.None? ==> forall k | i <= k < |attempts| :: attempts[k].participant != participant
    decreases |attempts| - i
  {
    if i == |attempts| then None
    else if attempts[i].participant == participant then Some(i)
    else FindAttempt(attempts, participant, i + 1)
  }

  function NewAttempt(participant: nat, questions: seq<AttemptQuestion>, now: int): Attempt {
    Attempt(participant, now + EXAM_DURATION_MS, None, InProgress, map[], questions, None)
  }

  function SetAttempt(s: State, id: nat, a: Attempt): State
    requires id < |s.attempts|
  {
    s.(attempts := s.attempts[id := a])
  }

  /** `questions` is what the draw would give if this login creates the attempt. */
  function LoginStep(valid: Validate, s: State, code: string, questions: seq<AttemptQuestion>, now: int)
    : (State, Option<Error>)
  {
    if code !in s.participants then (s, Some(Unauthorized))
    else
      match FindAttempt(s.attempts, s.participants[code], 0)
      case Some(i) => (SetAttempt(s, i, FinalizeIfExpired(valid, s.attempts[i], now)), None)
      case None =>
        if questions == [] then (s, Some(BadRequest))
        else (s.(attempts := s.attempts + [NewAttempt(s.participants[code], questions, now)]), None)
  }

  function GetStateStep(valid: Validate, s: State, id: nat, now: int): (State, Option<Error>) {
    if id >= |s.attempts| then (s, Some(NotFound))
    else (SetAttempt(s, id, FinalizeIfExpired(valid, s.attempts[id], now)), None)
  }

  function SavePart1Step(valid: Validate, s: State, id: nat, details: map<string, string>, now: int)
    : (State, Option<Error>)
  {
    if id >= |s.attempts| then (s, Some(NotFound))
    else
      var a := FinalizeIfExpired(valid, s.attempts[id], now);
      if !a.status.InProgress? then (SetAttempt(s, id, a), Some(Closed))
      else (SetAttempt(s, id, a.(part1 := a.part1 + details)), None)
  }

  /** A choice outside the options keeps what was chosen before. */
  function Choose(q: AttemptQuestion, questionId: nat, chosen: int): AttemptQuestion {
    if q.questionId == questionId && 0 <= chosen < |q.options| then q.(chosen := Some(chosen)) else q
  }

  function ChooseAll(qs: seq<AttemptQuestion>, questionId: nat, chosen: int): (r: seq<AttemptQuestion>)
    ensures |r| == |qs| && forall k | 0 <= k < |qs| :: r[k] == Choose(qs[k], questionId, chosen)
  {
    if qs == [] then [] else ChooseAll(qs[..|qs| - 1], questionId, chosen) + [Choose(qs[|qs| - 1], questionId, chosen)]
  }

  predicate Asked(qs: seq<AttemptQuestion>, questionId: nat) {
    exists k :: 0 <= k < |qs| && qs[k].questionId == questionId
  }

  function SaveAnswerStep(valid: Validate, s: State, id: nat, questionId: nat, chosen: int, now: int)
    : (State, Option<Error>)
  {
    if id >= |s.attempts| then (s, Some(NotFound))
    else
      var a := FinalizeIfExpired(valid, s.attempts[id], now);
      if !a.status.InProgress? then (SetAttempt(s, id, a), Some(Closed))
      else if !Asked(a.questions, questionId) then (s, Some(BadRequest))
      else (SetAttempt(s, id, a.(questions := ChooseAll(a.questions, questionId, chosen))), None)
  }

  /** A submission is accepted after the deadline too. */
  function SubmitStep(valid: Validate, s: State, id: nat, now: int): (State, Option<Error>) {
    if id >= |s.attempts| then (s, Some(NotFound))
    else if !s.attempts[id].status.InProgress? then (s, None)
    else (SetAttempt(s, id, Finalize(valid, s.attempts[id], Submitted, now)), None)
  }

  // ----- the service -----------------------------------------------------------------------------------

  class AssessmentService {
    var bank: seq<Question>
    var participants: map<string, nat>
    var attempts: seq<Attempt>
    const valid: Validate

    constructor (bank: seq<Question>, participants: map<string, nat>, valid: Validate)
      ensures Contents() == State(bank, participants, []) && this.valid == valid
    {
      this.bank, this.participants, attempts, this.valid := bank, participants, [], valid;
    }

    function Contents(): State
      reads this
    {
      State(bank, participants, attempts)
    }

    method ScorePart1(part1: map<string, string>) returns (filled: nat)
      ensures filled == Filled(valid, part1, PART1_KEYS)
    {
      filled := 0;
      var i := 0;
      while i < |PART1_KEYS|
        invariant i <= |PART1_KEYS| && filled == Filled(valid, part1, PART1_KEYS[..i])
      {
        var key := PART1_KEYS[i];
        assert PART1_KEYS[..i + 1][..i] == PART1_KEYS[..i];
        if valid(key, FieldValue(part1, key)) { filled := filled + 1; }
        i := i + 1;
      }
      assert PART1_KEYS[..i] == PART1_KEYS;
    }

    method CountCorrect(qs: seq<AttemptQuestion>) returns (n: nat)
      ensures n == Correct(qs)
    {
      n := 0;
      var i := 0;
      while i < |qs|
        invariant i <= |qs| && n == Correct(qs[..i])
      {
        assert qs[..i + 1][..i] == qs[..i];
        if Right(qs[i]) { n := n + 1; }
        i := i + 1;
      }
      assert qs[..i] == qs;
    }

    method FinalizeAttempt(id: nat, status: Status, now: int)
      requires id < |attempts|
      modifies this`attempts
      ensures Contents() == SetAttempt(old(Contents()), id, Finalize(valid, old(attempts[id]), status, now))
    {
      hide Filled, Correct;
      var a := attempts[id];
      var filled := ScorePart1(a.part1);
      var correct := CountCorrect(a.questions);
      var one := Round(filled * PART1_WEIGHT * 100, |PART1_KEYS|);
      var two := Round(correct * PART2_WEIGHT * 100, QUESTIONS_PER_ATTEMPT);
      attempts := attempts[id := a.(
        status := status, submittedAt := Some(now), scores := Some(Scores(one, two, Round(one + two, 1))))];
    }

    method CloseIfExpired(id: nat, now: int)
      requires id < |attempts|
      modifies this`attempts
      ensures Contents() == SetAttempt(old(Contents()), id, FinalizeIfExpired(valid, old(attempts[id]), now))
    {
      if attempts[id].status.InProgress? && attempts[id].expiresAt <= now {
        FinalizeAttempt(id, Elapsed, now);
      }
    }

    method CandidateLogin(code: string, now: int) returns (r: Option<Error>)
      requires Distinct(bank)
      modifies this`attempts
      ensures exists qs :: WellDrawn(bank, qs) && (Contents(), r) == LoginStep(valid, old(Contents()), code, qs, now)
    {
      var qs := DrawQuestions(bank);
      if code !in participants { return Some(Unauthorized); }
      var i := 0;
      while i < |attempts|
        invariant i <= |attempts| && attempts == old(attempts)
        invariant FindAttempt(attempts, participants[code], 0) == FindAttempt(attempts, participants[code], i)
      {
        if attempts[i].participant == participants[code] {
          CloseIfExpired(i, now);
          assert (Contents(), None) == LoginStep(valid, old(Contents()), code, qs, now);
          return None;
        }
        i := i + 1;
      }
      if qs == [] { return Some(BadRequest); }
      attempts := attempts + [NewAttempt(participants[code], qs, now)];
      r := None;
      assert (Contents(), r) == LoginStep(valid, old(Contents()), code, qs, now);
    }

    method GetState(id: nat, now: int) returns (r: Option<Error>)
      modifies this`attempts
      ensures (Contents(), r) == GetStateStep(valid, old(Contents()), id, now)
    {
      if id >= |attempts| { return Some(NotFound); }
      CloseIfExpired(id, now);
      return None;
    }

    method SavePart1(id: nat, details: map<string, string>, now: int) returns (r: Option<Error>)
      modifies this`attempts
      ensures (Contents(), r) == SavePart1Step(valid, old(Contents()), id, details, now)
    {
      if id >= |attempts| { return Some(NotFound); }
      CloseIfExpired(id, now);
      if !attempts[id].status.InProgress? { return Some(Closed); }
      attempts := attempts[id := attempts[id].(part1 := attempts[id].part1 + details)];
      assert attempts == old(attempts)[id := attempts[id]];
      return None;
    }

    static method WithChoice(qs: seq<AttemptQuestion>, questionId: nat, chosen: int)
      returns (r: seq<AttemptQuestion>, found: bool)
      ensures r == ChooseAll(qs, questionId, chosen) && (found <==> Asked(qs, questionId))
    {
      r := [];
      found := false;
      var i := 0;
      while i < |qs|
        invariant i <= |qs| && r == ChooseAll(qs[..i], questionId, chosen)
        invariant found <==> exists k :: 0 <= k < i && qs[k].questionId == questionId
      {
        assert qs[..i + 1][..i] == qs[..i];
        r := r + [Choose(qs[i], questionId, chosen)];
        found := found || qs[i].questionId == questionId;
        i := i + 1;
      }
      assert qs[..i] == qs;
    }

    method SaveAnswer(id: nat, questionId: nat, chosen: int, now: int) returns (r: Option<Error>)
      modifies this`attempts
      ensures (Contents(), r) == SaveAnswerStep(valid, old(Contents()), id, questionId, chosen, now)
    {
      hide ScoresOf, ChooseAll, Asked;
      if id >= |attempts| { return Some(NotFound); }
      CloseIfExpired(id, now);
      if !attempts[id].status.InProgress? { return Some(Closed); }
      var moved, found := WithChoice(attempts[id].questions, questionId, chosen);
      if !found {
        assert attempts == old(attempts);
        return Some(BadRequest);
      }
      attempts := attempts[id := attempts[id].(questions := moved)];
      assert attempts == old(attempts)[id := attempts[id]];
      return None;
    }

    method Submit(id: nat, now: int) returns (r: Option<Error>)
      modifies this`attempts
      ensures (Contents(), r) == SubmitStep(valid, old(Contents()), id, now)
    {
      if id >= |attempts| { return Some(NotFound); }
      if attempts[id].status.InProgress? { FinalizeAttempt(id, Submitted, now); }
      return None;
    }
  }

  // ----- runs ---------------------------------------------------------------------------------------------

  datatype Action =
    | Login(code: string, questions: seq<AttemptQuestion>, now: int)
    | GetState(id: nat, now: int)
    | SavePart1(id: nat, details: map<string, string>, now: int)
    | SaveAnswer(id: nat, questionId: nat, chosen: int, now: int)
    | Submit(id: nat, now: int)
    | EditBank(bank: seq<Question>, now: int)  // an administrator changes the question bank
    | AddParticipant(code: string, participant: nat, now: int)

  function Step(valid: Validate, s: State, a: Action): State {
    match a
    case Login(code, questions, now) => LoginStep(valid, s, code, questions, now).0
    case GetState(id, now) => GetStateStep(valid, s, id, now).0
    case SavePart1(id, details, now) => SavePart1Step(valid, s, id, details, now).0
    case SaveAnswer(id, questionId, chosen, now) => SaveAnswerStep(valid, s, id, questionId, chosen, now).0
    case Submit(id, now) => SubmitStep(valid, s, id, now).0
    case EditBank(bank, _) => s.(bank := bank)
    case AddParticipant(code, p, _) => s.(participants := s.participants[code := p])
  }

  function Exec(valid: Validate, s: State, actions: seq<Action>): State {
    if actions == [] then s else Step(valid, Exec(valid, s, actions[..|actions| - 1]), actions[|actions| - 1])
  }

  /** Every login brings questions some draw from the bank of that moment could give. */
  ghost predicate Runs(valid: Validate, s: State, actions: seq<Action>) {
    forall i | 0 <= i < |actions| && actions[i].Login? ::
        WellDrawn(Exec(valid, s, actions[..i]).bank, actions[i].questions)
  }

  // ----- one sitting, and nothing moves after it ------------------------------------------------------------

  /** The parts of an attempt no action changes. */
  predicate SameSitting(a: Attempt, b: Attempt) {
    && b.participant == a.participant && b.expiresAt == a.expiresAt && |b.questions| == |a.questions|
    && forall k | 0 <= k < |a.questions| :: b.questions[k] == a.questions[k].(chosen := b.questions[k].chosen)
  }

  lemma StepSitting(valid: Validate, s: State, a: Action, id: nat)
    requires id < |s.attempts|
    ensures id < |Step(valid, s, a).attempts|
    ensures SameSitting(s.attempts[id], Step(valid, s, a).attempts[id])
    ensures !s.attempts[id].status.InProgress? ==> Step(valid, s, a).attempts[id] == s.attempts[id]
  {
    hide Step, RowStep;
    StepIsRowStep(valid, s, a, id);
    RowStepSitting(valid, s.attempts[id], a, id, LooksAt(s, a, id));
  }

  lemma RowStepSitting(valid: Validate, a: Attempt, act: Action, id: nat, looks: bool)
    ensures var z := RowStep(valid, a, act, id, looks); SameSitting(a, z) && (!a.status.InProgress? ==> z == a)
  {
    hide ScoresOf, ChooseAll;
  }

  /**
   From its creation on, an attempt keeps its deadline, questions, option orders and right answers; once it
   is submitted or expired, nothing in it changes any more.
   */
  lemma {:induction false} SittingKept(valid: Validate, s: State, actions: seq<Action>, n: nat, id: nat)
    requires n <= |actions| && id < |Exec(valid, s, actions[..n]).attempts|
    ensures id < |Exec(valid, s, actions).attempts|
    ensures var a, z := Exec(valid, s, actions[..n]).attempts[id], Exec(valid, s, actions).attempts[id];
            SameSitting(a, z) && (!a.status.InProgress? ==> z == a)
    decreases |actions|
  {
    if n == |actions| {
      assert actions[..n] == actions;
    } else {
      hide Step;
      var m := |actions| - 1;
      assert actions[..m][..n] == actions[..n];
      SittingKept(valid, s, actions[..m], n, id);
      StepSitting(valid, Exec(valid, s, actions[..m]), actions[m], id);
    }
  }

  // ----- the answers that count ----------------------------------------------------------------------

  /** The action reads attempt `id` to see whether its time is up. */
  predicate LooksAt(t: State, act: Action, id: nat) {
    match act
    case Login(code, _, _) => code in t.participants && FindAttempt(t.attempts, t.participants[code], 0) == Some(id)
    case GetState(i, _) => i == id
    case SavePart1(i, _, _) => i == id
    case SaveAnswer(i, _, _, _) => i == id
    case _ => false
  }

  /** The action, in state `t`, ends an open sitting: its submission, or a look at it past its deadline. */
  predicate Ends(t: State, act: Action, id: nat, deadline: int) {
    (act.Submit? && act.id == id) || (LooksAt(t, act, id) && deadline <= act.now)
  }

  /** Where, of the actions from `c` on and before `m`, the first that ends the sitting stands; `m` if none does. */
  function OpenEnd(valid: Validate, s: State, actions: seq<Action>, c: nat, id: nat, deadline: int, m: nat): (e: nat)
    requires c <= m <= |actions|
    ensures c <= e <= m
    decreases m
  {
    if m == c then c
    else
      var e := OpenEnd(valid, s, actions, c, id, deadline, m - 1);
      if e < m - 1 || Ends(Exec(valid, s, actions[..m - 1]), actions[m - 1], id, deadline) then e else m
  }

  /** The choice of the last save for a question that names one of its options; this reads the requests alone. */
  function LastSaved(actions: seq<Action>, id: nat, q: AttemptQuestion): Option<int> {
    if actions == [] then None
    else
      var n := |actions| - 1;
      var a := actions[n];
      if a.SaveAnswer? && a.id == id && a.questionId == q.questionId && 0 <= a.chosen < |q.options| then Some(a.chosen)
      else LastSaved(actions[..n], id, q)
  }

  /** All saved details together, later ones winning. */
  function MergedPart1(actions: seq<Action>, id: nat): map<string, string> {
    if actions == [] then map[]
    else
      var n := |actions| - 1;
      MergedPart1(actions[..n], id) + if actions[n].SavePart1? && actions[n].id == id then actions[n].details else map[]
  }

  /** The attempt holds what the requests `open` saved. */
  ghost predicate HoldsSaved(a0: Attempt, a: Attempt, open: seq<Action>, id: nat) {
    && a.expiresAt == a0.expiresAt && |a.questions| == |a0.questions|
    && (forall k | 0 <= k < |a0.questions| ::
          a.questions[k] == a0.questions[k].(chosen := LastSaved(open, id, a0.questions[k])))
    && a.part1 == MergedPart1(open, id)
  }

  lemma NothingSaved(a: Attempt, id: nat)
    requires a.part1 == map[] && forall k | 0 <= k < |a.questions| :: a.questions[k].chosen.None?
    ensures HoldsSaved(a, a, [], id)
  {
  }

  lemma SavedSnoc(actions: seq<Action>, a: Action, id: nat, q: AttemptQuestion)
    ensures LastSaved(actions + [a], id, q) ==
            if a.SaveAnswer? && a.id == id && a.questionId == q.questionId && 0 <= a.chosen < |q.options|
                then Some(a.chosen)
            else LastSaved(actions, id, q)
    ensures MergedPart1(actions + [a], id) ==
            MergedPart1(actions, id) + if a.SavePart1? && a.id == id then a.details else map[]
  {
    assert (actions + [a])[..|actions|] == actions;
  }

  /** The action of this attempt, in its own terms: what it does to the row. */
  function RowStep(valid: Validate, a: Attempt, act: Action, id: nat, looks: bool): Attempt {
    if act.Submit? && act.id == id && a.status.InProgress? then Finalize(valid, a, Submitted, act.now)
    else if !looks then a
    else
      var b := FinalizeIfExpired(valid, a, act.now);
      if !b.status.InProgress? then b
      else
        match act
        case SavePart1(_, details, _) => b.(part1 := b.part1 + details)
        case SaveAnswer(_, questionId, chosen, _) => b.(questions := ChooseAll(b.questions, questionId, chosen))
        case _ => b
  }

  lemma NotAsked(qs: seq<AttemptQuestion>, questionId: nat, chosen: int)
    requires !Asked(qs, questionId)
    ensures ChooseAll(qs, questionId, chosen) == qs
  {
    assert forall k | 0 <= k < |qs| :: qs[k].questionId != questionId;
  }

  lemma StepIsRowStep(valid: Validate, s: State, act: Action, id: nat)
    requires id < |s.attempts|
    ensures id < |Step(valid, s, act).attempts|
    ensures Step(valid, s, act).attempts[id] == RowStep(valid, s.attempts[id], act, id, LooksAt(s, act, id))
  {
    hide ScoresOf, ChooseAll, Asked;
    if act.SaveAnswer? && act.id == id && !Asked(s.attempts[id].questions, act.questionId) {
      NotAsked(s.attempts[id].questions, act.questionId, act.chosen);
    }
  }

  /** Ending a sitting closes it and keeps what it holds. */
  lemma EndKeeps(valid: Validate, a0: Attempt, t: State, act: Action, id: nat, open: seq<Action>)
    requires id < |t.attempts| && HoldsSaved(a0, t.attempts[id], open, id) && Ends(t, act, id, a0.expiresAt)
    ensures var z := RowStep(valid, t.attempts[id], act, id, LooksAt(t, act, id));
            HoldsSaved(a0, z, open, id) && !z.status.InProgress?
  {
    hide ScoresOf, LastSaved, MergedPart1;
  }

  /** Before its end, a sitting stays open and saves what is saved. */
  lemma OpenSaves(valid: Validate, a0: Attempt, t: State, act: Action, id: nat, open: seq<Action>)
    requires id < |t.attempts| && HoldsSaved(a0, t.attempts[id], open, id) && t.attempts[id].status.InProgress?
    requires !Ends(t, act, id, a0.expiresAt)
    ensures var z := RowStep(valid, t.attempts[id], act, id, LooksAt(t, act, id));
            HoldsSaved(a0, z, open + [act], id) && z.status.InProgress?
  {
    hide ScoresOf, LastSaved, MergedPart1, FindAttempt;
    var z := RowStep(valid, t.attempts[id], act, id, LooksAt(t, act, id));
    SavedSnoc(open, act, id, AttemptQuestion(0, "", "", [], 0, None));
    forall k | 0 <= k < |a0.questions|
      ensures z.questions[k] == a0.questions[k].(chosen := LastSaved(open + [act], id, a0.questions[k]))
    {
      SavedSnoc(open, act, id, a0.questions[k]);
    }
  }

  /** Only a first login adds an attempt. */
  lemma StepAdds(valid: Validate, s: State, act: Action)
    requires |s.attempts| < |Step(valid, s, act).attempts|
    ensures act.Login? && act.code in s.participants && |Step(valid, s, act).attempts| == |s.attempts| + 1
    ensures Step(valid, s, act).attempts[|s.attempts|] == NewAttempt(s.participants[act.code], act.questions, act.now)
    ensures forall k | 0 <= k < |s.attempts| :: s.attempts[k].participant != s.participants[act.code]
  {
    hide ScoresOf, ChooseAll;
  }

  lemma DrawnBlank(bank: seq<Question>, qs: seq<AttemptQuestion>)
    requires WellDrawn(bank, qs)
    ensures forall k | 0 <= k < |qs| :: qs[k].chosen.None?
    ensures |qs| == Min(QUESTIONS_PER_ATTEMPT, |Active(bank)|)
    ensures forall i, j | 0 <= i < j < |qs| :: qs[i].questionId != qs[j].questionId
  {
    var rows: seq<Question> :| Drawn(bank, rows) && Copies(rows, qs);
    forall k | 0 <= k < |qs| ensures qs[k].chosen.None? && qs[k].questionId == rows[k].id {
      assert CopyOf(rows[k], qs[k]);
    }
  }

  /** Action `c` of the run is the login that created attempt `id`. */
  ghost predicate CreatedBy(valid: Validate, s: State, actions: seq<Action>, c: nat, id: nat) {
    && c < |actions| && |Exec(valid, s, actions[..c]).attempts| == id < |Exec(valid, s, actions[..c + 1]).attempts|
  }

  /** The attempt as its login created it. */
  ghost function Created(valid: Validate, s: State, actions: seq<Action>, c: nat, id: nat): Attempt
    requires CreatedBy(valid, s, actions, c, id)
  {
    Exec(valid, s, actions[..c + 1]).attempts[id]
  }

  lemma CreatedFresh(valid: Validate, s: State, actions: seq<Action>, c: nat, id: nat)
    requires Runs(valid, s, actions) && CreatedBy(valid, s, actions, c, id)
    ensures var a0 := Created(valid, s, actions, c, id);
            && actions[c].Login? && a0.questions == actions[c].questions
            && actions[c].code in Exec(valid, s, actions[..c]).participants
            && a0.participant == Exec(valid, s, actions[..c]).participants[actions[c].code]
            && WellDrawn(Exec(valid, s, actions[..c]).bank, a0.questions)
            && a0.expiresAt == actions[c].now + EXAM_DURATION_MS
            && a0.status.InProgress? && a0.part1 == map[] && a0.scores.None? && a0.submittedAt.None?
  {
    assert actions[..c + 1][..c] == actions[..c];
    StepAdds(valid, Exec(valid, s, actions[..c]), actions[c]);
  }

  /** The requests after the creation and before the end of the sitting, as far as action `m`. */
  function OpenRequests(valid: Validate, s: State, actions: seq<Action>, c: nat, id: nat, deadline: int, m: nat)
    : seq<Action>
    requires c < m <= |actions|
  {
    actions[c + 1..OpenEnd(valid, s, actions, c + 1, id, deadline, m)]
  }

  /** At step `m` of the run the attempt holds what was saved, and is open exactly if nothing ended the sitting. */
  ghost predicate SavedAt(valid: Validate, s: State, actions: seq<Action>, c: nat, a0: Attempt, id: nat, m: nat)
    requires c < m <= |actions|
  {
    var t := Exec(valid, s, actions[..m]);
    && id < |t.attempts|
    && HoldsSaved(a0, t.attempts[id], OpenRequests(valid, s, actions, c, id, a0.expiresAt, m), id)
    && (t.attempts[id].status.InProgress? <==> OpenEnd(valid, s, actions, c + 1, id, a0.expiresAt, m) == m)
  }

  lemma SavedFirst(valid: Validate, s: State, actions: seq<Action>, c: nat, id: nat)
    requires Runs(valid, s, actions) && CreatedBy(valid, s, actions, c, id)
    ensures SavedAt(valid, s, actions, c, Created(valid, s, actions, c, id), id, c + 1)
  {
    var a0 := Created(valid, s, actions, c, id);
    CreatedFresh(valid, s, actions, c, id);
    hide Exec, WellDrawn, HoldsSaved;
    DrawnBlank(Exec(valid, s, actions[..c]).bank, a0.questions);
    NothingSaved(a0, id);
    assert actions[c + 1..c + 1] == [];
  }

  lemma SavedNext(valid: Validate, s: State, actions: seq<Action>, c: nat, a0: Attempt, id: nat, m: nat)
    requires c < m < |actions| && SavedAt(valid, s, actions, c, a0, id, m)
    ensures SavedAt(valid, s, actions, c, a0, id, m + 1)
  {
    var act := actions[m];
    var t := Exec(valid, s, actions[..m]);
    var e := OpenEnd(valid, s, actions, c + 1, id, a0.expiresAt, m);
    ExecNext(valid, s, actions, m);
    hide Exec, HoldsSaved, RowStep, Step, Ends;
    StepIsRowStep(valid, t, act, id);
    if e < m {
      StepSitting(valid, t, act, id);
    } else if Ends(t, act, id, a0.expiresAt) {
      EndKeeps(valid, a0, t, act, id, actions[c + 1..m]);
    } else {
      OpenSaves(valid, a0, t, act, id, actions[c + 1..m]);
      assert actions[c + 1..m] + [act] == actions[c + 1..m + 1];
    }
  }

  lemma ExecNext(valid: Validate, s: State, actions: seq<Action>, m: nat)
    requires m < |actions|
    ensures Exec(valid, s, actions[..m + 1]) == Step(valid, Exec(valid, s, actions[..m]), actions[m])
  {
    assert actions[..m + 1][..m] == actions[..m];
  }

  lemma {:induction false} SavedUpTo(valid: Validate, s: State, actions: seq<Action>, c: nat, id: nat, m: nat)
    requires Runs(valid, s, actions) && CreatedBy(valid, s, actions, c, id) && c < m <= |actions|
    ensures SavedAt(valid, s, actions, c, Created(valid, s, actions, c, id), id, m)
    decreases m
  {
    hide Exec, SavedAt, Created, Runs, CreatedBy;
    if m == c + 1 {
      SavedFirst(valid, s, actions, c, id);
    } else {
      SavedUpTo(valid, s, actions, c, id, m - 1);
      SavedNext(valid, s, actions, c, Created(valid, s, actions, c, id), id, m - 1);
    }
  }

  /** Every save among the open requests came before the deadline. */
  lemma {:induction false} OpenInTime(valid: Validate, s: State, actions: seq<Action>, c: nat, id: nat, deadline: int,
                                      m: nat)
    requires c <= m <= |actions|
    ensures forall k | c <= k < OpenEnd(valid, s, actions, c, id, deadline, m) ::
              (actions[k].SaveAnswer? || actions[k].SavePart1?) && actions[k].id == id ==> actions[k].now < deadline
    decreases m
  {
    if m > c {
      hide Exec;
      OpenInTime(valid, s, actions, c, id, deadline, m - 1);
    }
  }

  // ----- the whole run ------------------------------------------------------------------------------------------

  /** A closed attempt carries the scores of what it holds. */
  predicate Marked(valid: Validate, a: Attempt) {
    !a.status.InProgress? ==> a.submittedAt.Some? && a.scores == Some(ScoresOf(valid, a.part1, a.questions))
  }

  lemma RowStepMarked(valid: Validate, a: Attempt, act: Action, id: nat, looks: bool)
    requires Marked(valid, a)
    ensures Marked(valid, RowStep(valid, a, act, id, looks))
  {
    hide ScoresOf, ChooseAll;
  }

  ghost predicate MarkedAndSole(valid: Validate, s: State) {
    && (forall id | 0 <= id < |s.attempts| :: Marked(valid, s.attempts[id]))
    && (forall i, j | 0 <= i < j < |s.attempts| :: s.attempts[i].participant != s.attempts[j].participant)
  }

  lemma StepMarkedAndSole(valid: Validate, s: State, act: Action)
    requires MarkedAndSole(valid, s)
    ensures MarkedAndSole(valid, Step(valid, s, act))
  {
    var t := Step(valid, s, act);
    hide Marked, Step, RowStep;
    if |s.attempts| < |t.attempts| {
      StepAdds(valid, s, act);
      NewMarked(valid, t.attempts[|s.attempts|]);
    }
    StepShrinksNot(valid, s, act);
    forall id | 0 <= id < |s.attempts|
      ensures Marked(valid, t.attempts[id]) && t.attempts[id].participant == s.attempts[id].participant
    {
      StepSitting(valid, s, act, id);
      StepIsRowStep(valid, s, act, id);
      RowStepMarked(valid, s.attempts[id], act, id, LooksAt(s, act, id));
    }
  }

  lemma StepShrinksNot(valid: Validate, s: State, act: Action)
    ensures |s.attempts| <= |Step(valid, s, act).attempts|
  {
    hide ScoresOf, ChooseAll;
  }

  /** In every run closed attempts carry the scores of what they hold, and no participant has two. */
  lemma {:induction false} AllMarked(valid: Validate, bank: seq<Question>, participants: map<string, nat>,
                                     actions: seq<Action>)
    ensures MarkedAndSole(valid, Exec(valid, State(bank, participants, []), actions))
    decreases |actions|
  {
    if actions != [] {
      hide MarkedAndSole, Step;
      var n := |actions| - 1;
      AllMarked(valid, bank, participants, actions[..n]);
      StepMarkedAndSole(valid, Exec(valid, State(bank, participants, []), actions[..n]), actions[n]);
    }
  }

  lemma NewMarked(valid: Validate, a: Attempt)
    ensures a.status.InProgress? ==> Marked(valid, a)
  {
  }

  /**
   The question as it is asked is the bank's, its options in the order `p`; whatever was chosen counts as right
   exactly when it is the bank's right option.
   */
  ghost predicate AskedAs(q: Question, a: AttemptQuestion, p: seq<nat>) {
    && Permutation(p, |q.options|) && |p| == |a.options|
    && (forall k | 0 <= k < |p| :: p[k] < |q.options| && a.options[k] == q.options[p[k]])
    && (Right(a) <==> a.chosen.Some? && 0 <= a.chosen.value < |p| && p[a.chosen.value] == q.correct)
  }

  ghost predicate FairlyMarked(q: Question, a: AttemptQuestion) {
    a.questionId == q.id && a.topic == q.topic && a.stem == q.stem && exists p :: AskedAs(q, a, p)
  }

  /** Every question is fairly marked against the row of the draw it comes from. */
  ghost predicate Fair(bank: seq<Question>, qs: seq<AttemptQuestion>) {
    exists rows: seq<Question> :: Drawn(bank, rows) && FairRows(rows, qs)
  }

  ghost predicate FairRows(rows: seq<Question>, qs: seq<AttemptQuestion>) {
    |rows| == |qs| && forall k | 0 <= k < |qs| :: FairlyMarked(rows[k], qs[k])
  }

  lemma CopyMarkedFairly(q: Question, a: AttemptQuestion, choice: Option<int>)
    requires CopyOf(q, a) && (choice.Some? ==> 0 <= choice.value < |a.options|)
    ensures FairlyMarked(q, a.(chosen := choice))
  {
    var p: seq<nat> :| Permutation(p, |q.options|) && OptionsMoved(q.options, q.correct, p, a.options, a.correctIndex);
    hide Permutation;
    if choice.Some? { MarkedRight(q.options, q.correct, p, a.options, a.correctIndex, choice.value); }
    assert AskedAs(q, a.(chosen := choice), p);
  }

  lemma {:induction false} SavedInRange(actions: seq<Action>, id: nat, q: AttemptQuestion)
    ensures var c := LastSaved(actions, id, q); c.Some? ==> 0 <= c.value < |q.options|
    decreases |actions|
  {
    if actions != [] { SavedInRange(actions[..|actions| - 1], id, q); }
  }

  lemma AnswersMarkedFairly(bank: seq<Question>, a0: Attempt, z: Attempt, open: seq<Action>, id: nat)
    requires WellDrawn(bank, a0.questions) && Answered(a0, z, open, id)
    ensures Fair(bank, z.questions)
  {
    var rows: seq<Question> :| Drawn(bank, rows) && Copies(rows, a0.questions);
    forall k | 0 <= k < |z.questions| ensures FairlyMarked(rows[k], z.questions[k]) {
      assert CopyOf(rows[k], a0.questions[k]);
      SavedInRange(open, id, a0.questions[k]);
      hide CopyOf, FairlyMarked, LastSaved;
      CopyMarkedFairly(rows[k], a0.questions[k], LastSaved(open, id, a0.questions[k]));
    }
    assert FairRows(rows, z.questions);
  }

  /** A question of the attempt as created, with the choice the open part of the run saved last. */
  ghost predicate Answered(a0: Attempt, z: Attempt, open: seq<Action>, id: nat) {
    && |z.questions| == |a0.questions|
    && forall k | 0 <= k < |z.questions| ::
        z.questions[k] == a0.questions[k].(chosen := LastSaved(open, id, a0.questions[k]))
  }

  /**
   Exam integrity over every run, whatever the clock does: an attempt asks min(10, active) distinct questions
   of the bank at its creation and keeps a deadline five minutes after it; what it holds is exactly what was
   saved before its submission or the first look at it past its deadline, and every such save came before the
   deadline; a choice counts as right exactly when it is the bank question's right option, wherever the shuffle
   put it; the attempt is open exactly until then; and once closed, its stored scores are the scores of just
   that, with a total between 0 and 100. It belongs to the participant who logged in, who has no other.
   */
  lemma ExamIntegrity(valid: Validate, bank: seq<Question>, participants: map<string, nat>, actions: seq<Action>,
                      c: nat, id: nat)
    requires var s := State(bank, participants, []); Runs(valid, s, actions) && CreatedBy(valid, s, actions, c, id)
    ensures id < |Exec(valid, State(bank, participants, []), actions).attempts|
    ensures var s := State(bank, participants, []);
            var a0 := Created(valid, s, actions, c, id);
            var z := Exec(valid, s, actions).attempts[id];
            var end := OpenEnd(valid, s, actions, c + 1, id, a0.expiresAt, |actions|);
            && WellDrawn(Exec(valid, s, actions[..c]).bank, a0.questions)
            && |z.questions| == Min(QUESTIONS_PER_ATTEMPT, |Active(Exec(valid, s, actions[..c]).bank)|)
            && (forall i, j | 0 <= i < j < |z.questions| :: z.questions[i].questionId != z.questions[j].questionId)
            && actions[c].Login? && z.expiresAt == actions[c].now + EXAM_DURATION_MS
            && actions[c].code in Exec(valid, s, actions[..c]).participants
            && z.participant == Exec(valid, s, actions[..c]).participants[actions[c].code]
            && Fair(Exec(valid, s, actions[..c]).bank, z.questions)
            && Answered(a0, z, actions[c + 1..end], id) && z.part1 == MergedPart1(actions[c + 1..end], id)
            && (forall k | c < k < end && (actions[k].SaveAnswer? || actions[k].SavePart1?) && actions[k].id == id ::
                  actions[k].now < z.expiresAt)
            && (z.status.InProgress? <==> end == |actions|)
            && (!z.status.InProgress? ==>
                  && z.scores == Some(ScoresOf(valid, z.part1, z.questions))
                  && 0 <= z.scores.value.total <= 10000)
            && (forall k | 0 <= k < |Exec(valid, s, actions).attempts| && k != id ::
                  Exec(valid, s, actions).attempts[k].participant != z.participant)
  {
    hide Exec, Runs, WellDrawn, OpenEnd, LastSaved, MergedPart1, ScoresOf;
    var s := State(bank, participants, []);
    var a0 := Created(valid, s, actions, c, id);
    CreatedFresh(valid, s, actions, c, id);
    DrawnBlank(Exec(valid, s, actions[..c]).bank, a0.questions);
    SavedUpTo(valid, s, actions, c, id, |actions|);
    OpenInTime(valid, s, actions, c + 1, id, a0.expiresAt, |actions|);
    SittingKept(valid, s, actions, c + 1, id);
    assert actions[..|actions|] == actions;
    AllMarked(valid, bank, participants, actions);
    var z := Exec(valid, s, actions).attempts[id];
    ScoreBounds(valid, z.part1, z.questions);
    var end := OpenEnd(valid, s, actions, c + 1, id, a0.expiresAt, |actions|);
    AnswersMarkedFairly(Exec(valid, s, actions[..c]).bank, a0, z, actions[c + 1..end], id);
  }
}
