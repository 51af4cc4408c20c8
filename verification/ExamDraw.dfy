/**
 How an exam attempt draws its questions: a random quota per topic, a backfill from the rest of the bank,
 and two in-place shuffles. Every random draw is arbitrary.
 */
module ExamDraw {
  import opened Wrappers

  datatype Question = Question(id: nat, topic: string, stem: string, options: seq<string>, correct: int, active: bool)

  datatype AttemptQuestion = AttemptQuestion(
    questionId: nat, topic: string, stem: string, options: seq<string>, correctIndex: int, chosen: Option<int>)

  const QUESTIONS_PER_ATTEMPT := 10

  /** The topics with a quota, in the order they are drawn. */
  const TOPIC_QUOTA: seq<Quota> := [("TAX", 4), ("WORD", 2), ("EXCEL", 2), ("CYBERSECURITY", 2)]

  // ----- permutations -------------------------------------------------------------------------------

  /** `p` is a bijection of the indices below `n`, and `inv` is its inverse. */
  predicate Inverse(p: seq<nat>, inv: seq<nat>, n: nat) {
    && |p| == n && |inv| == n
    && (forall k | 0 <= k < n :: p[k] < n && inv[p[k]] == k)
    && (forall v | 0 <= v < n :: inv[v] < n && p[inv[v]] == v)
  }

  ghost predicate Permutation(p: seq<nat>, n: nat) {
    exists inv :: Inverse(p, inv, n)
  }

  function Swap<T>(s: seq<T>, i: nat, j: nat): seq<T>
    requires i < |s| && j < |s|
  {
    s[i := s[j]][j := s[i]]
  }

  lemma SwapInverse(p: seq<nat>, inv: seq<nat>, n: nat, i: nat, j: nat)
    requires Inverse(p, inv, n) && i < n && j < n
    ensures Inverse(Swap(p, i, j), inv[p[i] := j][p[j] := i], n)
  {
  }

  lemma SwapMultiset<T>(s: seq<T>, i: nat, j: nat)
    requires i < |s| && j < |s|
    ensures multiset(Swap(s, i, j)) == multiset(s)
  {
  }

  method Shuffle<T>(arr: seq<T>) returns (r: seq<T>)
    ensures multiset(r) == multiset(arr)
  {
    if arr == [] { return []; }
    var a := new T[|arr|](k requires 0 <= k < |arr| => arr[k]);
    assert a[..] == arr;
    var i := a.Length - 1;
    while i > 0
      invariant 0 <= i < a.Length
      invariant multiset(a[..]) == multiset(arr)
    {
      var j :| 0 <= j <= i;
      ghost var was := a[..];
      a[i], a[j] := a[j], a[i];
      assert a[..] == Swap(was, i, j);
      SwapMultiset(was, i, j);
      i := i - 1;
    }
    r := a[..];
  }

  method IndexOf(a: array<nat>, x: int) returns (r: int)
    ensures -1 <= r < a.Length
    ensures r >= 0 ==> a[r] == x
    ensures r == -1 ==> forall k | 0 <= k < a.Length :: a[k] != x
  {
    r := 0;
    while r < a.Length
      invariant 0 <= r <= a.Length
      invariant forall k | 0 <= k < r :: a[k] != x
    {
      if a[r] == x { return; }
      r := r + 1;
    }
    r := -1;
  }

  /** The options in the order `p`, with the right one still marked; -1 when there was no right one. */
  predicate OptionsMoved(options: seq<string>, correct: int, p: seq<nat>, r: seq<string>, c: int) {
    && |p| == |options| == |r|
    && (forall k | 0 <= k < |p| :: p[k] < |options| && r[k] == options[p[k]])
    && if 0 <= correct < |options| then 0 <= c < |r| && p[c] == correct else c == -1
  }

  method ShuffleOptions(options: seq<string>, correct: int) returns (r: seq<string>, c: int)
    ensures exists p :: Permutation(p, |options|) && OptionsMoved(options, correct, p, r, c)
  {
    var n := |options|;
    var idx := new nat[n](k => k);
    ghost var inv: seq<nat> := seq(n, k => k);
    assert Inverse(idx[..], inv, n);
    var i := n - 1;
    while i > 0
      invariant n > 0 ==> 0 <= i < n
      invariant Inverse(idx[..], inv, n)
    {
      var j :| 0 <= j <= i;
      ghost var was: seq<nat> := idx[..];
      SwapInverse(was, inv, n, i, j);
      idx[i], idx[j] := idx[j], idx[i];
      assert idx[..] == Swap(was, i, j);
      inv := inv[was[i] := j][was[j] := i];
      i := i - 1;
    }
    ghost var p: seq<nat> := idx[..];
    assert Permutation(p, n);
    r := seq(n, k requires 0 <= k < n && idx.Length == n && idx[k] < n reads idx => options[idx[k]]);
    c := IndexOf(idx, correct);
    if 0 <= correct < n { assert idx[inv[correct]] == correct; }
    assert OptionsMoved(options, correct, p, r, c);
  }

  /** Whatever the draws were, choosing a shuffled option is marked right exactly when it is the right option. */
  lemma MarkedRight(options: seq<string>, correct: int, p: seq<nat>, r: seq<string>, c: int, chosen: nat)
    requires Permutation(p, |options|) && OptionsMoved(options, correct, p, r, c) && chosen < |r|
    ensures chosen == c <==> p[chosen] == correct
    ensures chosen == c ==> r[chosen] == options[correct]
  {
    var inv :| Inverse(p, inv, |options|);
  }

  // ----- the draw -------------------------------------------------------------------------------------

  predicate Distinct(qs: seq<Question>) {
    forall i, j | 0 <= i < j < |qs| :: qs[i].id != qs[j].id
  }

  ghost function Ids(qs: seq<Question>): set<nat> {
    set q | q in qs :: q.id
  }

  lemma {:induction false} IdsCount(qs: seq<Question>)
    requires Distinct(qs)
    ensures |Ids(qs)| == |qs|
    decreases |qs|
  {
    if qs != [] {
      var n := |qs| - 1;
      IdsCount(qs[..n]);
      assert qs == qs[..n] + [qs[n]];
      assert Ids(qs) == Ids(qs[..n]) + {qs[n].id};
      assert qs[n].id !in Ids(qs[..n]);
    }
  }

  function Filter(qs: seq<Question>, keep: Question -> bool): (r: seq<Question>)
    ensures forall q :: q in r <==> q in qs && keep(q)
    ensures Distinct(qs) ==> Distinct(r)
  {
    if qs == [] then []
    else
      var n := |qs| - 1;
      var r := Filter(qs[..n], keep);
      assert forall q :: q in qs <==> q in qs[..n] || q == qs[n];
      assert Distinct(qs) ==> Distinct(qs[..n]) && forall q | q in r :: q.id != qs[n].id;
      r + if keep(qs[n]) then [qs[n]] else []
  }

  function Active(bank: seq<Question>): (r: seq<Question>)
    ensures forall q :: q in r <==> q in bank && q.active
    ensures Distinct(bank) ==> Distinct(r)
  {
    Filter(bank, (q: Question) => q.active)
  }

  function OfTopic(qs: seq<Question>, topic: string): (r: seq<Question>)
    ensures forall q :: q in r <==> q in qs && q.topic == topic
    ensures Distinct(qs) ==> Distinct(r)
  {
    Filter(qs, (q: Question) => q.topic == topic)
  }

  function Without(qs: seq<Question>, have: set<nat>): (r: seq<Question>)
    ensures forall q :: q in r <==> q in qs && q.id !in have
    ensures Distinct(qs) ==> Distinct(r)
  {
    Filter(qs, (q: Question) => q.id !in have)
  }

  function Min(a: int, b: int): int {
    if a < b then a else b
  }

  /** `ORDER BY random() LIMIT limit`. */
  method RandomRows(rows: seq<Question>, limit: nat) returns (r: seq<Question>)
    requires Distinct(rows)
    ensures |r| == Min(limit, |rows|) && Distinct(r)
    ensures forall q | q in r :: q in rows
  {
    var s := Shuffle(rows);
    SameDistinct(rows, s);
    r := s[..Min(limit, |s|)];
    forall q | q in r ensures q in rows {
      assert q in multiset(s);
    }
  }

  lemma SameDistinct(a: seq<Question>, b: seq<Question>)
    requires Distinct(a) && multiset(a) == multiset(b)
    ensures Distinct(b) && |a| == |b|
    ensures forall q :: q in a <==> q in b
  {
    forall q ensures q in a <==> q in b {
      assert q in a <==> q in multiset(a);
      assert q in b <==> q in multiset(b);
    }
    assert |multiset(a)| == |a| && |multiset(b)| == |b|;
    forall i, j | 0 <= i < j < |b| ensures b[i].id != b[j].id {
      assert b[i] in b && b[j] in b;
      UniqueId(a, b[i], b[j]);
      TwiceInMultiset(b, i, j);
      AtMostOnce(a, b[i]);
    }
  }

  lemma UniqueId(a: seq<Question>, x: Question, y: Question)
    requires Distinct(a) && x in a && y in a
    ensures x.id == y.id ==> x == y
  {
  }

  lemma TwiceInMultiset(b: seq<Question>, i: nat, j: nat)
    requires i < j < |b|
    ensures b[i] == b[j] ==> multiset(b)[b[i]] >= 2
  {
    assert b == b[..i] + [b[i]] + b[i + 1..j] + [b[j]] + b[j + 1..];
  }

  lemma AtMostOnce(a: seq<Question>, q: Question)
    requires Distinct(a) && q in a
    ensures multiset(a)[q] == 1
  {
    var k :| 0 <= k < |a| && a[k] == q;
    assert a == a[..k] + [a[k]] + a[k + 1..];
    assert q !in a[..k] && q !in a[k + 1..];
  }

  /** What an attempt may ask: distinct active questions, ten if there are so many, and each topic's quota. */
  ghost predicate Drawn(bank: seq<Question>, rows: seq<Question>) {
    && Distinct(rows) && (forall q | q in rows :: q in Active(bank))
    && |rows| == Min(QUESTIONS_PER_ATTEMPT, |Active(bank)|)
    && forall t | 0 <= t < |TOPIC_QUOTA| :: QuotaMet(bank, rows, TOPIC_QUOTA[t])
  }

  type Quota = (string, nat)

  ghost predicate QuotaMet(bank: seq<Question>, rows: seq<Question>, q: Quota) {
    |OfTopic(rows, q.0)| >= Min(q.1, |OfTopic(Active(bank), q.0)|)
  }

  /** Adding rows, or reordering them, unmeets no quota. */
  lemma MoreOfTopic(a: seq<Question>, b: seq<Question>, topic: string)
    requires Distinct(a) && Distinct(b) && forall q | q in a :: q in b
    ensures |OfTopic(a, topic)| <= |OfTopic(b, topic)|
  {
    var x, y := OfTopic(a, topic), OfTopic(b, topic);
    IdsCount(x);
    IdsCount(y);
    assert Ids(x) <= Ids(y);
    Subset(Ids(x), Ids(y));
  }

  lemma Subset<T>(x: set<T>, y: set<T>)
    requires x <= y
    ensures |x| <= |y|
  {
    assert y == x + (y - x);
  }

  lemma WithoutCount(qs: seq<Question>, picked: seq<Question>)
    requires Distinct(qs) && Distinct(picked) && forall q | q in picked :: q in qs
    ensures |Without(qs, Ids(picked))| == |qs| - |picked|
  {
    var rest := Without(qs, Ids(picked));
    IdsCount(qs);
    IdsCount(picked);
    IdsCount(rest);
    assert Ids(rest) == Ids(qs) - Ids(picked) by {
      forall id | id in Ids(qs) - Ids(picked) ensures id in Ids(rest) {
        var q :| q in qs && q.id == id;
        assert q in rest;
      }
    }
    assert Ids(picked) <= Ids(qs);
  }

  method TakenIds(picked: seq<Question>) returns (have: set<nat>)
    ensures have == Ids(picked)
  {
    have := {};
    var i := 0;
    while i < |picked|
      invariant i <= |picked| && have == Ids(picked[..i])
    {
      assert picked[..i + 1] == picked[..i] + [picked[i]];
      have := have + {picked[i].id};
      i := i + 1;
    }
    assert picked[..i] == picked;
  }

  ghost predicate DistinctTopics(quotas: seq<Quota>) {
    forall t, u | 0 <= t < u < |quotas| :: quotas[t].0 != quotas[u].0
  }

  function Sum(quotas: seq<Quota>): nat {
    if quotas == [] then 0 else Sum(quotas[..|quotas| - 1]) + quotas[|quotas| - 1].1
  }

  lemma QuotasAddUp()
    ensures DistinctTopics(TOPIC_QUOTA) && Sum(TOPIC_QUOTA) == QUESTIONS_PER_ATTEMPT
  {
    assert TOPIC_QUOTA[..3][..2] == TOPIC_QUOTA[..2] && TOPIC_QUOTA[..2][..1] == TOPIC_QUOTA[..1];
    assert Sum(TOPIC_QUOTA[..1]) == 4;
    assert Sum(TOPIC_QUOTA[..2]) == 6;
    assert Sum(TOPIC_QUOTA[..3]) == 8;
    DifferentWords();
  }

  lemma DifferentWords()
    ensures "TAX" != "WORD" && "TAX" != "EXCEL" && "TAX" != "CYBERSECURITY"
    ensures "WORD" != "EXCEL" && "WORD" != "CYBERSECURITY" && "EXCEL" != "CYBERSECURITY"
  {
    assert |"TAX"| == 3 && |"WORD"| == 4 && |"EXCEL"| == 5 && |"CYBERSECURITY"| == 13;
  }

  /** Picked rows of the first `t` topics: active, distinct, of no later topic, with every earlier quota met. */
  ghost predicate PickedUpTo(bank: seq<Question>, picked: seq<Question>, quotas: seq<Quota>, t: nat) {
    && t <= |quotas| && Distinct(picked) && (forall q | q in picked :: q in Active(bank))
    && (forall q, u | q in picked && t <= u < |quotas| :: q.topic != quotas[u].0)
    && (forall u | 0 <= u < t :: QuotaMet(bank, picked, quotas[u]))
  }

  lemma DistinctBoth(bank: seq<Question>, a: seq<Question>, b: seq<Question>)
    requires Distinct(bank) && Distinct(a) && Distinct(b)
    requires forall q | q in a || q in b :: q in bank
    requires forall q | q in a :: q !in b
    ensures Distinct(a + b)
  {
    var both := a + b;
    forall i, j | 0 <= i < j < |both| ensures both[i].id != both[j].id {
      if i < |a| <= j {
        assert both[i] in a && both[j] in b;
        UniqueId(bank, both[i], both[j]);
      }
    }
  }

  lemma PickTopic(bank: seq<Question>, picked: seq<Question>, quotas: seq<Quota>, t: nat, rows: seq<Question>)
    requires Distinct(bank) && DistinctTopics(quotas) && t < |quotas|
    requires PickedUpTo(bank, picked, quotas, t) && Distinct(rows)
    requires forall q | q in rows :: q in Active(bank) && q.topic == quotas[t].0
    requires |rows| == Min(quotas[t].1, |OfTopic(Active(bank), quotas[t].0)|)
    ensures PickedUpTo(bank, picked + rows, quotas, t + 1)
  {
    hide Active, OfTopic, QuotaMet, Min;
    DistinctBoth(bank, picked, rows);
    NewQuota(bank, rows, picked + rows, quotas[t]);
    forall u | 0 <= u < t ensures QuotaMet(bank, picked + rows, quotas[u]) {
      OldQuota(bank, picked, picked + rows, quotas[u]);
    }
  }

  lemma OldQuota(bank: seq<Question>, picked: seq<Question>, both: seq<Question>, q: Quota)
    requires Distinct(picked) && Distinct(both) && (forall x | x in picked :: x in both) && QuotaMet(bank, picked, q)
    ensures QuotaMet(bank, both, q)
  {
    hide Active, OfTopic;
    MoreOfTopic(picked, both, q.0);
  }

  lemma NewQuota(bank: seq<Question>, rows: seq<Question>, both: seq<Question>, q: Quota)
    requires Distinct(rows) && Distinct(both) && forall x | x in rows :: x in both && x.topic == q.0
    ensures |rows| >= Min(q.1, |OfTopic(Active(bank), q.0)|) ==> QuotaMet(bank, both, q)
  {
    hide Active, OfTopic;
    AllOfTopic(rows, q.0);
    MoreOfTopic(rows, both, q.0);
  }

  lemma AllOfTopic(rows: seq<Question>, topic: string)
    requires Distinct(rows) && forall q | q in rows :: q.topic == topic
    ensures |OfTopic(rows, topic)| == |rows|
  {
    hide OfTopic;
    IdsCount(rows);
    IdsCount(OfTopic(rows, topic));
    assert Ids(rows) == Ids(OfTopic(rows, topic));
  }

  method PickQuotas(bank: seq<Question>, active: seq<Question>, quotas: seq<Quota>) returns (picked: seq<Question>)
    requires Distinct(bank) && active == Active(bank) && DistinctTopics(quotas)
    ensures PickedUpTo(bank, picked, quotas, |quotas|) && |picked| <= Sum(quotas)
  {
    hide Active, OfTopic, QuotaMet, DistinctTopics;
    picked := [];
    var t := 0;
    while t < |quotas|
      invariant t <= |quotas| && PickedUpTo(bank, picked, quotas, t)
      invariant |picked| <= Sum(quotas[..t])
    {
      var rows := RandomRows(OfTopic(active, quotas[t].0), quotas[t].1);
      PickTopic(bank, picked, quotas, t, rows);
      assert quotas[..t + 1][..t] == quotas[..t];
      picked := picked + rows;
      t := t + 1;
    }
    assert quotas[..t] == quotas;
  }

  /** The rows of a new attempt, before their options are shuffled. */
  method DrawRows(bank: seq<Question>) returns (rows: seq<Question>)
    requires Distinct(bank)
    ensures Drawn(bank, rows)
  {
    hide Active, OfTopic, QuotaMet, Without, Sum, DistinctTopics;
    QuotasAddUp();
    var active := Active(bank);
    var picked := PickQuotas(bank, active, TOPIC_QUOTA);
    WithoutCount(active, picked);
    var all := picked;
    if |picked| < QUESTIONS_PER_ATTEMPT {
      var have := TakenIds(picked);
      var extra := RandomRows(Without(active, have), QUESTIONS_PER_ATTEMPT - |picked|);
      assert forall q | q in picked :: q.id in Ids(picked);
      DistinctBoth(bank, picked, extra);
      all := picked + extra;
    }
    rows := Shuffle(all);
    SameDistinct(all, rows);
    QuotasStay(bank, picked, rows);
  }

  lemma QuotasStay(bank: seq<Question>, picked: seq<Question>, rows: seq<Question>)
    requires PickedUpTo(bank, picked, TOPIC_QUOTA, |TOPIC_QUOTA|) && Distinct(rows)
    requires forall q | q in picked :: q in rows
    ensures forall u | 0 <= u < |TOPIC_QUOTA| :: QuotaMet(bank, rows, TOPIC_QUOTA[u])
  {
    hide Active, OfTopic;
    forall u | 0 <= u < |TOPIC_QUOTA| ensures QuotaMet(bank, rows, TOPIC_QUOTA[u]) {
      assert QuotaMet(bank, picked, TOPIC_QUOTA[u]);
      MoreOfTopic(picked, rows, TOPIC_QUOTA[u].0);
    }
  }

  /** The attempt's copy of a bank question: options moved, right one still marked, nothing chosen yet. */
  ghost predicate CopyOf(q: Question, a: AttemptQuestion) {
    && a.questionId == q.id && a.topic == q.topic && a.stem == q.stem && a.chosen.None?
    && exists p :: Permutation(p, |q.options|) && OptionsMoved(q.options, q.correct, p, a.options, a.correctIndex)
  }

  ghost predicate Copies(rows: seq<Question>, qs: seq<AttemptQuestion>) {
    |qs| == |rows| && forall k | 0 <= k < |qs| :: CopyOf(rows[k], qs[k])
  }

  ghost predicate WellDrawn(bank: seq<Question>, qs: seq<AttemptQuestion>) {
    exists rows :: Drawn(bank, rows) && Copies(rows, qs)
  }

  method DrawQuestions(bank: seq<Question>) returns (qs: seq<AttemptQuestion>)
    requires Distinct(bank)
    ensures WellDrawn(bank, qs)
  {
    var rows := DrawRows(bank);
    qs := [];
    var i := 0;
    while i < |rows|
      invariant i <= |rows| && Copies(rows[..i], qs)
    {
      var q := rows[i];
      var options, c := ShuffleOptions(q.options, q.correct);
      var copy := AttemptQuestion(q.id, q.topic, q.stem, options, c, None);
      assert CopyOf(q, copy);
      qs := qs + [copy];
      i := i + 1;
    }
    assert rows[..i] == rows;
  }
}
