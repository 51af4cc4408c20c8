/**
 The canonical serializer behind the audit chain (`stableStringify`), JSON string escaping as in
 section 7 of RFC 8259, and the value a jsonb column gives back.
 */
module StableJson {

  /** The texts a JavaScript number prints as; a finite number is identified with its text. */
  predicate IsNumberText(t: string) {
    t != "" && forall i | 0 <= i < |t| :: '0' <= t[i] <= '9' || t[i] in {'-', '+', '.', 'e'}
  }

  type NumberText = t: string | IsNumberText(t) witness "0"

  datatype Keyed<T> = Keyed(key: string, value: T)

  /** A live JavaScript value handed to the serializer. Members are in insertion order. */
  datatype Json =
    | Null
    | Undefined
    | NonFinite                       // NaN or an infinity
    | Bool(b: bool)
    | Num(text: NumberText)
    | Str(s: string)
    | Date(iso: string)
    | Arr(items: seq<Json>)
    | Obj(members: seq<Keyed<Json>>)

  /** An object never holds the same key twice. */
  predicate DistinctKeys<T>(ms: seq<Keyed<T>>) {
    forall i, j | 0 <= i < j < |ms| :: ms[i].key != ms[j].key
  }

  predicate WellFormed(v: Json) {
    match v
    case Arr(items) => forall i | 0 <= i < |items| :: WellFormed(items[i])
    case Obj(ms) => DistinctKeys(ms) && forall i | 0 <= i < |ms| :: WellFormed(ms[i].value)
    case _ => true
  }

  // ----- printing ----------------------------------------------------------------------------

  function HexDigit(n: int): char
    requires 0 <= n < 16
  {
    "0123456789abcdef"[n]
  }

  function EscapeChar(c: char): string {
    if c == '"' then "\\\""
    else if c == '\\' then "\\\\"
    else if c == '\U{0008}' then "\\b"
    else if c == '\t' then "\\t"
    else if c == '\n' then "\\n"
    else if c == '\U{000C}' then "\\f"
    else if c == '\r' then "\\r"
    else if c < ' ' then "\\u00" + [HexDigit(c as int / 16), HexDigit(c as int % 16)]
    else [c]
  }

  function Escape(s: string): string {
    if s == "" then "" else EscapeChar(s[0]) + Escape(s[1..])
  }

  function Quote(s: string): string {
    "\"" + (Escape(s) + "\"")
  }

  function Join(parts: seq<string>): string {
    if parts == [] then "" else if |parts| == 1 then parts[0] else parts[0] + ("," + Join(parts[1..]))
  }

  /** Lexicographic order of keys, as `sort()` compares them. */
  predicate Less(a: string, b: string) {
    b != "" && (a == "" || a[0] < b[0] || (a[0] == b[0] && Less(a[1..], b[1..])))
  }

  function Insert<T>(m: Keyed<T>, ms: seq<Keyed<T>>): seq<Keyed<T>> {
    if ms == [] || Less(m.key, ms[0].key) then [m] + ms else [ms[0]] + Insert(m, ms[1..])
  }

  function SortByKey<T>(ms: seq<Keyed<T>>): seq<Keyed<T>> {
    if ms == [] then [] else Insert(ms[0], SortByKey(ms[1..]))
  }

  function Entry(m: Keyed<string>): string {
    Quote(m.key) + (":" + m.value)
  }

  function Entries(ms: seq<Keyed<string>>): seq<string> {
    if ms == [] then [] else [Entry(ms[0])] + Entries(ms[1..])
  }

  /** `stableStringify`: members are sorted by key, whatever their insertion order. */
  function Stringify(v: Json): string {
    match v
    case Null => "null"
    case Undefined => "null"
    case Date(iso) => Quote(iso)
    case NonFinite => "null"
    case Bool(b) => if b then "true" else "false"
    case Num(text) => text
    case Str(s) => Quote(s)
    case Arr(items) => "[" + (Join(StringifyAll(items)) + "]")
    case Obj(ms) => "{" + (Join(Entries(SortByKey(Texts(ms)))) + "}")
  }

  function StringifyAll(items: seq<Json>): seq<string> {
    if items == [] then [] else [Stringify(items[0])] + StringifyAll(items[1..])
  }

  function Texts(ms: seq<Keyed<Json>>): seq<Keyed<string>> {
    if ms == [] then [] else [Keyed(ms[0].key, Stringify(ms[0].value))] + Texts(ms[1..])
  }

  // ----- meaning -----------------------------------------------------------------------------

  /** A JSON value as such: objects are maps, so key order is gone by construction. */
  datatype Value =
    | VNull
    | VBool(b: bool)
    | VNum(text: NumberText)
    | VStr(s: string)
    | VArr(items: seq<Value>)
    | VObj(members: map<string, Value>)

  /** undefined, null and non-finite numbers are one value; a Date is its ISO string. */
  function Meaning(v: Json): Value {
    match v
    case Null => VNull
    case Undefined => VNull
    case NonFinite => VNull
    case Bool(b) => VBool(b)
    case Num(text) => VNum(text)
    case Str(s) => VStr(s)
    case Date(iso) => VStr(iso)
    case Arr(items) => VArr(MeaningAll(items))
    case Obj(ms) => VObj(MeaningMembers(ms))
  }

  function MeaningAll(items: seq<Json>): seq<Value> {
    if items == [] then [] else [Meaning(items[0])] + MeaningAll(items[1..])
  }

  function MeaningMembers(ms: seq<Keyed<Json>>): map<string, Value> {
    if ms == [] then map[] else MeaningMembers(ms[1..])[ms[0].key := Meaning(ms[0].value)]
  }

  // ----- the canonical tree: keys in order, every leaf already what it prints as --------------

  datatype Canon =
    | CNull
    | CBool(b: bool)
    | CNum(text: NumberText)
    | CStr(s: string)
    | CArr(items: seq<Canon>)
    | CObj(members: seq<Keyed<Canon>>)

  function Canonical(v: Json): Canon {
    match v
    case Null => CNull
    case Undefined => CNull
    case NonFinite => CNull
    case Bool(b) => CBool(b)
    case Num(text) => CNum(text)
    case Str(s) => CStr(s)
    case Date(iso) => CStr(iso)
    case Arr(items) => CArr(CanonicalAll(items))
    case Obj(ms) => CObj(SortByKey(CanonicalMembers(ms)))
  }

  function CanonicalAll(items: seq<Json>): seq<Canon> {
    if items == [] then [] else [Canonical(items[0])] + CanonicalAll(items[1..])
  }

  function CanonicalMembers(ms: seq<Keyed<Json>>): seq<Keyed<Canon>> {
    if ms == [] then [] else [Keyed(ms[0].key, Canonical(ms[0].value))] + CanonicalMembers(ms[1..])
  }

  function Print(c: Canon): string {
    match c
    case CNull => "null"
    case CBool(b) => if b then "true" else "false"
    case CNum(text) => text
    case CStr(s) => Quote(s)
    case CArr(items) => "[" + (Join(PrintAll(items)) + "]")
    case CObj(ms) => "{" + (Join(Entries(PrintMembers(ms))) + "}")
  }

  function PrintAll(items: seq<Canon>): seq<string> {
    if items == [] then [] else [Print(items[0])] + PrintAll(items[1..])
  }

  function PrintMembers(ms: seq<Keyed<Canon>>): seq<Keyed<string>> {
    if ms == [] then [] else [Keyed(ms[0].key, Print(ms[0].value))] + PrintMembers(ms[1..])
  }

  lemma PrintInsert(m: Keyed<Canon>, ms: seq<Keyed<Canon>>)
    ensures PrintMembers(Insert(m, ms)) == Insert(Keyed(m.key, Print(m.value)), PrintMembers(ms))
  {
    hide Print, Less;
    if ms != [] && !Less(m.key, ms[0].key) {
      PrintInsert(m, ms[1..]);
    }
  }

  lemma PrintSorted(ms: seq<Keyed<Canon>>)
    ensures PrintMembers(SortByKey(ms)) == SortByKey(PrintMembers(ms))
  {
    hide Print, Insert;
    if ms != [] {
      PrintSorted(ms[1..]);
      PrintInsert(ms[0], SortByKey(ms[1..]));
    }
  }

  /** Sorting the printed members is printing the sorted members. */
  lemma StringifyIsPrint(v: Json)
    ensures Stringify(v) == Print(Canonical(v))
  {
    match v
    case Arr(items) => StringifyAllIsPrintAll(items);
    case Obj(ms) =>
      TextsArePrinted(ms);
      PrintSorted(CanonicalMembers(ms));
    case _ =>
  }

  lemma StringifyAllIsPrintAll(items: seq<Json>)
    ensures StringifyAll(items) == PrintAll(CanonicalAll(items))
  {
    if items != [] {
      StringifyIsPrint(items[0]);
      StringifyAllIsPrintAll(items[1..]);
    }
  }

  lemma TextsArePrinted(ms: seq<Keyed<Json>>)
    ensures Texts(ms) == PrintMembers(CanonicalMembers(ms))
  {
    if ms != [] {
      StringifyIsPrint(ms[0].value);
      TextsArePrinted(ms[1..]);
    }
  }

  // ----- the printed text determines the canonical tree ----------------------------------------

  /** What can follow a value inside a larger text. */
  predicate Stop(t: string) {
    t == "" || t[0] in {',', ']', '}'}
  }

  lemma Assoc(a: string, b: string, c: string)
    ensures a + b + c == a + (b + c)
  {
  }

  lemma CancelPrefix(p: string, x: string, y: string)
    requires p + x == p + y
    ensures x == y
  {
    assert (p + x)[|p|..] == x && (p + y)[|p|..] == y;
  }

  /** Escapes are a prefix code in which no code word starts with the closing quote. */
  lemma CancelEscapeChar(c: char, d: char, x: string, y: string)
    requires EscapeChar(c) + x == EscapeChar(d) + y
    ensures c == d && x == y
  {
    var e, f := EscapeChar(c), EscapeChar(d);
    var t := e + x;
    assert t[0] == e[0] == f[0];
    assert |e| >= 2 ==> t[1] == e[1];
    assert |f| >= 2 ==> t[1] == f[1];
    if |e| == 6 && |f| == 6 {
      assert t[4] == e[4] == f[4] && t[5] == e[5] == f[5];
      HexInjective(c as int / 16, d as int / 16);
      HexInjective(c as int % 16, d as int % 16);
    }
    CancelPrefix(e, x, y);
  }

  lemma HexInjective(m: int, n: int)
    requires 0 <= m < 16 && 0 <= n < 16 && HexDigit(m) == HexDigit(n)
    ensures m == n
  {
  }

  lemma {:induction false} CancelEscape(s: string, t: string, x: string, y: string)
    requires Escape(s) + ("\"" + x) == Escape(t) + ("\"" + y)
    ensures s == t && x == y
    decreases |s|
  {
    hide EscapeChar;
    if s == "" && t == "" {
      CancelPrefix(Escape(""), "\"" + x, "\"" + y);
      CancelPrefix("\"", x, y);
    } else if s == "" {
      EscapeNotQuote(t, "\"" + y);
      assert false;
    } else if t == "" {
      EscapeNotQuote(s, "\"" + x);
      assert false;
    } else {
      Assoc(EscapeChar(s[0]), Escape(s[1..]), "\"" + x);
      Assoc(EscapeChar(t[0]), Escape(t[1..]), "\"" + y);
      CancelEscapeChar(s[0], t[0], Escape(s[1..]) + ("\"" + x), Escape(t[1..]) + ("\"" + y));
      CancelEscape(s[1..], t[1..], x, y);
    }
  }

  lemma EscapeNotQuote(s: string, x: string)
    requires s != ""
    ensures (Escape(s) + x)[0] != '"'
  {
    assert (Escape(s) + x)[0] == EscapeChar(s[0])[0];
  }

  lemma CancelQuote(s: string, t: string, x: string, y: string)
    requires Quote(s) + x == Quote(t) + y
    ensures s == t && x == y
  {
    Assoc("\"", Escape(s) + "\"", x);
    Assoc("\"", Escape(t) + "\"", y);
    CancelPrefix("\"", Escape(s) + "\"" + x, Escape(t) + "\"" + y);
    Assoc(Escape(s), "\"", x);
    Assoc(Escape(t), "\"", y);
    CancelEscape(s, t, x, y);
  }

  /** How far a number reaches into a text. */
  function NumberLength(t: string): nat {
    if t != "" && ('0' <= t[0] <= '9' || t[0] in {'-', '+', '.', 'e'}) then 1 + NumberLength(t[1..]) else 0
  }

  lemma NumberLengthIs(m: string, x: string)
    requires Stop(x) && (m == "" || IsNumberText(m))
    ensures NumberLength(m + x) == |m|
  {
    if m == "" {
      assert m + x == x;
    } else {
      assert (m + x)[1..] == m[1..] + x;
      NumberLengthIs(m[1..], x);
    }
  }

  lemma CancelNumber(m: NumberText, n: NumberText, x: string, y: string)
    requires m + x == n + y && Stop(x) && Stop(y)
    ensures m == n && x == y
  {
    NumberLengthIs(m, x);
    NumberLengthIs(n, y);
    assert (m + x)[..|m|] == m && (n + y)[..|n|] == n;
    CancelPrefix(m, x, y);
  }

  /** What follows the first element of a list, up to the closing bracket. */
  function Tail(parts: seq<string>, close: string): string {
    if parts == [] then close else "," + (parts[0] + Tail(parts[1..], close))
  }

  lemma JoinTail(parts: seq<string>, close: string)
    requires parts != []
    ensures Join(parts) + close == parts[0] + Tail(parts[1..], close)
  {
    if |parts| > 1 {
      var more := Join(parts[1..]);
      Assoc(parts[0], "," + more, close);
      Assoc(",", more, close);
      JoinTail(parts[1..], close);
      assert parts[1..][1..] == parts[2..];
    }
  }

  /** The first character tells the kind of value. */
  function Kind(c: char): int {
    if c == 'n' then 0 else if c == 't' then 1 else if c == 'f' then 2 else if c == '"' then 3
    else if c == '[' then 4 else if c == '{' then 5 else if c in {',', ']', '}'} then 6 else 7
  }

  function KindOf(c: Canon): int {
    match c
    case CNull => 0
    case CBool(b) => if b then 1 else 2
    case CNum(_) => 7
    case CStr(_) => 3
    case CArr(_) => 4
    case CObj(_) => 5
  }

  lemma PrintStarts(c: Canon, x: string)
    ensures Print(c) + x != "" && Kind((Print(c) + x)[0]) == KindOf(c)
  {
    assert (Print(c) + x)[0] == Print(c)[0];
  }

  /** Unique readability: a printed value is cut off its continuation in only one way. */
  lemma {:induction false} CancelPrint(c: Canon, d: Canon, x: string, y: string)
    requires Print(c) + x == Print(d) + y && Stop(x) && Stop(y)
    ensures c == d && x == y
    decreases c, 2
  {
    PrintStarts(c, x);
    PrintStarts(d, y);
    assert KindOf(c) == KindOf(d);
    match c
    case CNum(m) => CancelNumber(m, d.text, x, y);
    case CStr(s) => CancelQuote(s, d.s, x, y);
    case CArr(items) => CancelItems(c, d, x, y);
    case CObj(ms) => CancelMembers(c, d, x, y);
    case _ => CancelPrefix(Print(c), x, y);
  }

  lemma {:induction false} CancelItems(c: Canon, d: Canon, x: string, y: string)
    requires c.CArr? && d.CArr? && Print(c) + x == Print(d) + y
    ensures c == d && x == y
    decreases c, 1
  {
    var p, q := PrintAll(c.items), PrintAll(d.items);
    CancelBracket("[", Join(p) + "]", Join(q) + "]", x, y);
    if c.items == [] || d.items == [] {
      ItemsStart(c.items, x);
      ItemsStart(d.items, y);
      CancelPrefix(Join(p) + "]", x, y);
    } else {
      JoinTail(p, "]");
      JoinTail(q, "]");
      Assoc(p[0], Tail(p[1..], "]"), x);
      Assoc(q[0], Tail(q[1..], "]"), y);
      TailStops(p[1..], "]", x);
      TailStops(q[1..], "]", y);
      CancelPrint(c.items[0], d.items[0], Tail(p[1..], "]") + x, Tail(q[1..], "]") + y);
      CancelItemTail(c, c.items[1..], d.items[1..], x, y);
    }
  }

  lemma ItemsStart(items: seq<Canon>, x: string)
    ensures var t := Join(PrintAll(items)) + "]" + x; t != "" && (items == [] <==> Kind(t[0]) == 6)
  {
    if items != [] {
      var p := PrintAll(items);
      JoinTail(p, "]");
      Assoc(p[0], Tail(p[1..], "]"), x);
      PrintStarts(items[0], Tail(p[1..], "]") + x);
    }
  }

  lemma MembersStart(ms: seq<Keyed<Canon>>, x: string)
    ensures var t := Join(Entries(PrintMembers(ms))) + "}" + x; t != "" && (ms == [] <==> t[0] == '}')
  {
    if ms != [] {
      JoinTail(Entries(PrintMembers(ms)), "}");
    }
  }

  lemma CancelBracket(b: string, s: string, t: string, x: string, y: string)
    requires b + s + x == b + t + y
    ensures s + x == t + y
  {
    Assoc(b, s, x);
    Assoc(b, t, y);
    CancelPrefix(b, s + x, t + y);
  }

  lemma TailStops(parts: seq<string>, close: string, x: string)
    requires close != "" && close[0] in {']', '}'}
    ensures Stop(Tail(parts, close) + x)
    ensures parts == [] <==> (Tail(parts, close) + x)[0] == close[0]
  {
    assert (Tail(parts, close) + x)[0] == Tail(parts, close)[0];
  }

  lemma {:induction false} CancelItemTail(whole: Canon, cs: seq<Canon>, ds: seq<Canon>, x: string, y: string)
    requires forall i | 0 <= i < |cs| :: cs[i] < whole
    requires Tail(PrintAll(cs), "]") + x == Tail(PrintAll(ds), "]") + y
    ensures cs == ds && x == y
    decreases whole, 0, |cs|
  {
    var p, q := PrintAll(cs), PrintAll(ds);
    TailStops(p, "]", x);
    TailStops(q, "]", y);
    if cs == [] {
      CancelPrefix("]", x, y);
    } else {
      CancelComma(p, q, "]", x, y);
      TailStops(p[1..], "]", x);
      TailStops(q[1..], "]", y);
      CancelPrint(cs[0], ds[0], Tail(p[1..], "]") + x, Tail(q[1..], "]") + y);
      CancelItemTail(whole, cs[1..], ds[1..], x, y);
    }
  }

  lemma CancelComma(p: seq<string>, q: seq<string>, close: string, x: string, y: string)
    requires p != [] && q != [] && Tail(p, close) + x == Tail(q, close) + y
    ensures p[0] + (Tail(p[1..], close) + x) == q[0] + (Tail(q[1..], close) + y)
  {
    CancelBracket(",", p[0] + Tail(p[1..], close), q[0] + Tail(q[1..], close), x, y);
    Assoc(p[0], Tail(p[1..], close), x);
    Assoc(q[0], Tail(q[1..], close), y);
  }

  lemma {:induction false} CancelMembers(c: Canon, d: Canon, x: string, y: string)
    requires c.CObj? && d.CObj? && Print(c) + x == Print(d) + y
    ensures c == d && x == y
    decreases c, 1
  {
    var p, q := Entries(PrintMembers(c.members)), Entries(PrintMembers(d.members));
    CancelBracket("{", Join(p) + "}", Join(q) + "}", x, y);
    if c.members == [] || d.members == [] {
      MembersStart(c.members, x);
      MembersStart(d.members, y);
      CancelPrefix(Join(p) + "}", x, y);
    } else {
      JoinTail(p, "}");
      JoinTail(q, "}");
      Assoc(p[0], Tail(p[1..], "}"), x);
      Assoc(q[0], Tail(q[1..], "}"), y);
      CancelMemberAt(c, c.members, d.members, x, y);
    }
  }

  lemma {:induction false} CancelMemberAt(whole: Canon, cs: seq<Keyed<Canon>>, ds: seq<Keyed<Canon>>, x: string,
                                          y: string)
    requires cs != [] && ds != [] && forall i | 0 <= i < |cs| :: cs[i].value < whole
    requires var p, q := Entries(PrintMembers(cs)), Entries(PrintMembers(ds));
             p[0] + (Tail(p[1..], "}") + x) == q[0] + (Tail(q[1..], "}") + y)
    ensures cs == ds && x == y
    decreases whole, 0, |cs|, 0
  {
    var p, q := Entries(PrintMembers(cs)), Entries(PrintMembers(ds));
    var u, w := Tail(p[1..], "}") + x, Tail(q[1..], "}") + y;
    var a, b := Print(cs[0].value), Print(ds[0].value);
    Assoc(Quote(cs[0].key), ":" + a, u);
    Assoc(Quote(ds[0].key), ":" + b, w);
    CancelQuote(cs[0].key, ds[0].key, ":" + a + u, ":" + b + w);
    CancelBracket(":", a, b, u, w);
    TailStops(p[1..], "}", x);
    TailStops(q[1..], "}", y);
    CancelPrint(cs[0].value, ds[0].value, u, w);
    CancelMemberTail(whole, cs[1..], ds[1..], x, y);
  }

  lemma {:induction false} CancelMemberTail(whole: Canon, cs: seq<Keyed<Canon>>, ds: seq<Keyed<Canon>>, x: string,
                                            y: string)
    requires forall i | 0 <= i < |cs| :: cs[i].value < whole
    requires Tail(Entries(PrintMembers(cs)), "}") + x == Tail(Entries(PrintMembers(ds)), "}") + y
    ensures cs == ds && x == y
    decreases whole, 0, |cs|, 1
  {
    var p, q := Entries(PrintMembers(cs)), Entries(PrintMembers(ds));
    TailStops(p, "}", x);
    TailStops(q, "}", y);
    if cs == [] {
      CancelPrefix("}", x, y);
    } else {
      CancelComma(p, q, "}", x, y);
      CancelMemberAt(whole, cs, ds, x, y);
    }
  }

  // ----- the canonical tree is the JSON value --------------------------------------------------

  lemma {:induction false} LessTotal(a: string, b: string)
    ensures Less(a, b) || Less(b, a) || a == b
    ensures !(Less(a, b) && Less(b, a)) && (a == b ==> !Less(a, b))
    decreases |a|
  {
    if a != "" && b != "" {
      LessTotal(a[1..], b[1..]);
      if a[0] == b[0] && a[1..] == b[1..] {
        assert a == [a[0]] + a[1..] && b == [b[0]] + b[1..];
      }
    }
  }

  lemma {:induction false} LessTransitive(a: string, b: string, c: string)
    requires Less(a, b) && Less(b, c)
    ensures Less(a, c)
    decreases |a|
  {
    if a != "" && a[0] == b[0] == c[0] {
      LessTransitive(a[1..], b[1..], c[1..]);
    }
  }

  /** Strictly increasing keys. */
  predicate Sorted<T>(ms: seq<Keyed<T>>) {
    forall i, j | 0 <= i < j < |ms| :: Less(ms[i].key, ms[j].key)
  }

  function Keys<T>(ms: seq<Keyed<T>>): set<string> {
    set i | 0 <= i < |ms| :: ms[i].key
  }

  lemma KeysCons<T>(m: Keyed<T>, ms: seq<Keyed<T>>)
    ensures Keys([m] + ms) == {m.key} + Keys(ms)
  {
    var all := [m] + ms;
    assert forall i | 0 <= i < |ms| :: ms[i] == all[i + 1];
    assert all[0] == m;
  }

  lemma SortedCons<T>(m: Keyed<T>, ms: seq<Keyed<T>>)
    requires Sorted(ms) && (forall k | k in Keys(ms) :: Less(m.key, k))
    ensures Sorted([m] + ms)
  {
    var all := [m] + ms;
    forall i, j | 0 <= i < j < |all| ensures Less(all[i].key, all[j].key) {
      assert all[j] == ms[j - 1] && ms[j - 1].key in Keys(ms);
      assert i > 0 ==> all[i] == ms[i - 1];
    }
  }

  lemma {:induction false} InsertSorted<T>(m: Keyed<T>, ms: seq<Keyed<T>>)
    requires Sorted(ms) && m.key !in Keys(ms)
    ensures Sorted(Insert(m, ms)) && Keys(Insert(m, ms)) == {m.key} + Keys(ms)
    decreases |ms|
  {
    KeysCons(m, ms);
    if ms != [] {
      var h, more := ms[0], ms[1..];
      assert ms == [h] + more;
      KeysCons(h, more);
      assert forall k | k in Keys(more) :: Less(h.key, k) by {
        assert forall i | 0 <= i < |more| :: more[i] == ms[i + 1];
      }
      LessTotal(m.key, h.key);
      if Less(m.key, h.key) {
        forall k | k in Keys(ms) ensures Less(m.key, k) {
          if k != h.key { LessTransitive(m.key, h.key, k); }
        }
        SortedCons(m, ms);
      } else {
        assert Sorted(more);
        InsertSorted(m, more);
        KeysCons(h, Insert(m, more));
        SortedCons(h, Insert(m, more));
      }
    } else {
      SortedCons(m, ms);
    }
  }

  lemma {:induction false} SortByKeySorts<T>(ms: seq<Keyed<T>>)
    requires DistinctKeys(ms)
    ensures Sorted(SortByKey(ms)) && Keys(SortByKey(ms)) == Keys(ms)
    decreases |ms|
  {
    if ms != [] {
      SortByKeySorts(ms[1..]);
      assert ms == [ms[0]] + ms[1..];
      KeysCons(ms[0], ms[1..]);
      assert ms[0].key !in Keys(ms[1..]);
      InsertSorted(ms[0], SortByKey(ms[1..]));
    }
  }

  function MeaningC(c: Canon): Value {
    match c
    case CNull => VNull
    case CBool(b) => VBool(b)
    case CNum(text) => VNum(text)
    case CStr(s) => VStr(s)
    case CArr(items) => VArr(MeaningCAll(items))
    case CObj(ms) => VObj(MeaningCMembers(ms))
  }

  function MeaningCAll(items: seq<Canon>): seq<Value> {
    if items == [] then [] else [MeaningC(items[0])] + MeaningCAll(items[1..])
  }

  function MeaningCMembers(ms: seq<Keyed<Canon>>): (r: map<string, Value>)
    ensures r.Keys == Keys(ms)
  {
    if ms == [] then map[]
    else
      assert ms == [ms[0]] + ms[1..];
      KeysCons(ms[0], ms[1..]);
      MeaningCMembers(ms[1..])[ms[0].key := MeaningC(ms[0].value)]
  }

  lemma UpdatesCommute<V>(r: map<string, V>, k: string, v: V, l: string, w: V)
    requires k != l
    ensures r[k := v][l := w] == r[l := w][k := v]
  {
  }

  lemma RemoveUpdate<V>(r: map<string, V>, k: string, v: V)
    requires k !in r
    ensures r[k := v] - {k} == r
  {
  }

  lemma {:induction false} MeaningInsert(m: Keyed<Canon>, ms: seq<Keyed<Canon>>)
    requires m.key !in Keys(ms)
    ensures MeaningCMembers(Insert(m, ms)) == MeaningCMembers(ms)[m.key := MeaningC(m.value)]
    decreases |ms|
  {
    hide MeaningC;
    if ms != [] {
      assert ms == [ms[0]] + ms[1..];
      KeysCons(ms[0], ms[1..]);
      if !Less(m.key, ms[0].key) {
        MeaningInsert(m, ms[1..]);
        var r := MeaningCMembers(ms[1..]);
        UpdatesCommute(r, m.key, MeaningC(m.value), ms[0].key, MeaningC(ms[0].value));
      }
    }
  }

  lemma {:induction false} MeaningSorted(ms: seq<Keyed<Canon>>)
    requires DistinctKeys(ms)
    ensures MeaningCMembers(SortByKey(ms)) == MeaningCMembers(ms)
    decreases |ms|
  {
    hide MeaningC;
    if ms != [] {
      MeaningSorted(ms[1..]);
      SortByKeySorts(ms[1..]);
      assert ms[0].key !in Keys(ms[1..]);
      MeaningInsert(ms[0], SortByKey(ms[1..]));
    }
  }

  /** Every object of a canonical tree has strictly increasing keys. */
  predicate Ordered(c: Canon) {
    match c
    case CArr(items) => forall i | 0 <= i < |items| :: Ordered(items[i])
    case CObj(ms) => Sorted(ms) && forall i | 0 <= i < |ms| :: Ordered(ms[i].value)
    case _ => true
  }

  lemma CanonicalMembersKeep(ms: seq<Keyed<Json>>)
    ensures |CanonicalMembers(ms)| == |ms|
    ensures forall i | 0 <= i < |ms| :: CanonicalMembers(ms)[i] == Keyed(ms[i].key, Canonical(ms[i].value))
  {
    hide Canonical;
    if ms != [] {
      CanonicalMembersKeep(ms[1..]);
      forall i | 0 < i < |ms| ensures CanonicalMembers(ms)[i] == Keyed(ms[i].key, Canonical(ms[i].value)) {
        assert ms[i] == ms[1..][i - 1];
      }
    }
  }

  lemma InsertKeeps<T>(m: Keyed<T>, ms: seq<Keyed<T>>)
    ensures forall x | x in Insert(m, ms) :: x == m || x in ms
  {
  }

  lemma SortKeeps<T>(ms: seq<Keyed<T>>)
    ensures forall x | x in SortByKey(ms) :: x in ms
  {
    if ms != [] {
      SortKeeps(ms[1..]);
      InsertKeeps(ms[0], SortByKey(ms[1..]));
    }
  }

  lemma {:induction false} CanonicalFacts(v: Json)
    requires WellFormed(v)
    ensures MeaningC(Canonical(v)) == Meaning(v) && Ordered(Canonical(v))
    decreases v, 1
  {
    match v
    case Arr(items) =>
      CanonicalAllFacts(items);
    case Obj(ms) =>
      CanonicalMembersFacts(ms);
      CanonicalMembersKeep(ms);
      var cs := CanonicalMembers(ms);
      assert DistinctKeys(cs);
      MeaningSorted(cs);
      SortByKeySorts(cs);
      SortKeeps(cs);
      forall i | 0 <= i < |SortByKey(cs)| ensures Ordered(SortByKey(cs)[i].value) {
        assert SortByKey(cs)[i] in cs;
      }
    case _ =>
  }

  lemma {:induction false} CanonicalAllFacts(items: seq<Json>)
    requires forall i | 0 <= i < |items| :: WellFormed(items[i])
    ensures MeaningCAll(CanonicalAll(items)) == MeaningAll(items)
    ensures forall i | 0 <= i < |CanonicalAll(items)| :: Ordered(CanonicalAll(items)[i])
    decreases items, 0
  {
    if items != [] {
      CanonicalFacts(items[0]);
      CanonicalAllFacts(items[1..]);
    }
  }

  lemma {:induction false} CanonicalMembersFacts(ms: seq<Keyed<Json>>)
    requires forall i | 0 <= i < |ms| :: WellFormed(ms[i].value)
    ensures MeaningCMembers(CanonicalMembers(ms)) == MeaningMembers(ms)
    ensures forall m | m in CanonicalMembers(ms) :: Ordered(m.value)
    decreases ms, 0
  {
    if ms != [] {
      CanonicalFacts(ms[0].value);
      CanonicalMembersFacts(ms[1..]);
    }
  }

  lemma {:induction false} MeaningInjective(c: Canon, d: Canon)
    requires Ordered(c) && Ordered(d) && MeaningC(c) == MeaningC(d)
    ensures c == d
    decreases c, 1
  {
    match c
    case CArr(items) => MeaningAllInjective(c, items, d.items);
    case CObj(ms) => MeaningMembersInjective(c, ms, d.members);
    case _ =>
  }

  lemma {:induction false} MeaningAllInjective(whole: Canon, cs: seq<Canon>, ds: seq<Canon>)
    requires forall i | 0 <= i < |cs| :: cs[i] < whole && Ordered(cs[i])
    requires forall i | 0 <= i < |ds| :: Ordered(ds[i])
    requires MeaningCAll(cs) == MeaningCAll(ds)
    ensures cs == ds
    decreases whole, 0, |cs|
  {
    hide MeaningC;
    if cs != [] && ds != [] {
      assert MeaningCAll(cs)[0] == MeaningC(cs[0]) && MeaningCAll(ds)[0] == MeaningC(ds[0]);
      assert MeaningCAll(cs)[1..] == MeaningCAll(cs[1..]) && MeaningCAll(ds)[1..] == MeaningCAll(ds[1..]);
      MeaningInjective(cs[0], ds[0]);
      MeaningAllInjective(whole, cs[1..], ds[1..]);
    }
  }

  lemma KeysEmpty<T>(ms: seq<Keyed<T>>)
    ensures Keys(ms) == {} <==> ms == []
  {
    if ms != [] {
      assert ms[0].key in Keys(ms);
    }
  }

  lemma MeaningHead(ms: seq<Keyed<Canon>>)
    requires Sorted(ms) && ms != []
    ensures ms[0].key in Keys(ms) && Sorted(ms[1..])
    ensures MeaningCMembers(ms)[ms[0].key] == MeaningC(ms[0].value)
    ensures MeaningCMembers(ms[1..]) == MeaningCMembers(ms) - {ms[0].key}
  {
    hide MeaningC;
    HeadKeyFresh(ms);
    KeysEmpty(ms);
    RemoveUpdate(MeaningCMembers(ms[1..]), ms[0].key, MeaningC(ms[0].value));
  }

  /** The first key of a sorted list is its least key. */
  lemma FirstKeyIsLeast<T>(ms: seq<Keyed<T>>, k: string)
    requires Sorted(ms) && k in Keys(ms)
    ensures k == ms[0].key || Less(ms[0].key, k)
  {
  }

  lemma {:induction false} MeaningMembersInjective(whole: Canon, cs: seq<Keyed<Canon>>, ds: seq<Keyed<Canon>>)
    requires Sorted(cs) && Sorted(ds) && MeaningCMembers(cs) == MeaningCMembers(ds)
    requires forall i | 0 <= i < |cs| :: cs[i].value < whole && Ordered(cs[i].value)
    requires forall i | 0 <= i < |ds| :: Ordered(ds[i].value)
    ensures cs == ds
    decreases whole, 0, |cs|
  {
    hide MeaningC;
    if cs == [] || ds == [] {
      KeysEmpty(cs);
      KeysEmpty(ds);
    } else {
      var a, b := cs[0], ds[0];
      assert a.key in Keys(cs) && b.key in Keys(ds);
      FirstKeyIsLeast(cs, b.key);
      FirstKeyIsLeast(ds, a.key);
      LessTotal(a.key, b.key);
      assert a.key == b.key;
      MeaningHead(cs);
      MeaningHead(ds);
      MeaningInjective(a.value, b.value);
      MeaningMembersInjective(whole, cs[1..], ds[1..]);
    }
  }

  lemma HeadKeyFresh<T>(ms: seq<Keyed<T>>)
    requires Sorted(ms) && ms != []
    ensures ms[0].key !in Keys(ms[1..]) && Sorted(ms[1..])
  {
    LessTotal(ms[0].key, ms[0].key);
    forall i | 0 <= i < |ms[1..]| ensures ms[1..][i].key != ms[0].key {
      assert Less(ms[0].key, ms[i + 1].key);
    }
  }

  /**
   The serializer is injective up to what it is meant to forget: two values print alike exactly when
   they are the same JSON value, reading undefined as null, a Date as its ISO string, and ignoring
   the order of keys.
   */
  lemma StringifyInjective(a: Json, b: Json)
    requires WellFormed(a) && WellFormed(b)
    ensures Stringify(a) == Stringify(b) <==> Meaning(a) == Meaning(b)
  {
    CanonicalFacts(a);
    CanonicalFacts(b);
    StringifyIsPrint(a);
    StringifyIsPrint(b);
    if Stringify(a) == Stringify(b) {
      CancelPrint(Canonical(a), Canonical(b), "", "");
    }
    if Meaning(a) == Meaning(b) {
      MeaningInjective(Canonical(a), Canonical(b));
    }
  }

  // ----- the jsonb copy ------------------------------------------------------------------------

  /** What a jsonb column keeps: as `Meaning`, but a member whose value is undefined is not written. */
  function StoredMeaning(v: Json): Value {
    match v
    case Null => VNull
    case Undefined => VNull
    case NonFinite => VNull
    case Bool(b) => VBool(b)
    case Num(text) => VNum(text)
    case Str(s) => VStr(s)
    case Date(iso) => VStr(iso)
    case Arr(items) => VArr(StoredAll(items))
    case Obj(ms) => VObj(StoredMembers(ms))
  }

  function StoredAll(items: seq<Json>): seq<Value> {
    if items == [] then [] else [StoredMeaning(items[0])] + StoredAll(items[1..])
  }

  function StoredMembers(ms: seq<Keyed<Json>>): (r: map<string, Value>)
    ensures r.Keys <= Keys(ms)
  {
    if ms == [] then map[]
    else
      var r := StoredMembers(ms[1..]);
      assert ms == [ms[0]] + ms[1..];
      KeysCons(ms[0], ms[1..]);
      if ms[0].value == Undefined then r else r[ms[0].key := StoredMeaning(ms[0].value)]
  }

  /** No object anywhere inside has a member whose value is undefined. */
  predicate NoUndefinedMember(v: Json) {
    match v
    case Arr(items) => forall i | 0 <= i < |items| :: NoUndefinedMember(items[i])
    case Obj(ms) => forall i | 0 <= i < |ms| :: ms[i].value != Undefined && NoUndefinedMember(ms[i].value)
    case _ => true
  }

  lemma MeaningMembersKeys(ms: seq<Keyed<Json>>)
    ensures MeaningMembers(ms).Keys == Keys(ms)
  {
    if ms != [] {
      assert ms == [ms[0]] + ms[1..];
      KeysCons(ms[0], ms[1..]);
      MeaningMembersKeys(ms[1..]);
    }
  }

  lemma {:induction false} StoredIsMeaning(v: Json)
    requires WellFormed(v)
    ensures StoredMeaning(v) == Meaning(v) <==> NoUndefinedMember(v)
    decreases v, 1
  {
    match v
    case Arr(items) => StoredAllIsMeaning(items);
    case Obj(ms) => StoredMembersAreMeaning(ms);
    case _ =>
  }

  lemma {:induction false} StoredAllIsMeaning(items: seq<Json>)
    requires forall i | 0 <= i < |items| :: WellFormed(items[i])
    ensures StoredAll(items) == MeaningAll(items) <==> forall i | 0 <= i < |items| :: NoUndefinedMember(items[i])
    decreases items, 0
  {
    if items != [] {
      var s, m := StoredAll(items), MeaningAll(items);
      StoredIsMeaning(items[0]);
      StoredAllIsMeaning(items[1..]);
      assert s[1..] == StoredAll(items[1..]) && m[1..] == MeaningAll(items[1..]);
      assert s == [s[0]] + s[1..] && m == [m[0]] + m[1..];
      assert forall i | 0 < i < |items| :: items[i] == items[1..][i - 1];
      assert forall i | 0 <= i < |items[1..]| :: items[1..][i] == items[i + 1];
    }
  }

  lemma MembersHead(ms: seq<Keyed<Json>>)
    requires DistinctKeys(ms) && ms != []
    ensures var k, r := ms[0].key, MeaningMembers(ms);
            MeaningMembers(ms[1..]) == r - {k} && k in r && r[k] == Meaning(ms[0].value)
  {
    hide Meaning;
    MeaningMembersKeys(ms[1..]);
    assert ms[0].key !in Keys(ms[1..]);
    RemoveUpdate(MeaningMembers(ms[1..]), ms[0].key, Meaning(ms[0].value));
  }

  lemma StoredHead(ms: seq<Keyed<Json>>)
    requires DistinctKeys(ms) && ms != []
    ensures var k, r := ms[0].key, StoredMembers(ms);
            && StoredMembers(ms[1..]) == r - {k}
            && (k in r <==> ms[0].value != Undefined)
            && (k in r ==> r[k] == StoredMeaning(ms[0].value))
  {
    hide StoredMeaning;
    assert ms[0].key !in Keys(ms[1..]);
    assert ms[0].key !in StoredMembers(ms[1..]);
    RemoveUpdate(StoredMembers(ms[1..]), ms[0].key, StoredMeaning(ms[0].value));
  }

  lemma SameMap<V>(m: map<string, V>, n: map<string, V>, k: string)
    ensures m == n <==> m - {k} == n - {k} && (k in m <==> k in n) && (k in m && k in n ==> m[k] == n[k])
  {
    if m - {k} == n - {k} && (k in m <==> k in n) && (k in m && k in n ==> m[k] == n[k]) {
      forall x | x in m || x in n ensures x in m && x in n && m[x] == n[x] {
        if x != k { assert x in m - {k} || x in n - {k}; assert (m - {k})[x] == (n - {k})[x]; }
      }
    }
  }

  lemma {:induction false} StoredMembersAreMeaning(ms: seq<Keyed<Json>>)
    requires DistinctKeys(ms) && forall i | 0 <= i < |ms| :: WellFormed(ms[i].value)
    ensures StoredMembers(ms) == MeaningMembers(ms) <==>
            forall i | 0 <= i < |ms| :: ms[i].value != Undefined && NoUndefinedMember(ms[i].value)
    decreases ms, 0
  {
    if ms != [] {
      var h, more := ms[0], ms[1..];
      StoredIsMeaning(h.value);
      StoredMembersAreMeaning(more);
      MembersHead(ms);
      StoredHead(ms);
      SameMap(StoredMembers(ms), MeaningMembers(ms), h.key);
      assert forall i | 0 < i < |ms| :: ms[i] == more[i - 1];
      assert forall i | 0 <= i < |more| :: more[i] == ms[i + 1];
    }
  }

  /** Whatever order the column gives the keys back in, the copy prints as the original exactly when
      no object member was undefined. */
  lemma StoredCopyPrintsAlike(v: Json, copy: Json)
    requires WellFormed(v) && WellFormed(copy) && Meaning(copy) == StoredMeaning(v)
    ensures Stringify(copy) == Stringify(v) <==> NoUndefinedMember(v)
  {
    StoredIsMeaning(v);
    StringifyInjective(copy, v);
  }
}
