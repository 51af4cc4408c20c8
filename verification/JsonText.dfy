/**
 The serializer's text is JSON (RFC 8259) for its value: what a reader that knows the grammar makes of it.
 */
module JsonText {
  import opened StableJson

  // ----- strings ---------------------------------------------------------------------------------------------

  /** The value of a hexadecimal digit, of either case. */
  function HexValue(c: char): int {
    if '0' <= c <= '9' then c as int - '0' as int
    else if 'a' <= c <= 'f' then c as int - 'a' as int + 10
    else if 'A' <= c <= 'F' then c as int - 'A' as int + 10
    else -1
  }

  /** What one two-character escape stands for. */
  function Escaped(c: char): int {
    if c == '"' || c == '\\' || c == '/' then c as int
    else if c == 'b' then 8
    else if c == 'f' then 12
    else if c == 'n' then 10
    else if c == 'r' then 13
    else if c == 't' then 9
    else -1
  }

  datatype Chars = Chars(s: string) | Malformed

  function Cons(c: char, rest: Chars): Chars {
    if rest.Chars? then Chars([c] + rest.s) else Malformed
  }

  /** Section 7 of RFC 8259: the characters between the quotes; of four-digit escapes, the first 256. */
  function Unescape(t: string): Chars
    decreases |t|
  {
    if t == "" then Chars("")
    else if t[0] == '"' || t[0] < ' ' then Malformed
    else if t[0] != '\\' then Cons(t[0], Unescape(t[1..]))
    else if |t| < 2 then Malformed
    else if Escaped(t[1]) >= 0 then Cons(Escaped(t[1]) as char, Unescape(t[2..]))
    else if |t| >= 6 && t[1] == 'u' && t[2] == '0' && t[3] == '0' && HexValue(t[4]) >= 0 && HexValue(t[5]) >= 0 then
      Cons((16 * HexValue(t[4]) + HexValue(t[5])) as char, Unescape(t[6..]))
    else Malformed
  }

  lemma HexDigitValue(n: int)
    requires 0 <= n < 16
    ensures HexValue(HexDigit(n)) == n
  {
  }

  lemma UnescapePair(c: char, rest: string)
    requires Escaped(c) >= 0
    ensures Unescape("\\" + [c] + rest) == Cons(Escaped(c) as char, Unescape(rest))
  {
    var t := "\\" + [c] + rest;
    assert t[0] == '\\' && t[1] == c && t[2..] == rest;
    hide Escaped, HexValue;
  }

  lemma UnescapeHex(h: char, l: char, rest: string)
    requires HexValue(h) >= 0 && HexValue(l) >= 0
    ensures Unescape("\\u00" + [h, l] + rest) == Cons((16 * HexValue(h) + HexValue(l)) as char, Unescape(rest))
  {
    var t := "\\u00" + [h, l] + rest;
    assert t[0] == '\\' && t[1] == 'u' && t[2] == '0' && t[3] == '0' && t[4] == h && t[5] == l && t[6..] == rest;
    assert Escaped('u') < 0;
    hide HexValue, Escaped;
  }

  lemma UnescapePlain(c: char, rest: string)
    requires c != '"' && c != '\\' && c >= ' '
    ensures Unescape([c] + rest) == Cons(c, Unescape(rest))
  {
    var t := [c] + rest;
    assert t[0] == c && t[1..] == rest;
    hide HexValue, Escaped;
  }

  /** Reading an escaped character gives it back. */
  lemma UnescapeOne(c: char, rest: string)
    ensures Unescape(EscapeChar(c) + rest) == Cons(c, Unescape(rest))
  {
    hide Unescape;
    var e := EscapeChar(c);
    if |e| == 6 {
      var h, l := HexDigit(c as int / 16), HexDigit(c as int % 16);
      HexDigitValue(c as int / 16);
      HexDigitValue(c as int % 16);
      hide HexDigit, HexValue;
      UnescapeHex(h, l, rest);
      assert 16 * (c as int / 16) + c as int % 16 == c as int;
    } else if |e| == 2 {
      assert e == "\\" + [e[1]] && Escaped(e[1]) == c as int;
      UnescapePair(e[1], rest);
    } else {
      UnescapePlain(c, rest);
    }
  }

  lemma {:induction false} UnescapeEscape(s: string)
    ensures Unescape(Escape(s)) == Chars(s)
    decreases |s|
  {
    if s != "" {
      UnescapeEscape(s[1..]);
      UnescapeOne(s[0], Escape(s[1..]));
      assert [s[0]] + s[1..] == s;
    }
  }

  predicate IsString(t: string, s: string) {
    |t| >= 2 && t[0] == '"' && t[|t| - 1] == '"' && Unescape(t[1..|t| - 1]) == Chars(s)
  }

  lemma QuoteIsString(s: string)
    ensures IsString(Quote(s), s)
  {
    UnescapeEscape(s);
    var t := Quote(s);
    assert t[1..|t| - 1] == Escape(s);
  }

  // ----- values ----------------------------------------------------------------------------------------------

  /** `a` comes before `b`: it is a proper beginning of it, or smaller where they first differ. */
  predicate Before(a: string, b: string) {
    exists k :: && 0 <= k < |b| && k <= |a| && a[..k] == b[..k] && (k == |a| || a[k] < b[k])
  }

  lemma {:induction false} LessIsBefore(a: string, b: string)
    ensures Less(a, b) <==> Before(a, b)
    decreases |a|
  {
    if a == "" {
      if b != "" { assert a[..0] == b[..0]; }
    } else if b != "" && a[0] == b[0] {
      LessIsBefore(a[1..], b[1..]);
      if Before(a[1..], b[1..]) {
        var k :| 0 <= k < |b[1..]| && k <= |a[1..]| && a[1..][..k] == b[1..][..k]
                 && (k == |a[1..]| || a[1..][k] < b[1..][k]);
        assert a[..k + 1] == [a[0]] + a[1..][..k] && b[..k + 1] == [b[0]] + b[1..][..k];
      }
      if Before(a, b) {
        var k :| 0 <= k < |b| && k <= |a| && a[..k] == b[..k] && (k == |a| || a[k] < b[k]);
        assert k > 0;
        assert a[1..][..k - 1] == a[..k][1..] && b[1..][..k - 1] == b[..k][1..];
      }
    } else if b != "" && a[0] < b[0] {
      assert a[..0] == b[..0];
    } else if b != "" {
      assert forall k | 0 < k <= |a| :: a[..k][0] == a[0];
      assert forall k | 0 < k <= |b| :: b[..k][0] == b[0];
    }
  }

  function Commas(parts: seq<string>): string {
    if parts == [] then ""
    else if |parts| == 1 then parts[0]
    else Commas(parts[..|parts| - 1]) + "," + parts[|parts| - 1]
  }

  lemma {:induction false} JoinIsCommas(parts: seq<string>)
    ensures Join(parts) == Commas(parts)
    decreases |parts|
  {
    if |parts| > 1 {
      var n := |parts| - 1;
      JoinLast(parts[..n], parts[n]);
      assert parts == parts[..n] + [parts[n]];
      JoinIsCommas(parts[..n]);
    }
  }

  lemma {:induction false} JoinLast(parts: seq<string>, last: string)
    requires parts != []
    ensures Join(parts + [last]) == Join(parts) + "," + last
    decreases |parts|
  {
    var all := parts + [last];
    if |parts| == 1 {
      assert all[1..] == [last];
    } else {
      assert all[1..] == parts[1..] + [last];
      JoinLast(parts[1..], last);
    }
  }

  /** A member of an object: a key, a colon, a value. */
  datatype Member = Member(key: string, text: string, value: string)

  function MemberTexts(ms: seq<Member>): seq<string> {
    seq(|ms|, i requires 0 <= i < |ms| => ms[i].text)
  }

  ghost predicate MemberOk(m: Member) {
    exists name: string :: IsString(name, m.key) && m.text == name + ":" + m.value
  }

  /** The text is an object of these members, in the order of their keys. */
  ghost predicate IsObject(t: string, members: seq<Member>) {
    && t == "{" + Commas(MemberTexts(members)) + "}"
    && (forall i, j | 0 <= i < j < |members| :: Before(members[i].key, members[j].key))
    && forall i | 0 <= i < |members| :: MemberOk(members[i])
  }

  /** The text is JSON for the value: undefined and non-finite numbers are null, a date is a string, and an object's
      members come in the order of their keys. */
  ghost predicate Denotes(t: string, v: Json)
    decreases v
  {
    match v
    case Null => t == "null"
    case Undefined => t == "null"
    case NonFinite => t == "null"
    case Bool(b) => t == if b then "true" else "false"
    case Num(text) => t == text
    case Str(s) => IsString(t, s)
    case Date(iso) => IsString(t, iso)
    case Arr(items) =>
      exists parts: seq<string> ::
        && |parts| == |items| && t == "[" + Commas(parts) + "]"
        && forall i | 0 <= i < |items| :: Denotes(parts[i], items[i])
    case Obj(ms) =>
      exists members: seq<Member> ::
        && |members| == |ms| && IsObject(t, members)
        && forall i | 0 <= i < |members| ::
             exists j :: 0 <= j < |ms| && ms[j].key == members[i].key && Denotes(members[i].value, ms[j].value)
  }

  lemma {:induction false} StringifyAllAt(items: seq<Json>, i: nat)
    requires i < |items|
    ensures |StringifyAll(items)| == |items| && StringifyAll(items)[i] == Stringify(items[i])
    decreases |items|
  {
    hide Stringify;
    if |items| > 1 { StringifyAllAt(items[1..], if i > 0 then i - 1 else 0); }
  }

  lemma StringifyAllLength(items: seq<Json>)
    ensures |StringifyAll(items)| == |items|
  {
    hide Stringify;
    if items != [] { StringifyAllAt(items, 0); }
  }

  lemma {:induction false} TextsAt(ms: seq<Keyed<Json>>)
    ensures |Texts(ms)| == |ms|
    ensures forall i | 0 <= i < |ms| :: Texts(ms)[i] == Keyed(ms[i].key, Stringify(ms[i].value))
    decreases |ms|
  {
    hide Stringify;
    if ms != [] {
      TextsAt(ms[1..]);
      assert forall i | 0 < i < |ms| :: ms[i] == ms[1..][i - 1] && Texts(ms)[i] == Texts(ms[1..])[i - 1];
    }
  }

  lemma SortLength<T>(ms: seq<Keyed<T>>)
    ensures |SortByKey(ms)| == |ms|
  {
    if ms != [] {
      SortLength(ms[1..]);
      InsertLength(ms[0], SortByKey(ms[1..]));
    }
  }

  lemma InsertLength<T>(m: Keyed<T>, ms: seq<Keyed<T>>)
    ensures |Insert(m, ms)| == |ms| + 1
  {
  }

  function MembersOf(ms: seq<Keyed<string>>): seq<Member> {
    seq(|ms|, i requires 0 <= i < |ms| => Member(ms[i].key, Entry(ms[i]), ms[i].value))
  }

  lemma {:induction false} EntriesAre(ms: seq<Keyed<string>>)
    ensures Entries(ms) == MemberTexts(MembersOf(ms))
    decreases |ms|
  {
    hide Entry;
    if ms != [] {
      EntriesAre(ms[1..]);
      assert MembersOf(ms)[1..] == MembersOf(ms[1..]);
      assert MemberTexts(MembersOf(ms))[1..] == MemberTexts(MembersOf(ms[1..]));
    }
  }

  lemma EntryOk(m: Keyed<string>)
    ensures MemberOk(Member(m.key, Entry(m), m.value))
  {
    QuoteIsString(m.key);
    assert Entry(m) == Quote(m.key) + ":" + m.value;
  }

  /** The printed members of an object, in the order they are printed. */
  function Printed(ms: seq<Keyed<Json>>): seq<Keyed<string>> {
    SortByKey(Texts(ms))
  }

  lemma PrintedInOrder(ms: seq<Keyed<Json>>)
    requires DistinctKeys(ms)
    ensures var members := MembersOf(Printed(ms));
            && |members| == |ms| && IsObject(Stringify(Obj(ms)), members)
  {
    hide Stringify, Before, Less, SortByKey, Entry, MemberOk, Texts, Commas, Join;
    TextsAt(ms);
    SortLength(Texts(ms));
    SortByKeySorts(Texts(ms));
    var members := MembersOf(Printed(ms));
    forall i, j | 0 <= i < j < |members| ensures Before(members[i].key, members[j].key) {
      LessIsBefore(members[i].key, members[j].key);
    }
    forall i | 0 <= i < |members| ensures MemberOk(members[i]) { EntryOk(Printed(ms)[i]); }
    EntriesAre(Printed(ms));
    JoinIsCommas(Entries(Printed(ms)));
    ObjectPrinted(ms);
  }

  lemma PrintedFrom(ms: seq<Keyed<Json>>, i: nat)
    requires i < |Printed(ms)|
    ensures exists j :: 0 <= j < |ms| && Printed(ms)[i] == Keyed(ms[j].key, Stringify(ms[j].value))
  {
    hide Stringify, Texts, SortByKey;
    TextsAt(ms);
    SortKeeps(Texts(ms));
    assert Printed(ms)[i] in Texts(ms);
  }

  /** The text of an object, given that its members' texts are right. */
  lemma ObjectText(ms: seq<Keyed<Json>>)
    requires DistinctKeys(ms) && forall j | 0 <= j < |ms| :: Denotes(Stringify(ms[j].value), ms[j].value)
    ensures Denotes(Stringify(Obj(ms)), Obj(ms))
  {
    hide Stringify, IsObject, Printed;
    PrintedInOrder(ms);
    var members := MembersOf(Printed(ms));
    var js := PrintedIndices(ms, |members|);
    ObjectDenotes(Stringify(Obj(ms)), ms, members, js);
  }

  /** Which member each printed one is. */
  lemma PrintedIndices(ms: seq<Keyed<Json>>, n: nat) returns (js: seq<nat>)
    requires n <= |Printed(ms)|
    ensures |js| == n
    ensures forall i | 0 <= i < n :: js[i] < |ms| && Printed(ms)[i] == Keyed(ms[js[i]].key, Stringify(ms[js[i]].value))
  {
    hide Stringify, Printed;
    js := [];
    while |js| < n
      invariant |js| <= n
      invariant forall i | 0 <= i < |js| ::
          js[i] < |ms| && Printed(ms)[i] == Keyed(ms[js[i]].key, Stringify(ms[js[i]].value))
    {
      PrintedFrom(ms, |js|);
      var j: nat :| j < |ms| && Printed(ms)[|js|] == Keyed(ms[j].key, Stringify(ms[j].value));
      js := js + [j];
    }
  }

  lemma ObjectPrinted(ms: seq<Keyed<Json>>)
    ensures Stringify(Obj(ms)) == "{" + Join(Entries(SortByKey(Texts(ms)))) + "}"
  {
  }

  lemma ObjectDenotes(t: string, ms: seq<Keyed<Json>>, members: seq<Member>, js: seq<nat>)
    requires |members| == |ms| == |js| && IsObject(t, members)
    requires forall i | 0 <= i < |members| ::
               js[i] < |ms| && ms[js[i]].key == members[i].key && Denotes(members[i].value, ms[js[i]].value)
    ensures Denotes(t, Obj(ms))
  {
    hide IsObject;
  }

  /** The serializer's text is JSON for the value. */
  lemma {:induction false} StringifyDenotes(v: Json)
    requires WellFormed(v)
    ensures Denotes(Stringify(v), v)
    decreases v
  {
    match v
    case Str(s) => QuoteIsString(s);
    case Date(iso) => QuoteIsString(iso);
    case Arr(items) =>
      var parts := StringifyAll(items);
      JoinIsCommas(parts);
      StringifyAllLength(items);
      forall i | 0 <= i < |items| ensures Denotes(parts[i], items[i]) {
        StringifyAllAt(items, i);
        StringifyDenotes(items[i]);
      }
      assert Stringify(v) == "[" + Commas(parts) + "]";
    case Obj(ms) =>
      forall j | 0 <= j < |ms| ensures Denotes(Stringify(ms[j].value), ms[j].value) {
        StringifyDenotes(ms[j].value);
      }
      ObjectText(ms);
    case _ =>
  }
}
