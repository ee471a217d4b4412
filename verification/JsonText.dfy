/** JSON values over integers and the text they print to; string escapes follow section 7 of RFC 8259. */
module JsonText {

  datatype Json =
    | Null
    | Bool(b: bool)
    | Number(n: int)
    | Text(s: string)
    | Array(items: seq<Json>)
    | Object(members: seq<Member>)

  datatype Member = Member(key: string, value: Json)

  // ---------------------------------------------------------------- numbers

  function Digit(d: int): char
    requires 0 <= d < 10
  {
    ('0' as int + d) as char
  }

  predicate IsDigit(c: char) {
    '0' <= c <= '9'
  }

  function Decimal(n: nat): string {
    if n < 10 then [Digit(n)] else Decimal(n / 10) + [Digit(n % 10)]
  }

  function PrintNumber(n: int): string {
    if n < 0 then "-" + Decimal(-n) else Decimal(n)
  }

  /** The number that the leading digits of the text continue, and the text after them. */
  function ReadDecimal(text: string, acc: nat): (nat, string) {
    if text != [] && IsDigit(text[0]) then ReadDecimal(text[1..], acc * 10 + (text[0] as int - '0' as int)) else (acc, text)
  }

  lemma {:induction false} DecimalIsRead(n: nat, rest: string)
    ensures ReadDecimal(Decimal(n) + rest, 0) == ReadDecimal(rest, n)
    ensures Decimal(n) != [] && IsDigit(Decimal(n)[0])
  {
    if n < 10 {
      assert ([Digit(n)] + rest)[1..] == rest;
    } else {
      DecimalIsRead(n / 10, [Digit(n % 10)] + rest);
      assert Decimal(n) + rest == Decimal(n / 10) + ([Digit(n % 10)] + rest);
      assert ([Digit(n % 10)] + rest)[1..] == rest;
    }
  }

  /** What may follow a value: nothing, or a character that no number continues with. */
  predicate Delimited(rest: string) {
    rest == [] || !IsDigit(rest[0])
  }

  lemma {:induction false} Associative(a: string, b: string, c: string)
    ensures (a + b) + c == a + (b + c)
  {
  }

  lemma {:induction false} Cancel(p: string, a: string, b: string)
    requires p + a == p + b
    ensures a == b
  {
    assert (p + a)[|p|..] == a && (p + b)[|p|..] == b;
  }

  lemma {:induction false} FirstOf(p: string, a: string)
    requires p != []
    ensures p + a != [] && (p + a)[0] == p[0]
  {
  }

  lemma {:induction false} DecimalIsUnique(a: nat, b: nat, r: string, s: string)
    requires Delimited(r) && Delimited(s) && Decimal(a) + r == Decimal(b) + s
    ensures a == b && r == s
  {
    hide Decimal;
    DecimalIsRead(a, r);
    DecimalIsRead(b, s);
  }

  lemma {:induction false} NumberIsUnique(a: int, b: int, r: string, s: string)
    requires Delimited(r) && Delimited(s) && PrintNumber(a) + r == PrintNumber(b) + s
    ensures a == b && r == s
  {
    hide Decimal, ReadDecimal;
    SignOf(a, r);
    SignOf(b, s);
    if a < 0 {
      Associative("-", Decimal(-a), r);
      Associative("-", Decimal(-b), s);
      Cancel("-", Decimal(-a) + r, Decimal(-b) + s);
      DecimalIsUnique(-a, -b, r, s);
    } else {
      DecimalIsUnique(a, b, r, s);
    }
  }

  lemma {:induction false} SignOf(a: int, r: string)
    ensures PrintNumber(a) + r != [] && ((PrintNumber(a) + r)[0] == '-' <==> a < 0)
  {
    hide Decimal, ReadDecimal;
    DecimalIsRead(if a < 0 then -a else a, "");
    FirstOf(PrintNumber(a), r);
  }

  // ---------------------------------------------------------------- strings

  function HexDigit(d: int): char
    requires 0 <= d < 16
  {
    if d < 10 then Digit(d) else ('a' as int + d - 10) as char
  }

  function HexValue(c: char): int {
    if IsDigit(c) then c as int - '0' as int else c as int - 'a' as int + 10
  }

  function EscapeChar(c: char): string {
    if c == '\"' then "\\\""
    else if c == '\\' then "\\\\"
    else if c as int == 8 then "\\b"
    else if c as int == 9 then "\\t"
    else if c as int == 10 then "\\n"
    else if c as int == 12 then "\\f"
    else if c as int == 13 then "\\r"
    else if c as int < 32 then "\\u00" + [HexDigit(c as int / 16), HexDigit(c as int % 16)]
    else [c]
  }

  function Escape(s: string): string {
    if s == [] then [] else EscapeChar(s[0]) + Escape(s[1..])
  }

  function Quote(s: string): string {
    "\"" + Escape(s) + "\""
  }

  /** The character an escaped text starts with, and the length of its escape. */
  function ReadChar(text: string): (int, nat)
    requires |text| >= 1
  {
    if text[0] != '\\' then (text[0] as int, 1)
    else if |text| < 2 then (0, 1)
    else if text[1] == 'b' then (8, 2)
    else if text[1] == 't' then (9, 2)
    else if text[1] == 'n' then (10, 2)
    else if text[1] == 'f' then (12, 2)
    else if text[1] == 'r' then (13, 2)
    else if text[1] == 'u' && |text| >= 6 then (16 * HexValue(text[4]) + HexValue(text[5]), 6)
    else (text[1] as int, 2)
  }

  lemma {:induction false} EscapeIsRead(c: char, rest: string)
    ensures EscapeChar(c) != [] && EscapeChar(c)[0] != '\"'
    ensures ReadChar(EscapeChar(c) + rest) == (c as int, |EscapeChar(c)|)
  {
    var text := EscapeChar(c) + rest;
    assert text[..|EscapeChar(c)|] == EscapeChar(c);
  }

  /** An escaped text up to its closing quotation mark, and what follows. */
  function Closed(s: string, rest: string): string {
    Escape(s) + ("\"" + rest)
  }

  lemma {:induction false} ClosedUnrolls(s: string, rest: string)
    ensures s == [] ==> Closed(s, rest) == "\"" + rest
    ensures s != [] ==> Closed(s, rest) == EscapeChar(s[0]) + Closed(s[1..], rest)
  {
    hide EscapeChar;
    if s != [] {
      assert Escape(s) == EscapeChar(s[0]) + Escape(s[1..]);
      hide Escape;
      Associative(EscapeChar(s[0]), Escape(s[1..]), "\"" + rest);
    }
  }

  lemma {:induction false} SameFirstChar(c: char, d: char, a: string, b: string)
    requires EscapeChar(c) + a == EscapeChar(d) + b
    ensures c == d && a == b
  {
    hide EscapeChar, ReadChar;
    EscapeIsRead(c, a);
    EscapeIsRead(d, b);
    Cancel(EscapeChar(c), a, b);
  }

  /** No escaped text followed by a quotation mark is the beginning of another. */
  lemma {:induction false} EscapeIsUnique(s: string, t: string, r: string, q: string)
    requires Closed(s, r) == Closed(t, q)
    ensures s == t && r == q
  {
    hide EscapeChar, Escape, Closed;
    ClosedUnrolls(s, r);
    ClosedUnrolls(t, q);
    if s != [] { EscapeIsRead(s[0], ""); FirstOf(EscapeChar(s[0]), Closed(s[1..], r)); }
    if t != [] { EscapeIsRead(t[0], ""); FirstOf(EscapeChar(t[0]), Closed(t[1..], q)); }
    if s == [] || t == [] {
      FirstOf("\"", r);
      FirstOf("\"", q);
      assert s == [] && t == [];
      Cancel("\"", r, q);
    } else {
      SameFirstChar(s[0], t[0], Closed(s[1..], r), Closed(t[1..], q));
      EscapeIsUnique(s[1..], t[1..], r, q);
    }
  }

  lemma {:induction false} QuoteIsClosed(s: string, rest: string)
    ensures Quote(s) + rest == "\"" + Closed(s, rest)
    ensures Quote(s) != [] && Quote(s)[0] == '\"'
  {
    hide Escape;
    Associative("\"" + Escape(s), "\"", rest);
    Associative("\"", Escape(s), "\"" + rest);
  }

  lemma {:induction false} QuoteIsUnique(s: string, t: string, r: string, q: string)
    requires Quote(s) + r == Quote(t) + q
    ensures s == t && r == q
  {
    hide Quote, Closed;
    QuoteIsClosed(s, r);
    QuoteIsClosed(t, q);
    Cancel("\"", Closed(s, r), Closed(t, q));
    EscapeIsUnique(s, t, r, q);
  }

  // ---------------------------------------------------------------- values

  /** The text of a value, members in the order given. */
  function Print(v: Json): string
    decreases v
  {
    match v
    case Null => "null"
    case Bool(b) => if b then "true" else "false"
    case Number(n) => PrintNumber(n)
    case Text(s) => Quote(s)
    case Array(items) => "[" + PrintItems(items) + "]"
    case Object(members) => "{" + PrintMembers(members) + "}"
  }

  function PrintItems(items: seq<Json>): string
    decreases items
  {
    if items == [] then ""
    else if |items| == 1 then Print(items[0])
    else Print(items[0]) + "," + PrintItems(items[1..])
  }

  function PrintMember(m: Member): string
    decreases m
  {
    Quote(m.key) + ":" + Print(m.value)
  }

  function PrintMembers(members: seq<Member>): string
    decreases members
  {
    if members == [] then ""
    else if |members| == 1 then PrintMember(members[0])
    else PrintMember(members[0]) + "," + PrintMembers(members[1..])
  }

  /** The kind of value a text starts. */
  predicate StartsAs(c: char, v: Json) {
    match v
    case Null => c == 'n'
    case Bool(b) => c == if b then 't' else 'f'
    case Number(_) => c == '-' || IsDigit(c)
    case Text(_) => c == '\"'
    case Array(_) => c == '['
    case Object(_) => c == '{'
  }

  lemma {:induction false} FirstCharacter(v: Json)
    ensures Print(v) != [] && StartsAs(Print(v)[0], v)
  {
    if v.Number? { DecimalIsRead(if v.n < 0 then -v.n else v.n, ""); }
  }

  /** What is left of a list after its first element: the rest of the list and the closing bracket. */
  function AfterItem(items: seq<Json>, close: string): string
    requires items != []
  {
    if |items| == 1 then close else "," + (PrintItems(items[1..]) + close)
  }

  function AfterMember(members: seq<Member>, close: string): string
    requires members != []
  {
    if |members| == 1 then close else "," + (PrintMembers(members[1..]) + close)
  }

  lemma {:induction false} ItemsUnroll(items: seq<Json>, close: string)
    requires close != []
    ensures items == [] ==> PrintItems(items) + close == close
    ensures items != [] ==> PrintItems(items) + close == Print(items[0]) + AfterItem(items, close)
  {
    hide Print;
    if |items| > 1 {
      assert PrintItems(items) == Print(items[0]) + "," + PrintItems(items[1..]);
      hide PrintItems;
      Regroup(Print(items[0]), ",", PrintItems(items[1..]), close);
    }
  }

  lemma {:induction false} MembersUnroll(members: seq<Member>, close: string)
    requires close != []
    ensures members == [] ==> PrintMembers(members) + close == close
    ensures members != [] ==> PrintMembers(members) + close == PrintMember(members[0]) + AfterMember(members, close)
  {
    hide PrintMember;
    if |members| > 1 {
      assert PrintMembers(members) == PrintMember(members[0]) + "," + PrintMembers(members[1..]);
      hide PrintMembers;
      Regroup(PrintMember(members[0]), ",", PrintMembers(members[1..]), close);
    }
  }

  lemma {:induction false} Regroup(a: string, b: string, c: string, d: string)
    ensures a + b + c + d == a + (b + (c + d))
  {
    Associative(a + b, c, d);
    Associative(a, b, c + d);
  }

  /** The texts inside the brackets of a list or an object. */
  lemma {:induction false} Inside(open: string, body: string, close: string, rest: string)
    ensures open + body + close + rest == open + (body + (close + rest))
  {
    Regroup(open, body, close, rest);
  }

  /** No printed value, suitably followed, is the beginning of another: the text determines the value. */
  lemma {:induction false} PrintIsUnique(v: Json, w: Json, r: string, s: string)
    requires Delimited(r) && Delimited(s) && Print(v) + r == Print(w) + s
    ensures v == w && r == s
    decreases v, 0
  {
    hide Quote, PrintNumber, PrintItems, PrintMembers;
    SameKind(v, w, r, s);
    match v
    case Null => Cancel("null", r, s);
    case Bool(b) => Cancel(Print(v), r, s);
    case Number(n) => NumberIsUnique(n, w.n, r, s);
    case Text(t) => QuoteIsUnique(t, w.s, r, s);
    case Array(items) =>
      Inside("[", PrintItems(items), "]", r);
      Inside("[", PrintItems(w.items), "]", s);
      Cancel("[", PrintItems(items) + ("]" + r), PrintItems(w.items) + ("]" + s));
      ItemsAreUnique(items, w.items, r, s);
    case Object(members) =>
      Inside("{", PrintMembers(members), "}", r);
      Inside("{", PrintMembers(w.members), "}", s);
      Cancel("{", PrintMembers(members) + ("}" + r), PrintMembers(w.members) + ("}" + s));
      MembersAreUnique(members, w.members, r, s);
  }

  /** The first character tells which kind of value, and for null and the booleans which value, was printed. */
  lemma {:induction false} SameKind(v: Json, w: Json, r: string, s: string)
    requires Print(v) + r == Print(w) + s
    ensures v.Null? == w.Null? && v.Number? == w.Number? && v.Text? == w.Text? && v.Array? == w.Array? && v.Object? == w.Object?
    ensures v.Bool? == w.Bool? && (v.Bool? ==> v.b == w.b)
  {
    hide Print;
    FirstCharacter(v);
    FirstCharacter(w);
    FirstOf(Print(v), r);
    FirstOf(Print(w), s);
  }

  lemma {:induction false} ItemsAreUnique(v: seq<Json>, w: seq<Json>, r: string, s: string)
    requires PrintItems(v) + ("]" + r) == PrintItems(w) + ("]" + s)
    ensures v == w && r == s
    decreases v, 1
  {
    hide Print, PrintItems, AfterItem;
    ItemsUnroll(v, "]" + r);
    ItemsUnroll(w, "]" + s);
    if v != [] { FirstCharacter(v[0]); FirstOf(Print(v[0]), AfterItem(v, "]" + r)); }
    if w != [] { FirstCharacter(w[0]); FirstOf(Print(w[0]), AfterItem(w, "]" + s)); }
    if v == [] || w == [] {
      FirstOf("]", r);
      FirstOf("]", s);
      assert v == [] && w == [];
      Cancel("]", r, s);
    } else {
      AfterItemIsDelimited(v, r);
      AfterItemIsDelimited(w, s);
      PrintIsUnique(v[0], w[0], AfterItem(v, "]" + r), AfterItem(w, "]" + s));
      if |v| == 1 {
        Cancel("]", r, s);
        assert v == [v[0]] && w == [w[0]];
      } else {
        Cancel(",", PrintItems(v[1..]) + ("]" + r), PrintItems(w[1..]) + ("]" + s));
        ItemsAreUnique(v[1..], w[1..], r, s);
        assert v == [v[0]] + v[1..] && w == [w[0]] + w[1..];
      }
    }
  }

  lemma {:induction false} AfterItemIsDelimited(items: seq<Json>, rest: string)
    requires items != []
    ensures var after := AfterItem(items, "]" + rest);
      && after != [] && Delimited(after)
      && (|items| == 1 ==> after == "]" + rest && after[0] == ']')
      && (|items| > 1 ==> after == "," + (PrintItems(items[1..]) + ("]" + rest)) && after[0] == ',')
  {
    hide PrintItems;
  }

  lemma {:induction false} AfterMemberIsDelimited(members: seq<Member>, rest: string)
    requires members != []
    ensures var after := AfterMember(members, "}" + rest);
      && after != [] && Delimited(after)
      && (|members| == 1 ==> after == "}" + rest && after[0] == '}')
      && (|members| > 1 ==> after == "," + (PrintMembers(members[1..]) + ("}" + rest)) && after[0] == ',')
  {
    hide PrintMembers;
  }

  lemma {:induction false} MemberText(m: Member, rest: string)
    ensures PrintMember(m) + rest == Quote(m.key) + (":" + (Print(m.value) + rest))
    ensures PrintMember(m) != [] && PrintMember(m)[0] == '\"'
  {
    hide Print, Quote;
    QuoteIsClosed(m.key, "");
    Regroup(Quote(m.key), ":", Print(m.value), rest);
  }

  lemma {:induction false} MemberIsUnique(v: Member, w: Member, r: string, s: string)
    requires Delimited(r) && Delimited(s) && PrintMember(v) + r == PrintMember(w) + s
    ensures v == w && r == s
    decreases v, 1
  {
    hide Print, PrintMember, Quote;
    MemberText(v, r);
    MemberText(w, s);
    QuoteIsUnique(v.key, w.key, ":" + (Print(v.value) + r), ":" + (Print(w.value) + s));
    Cancel(":", Print(v.value) + r, Print(w.value) + s);
    PrintIsUnique(v.value, w.value, r, s);
  }

  lemma {:induction false} MembersAreUnique(v: seq<Member>, w: seq<Member>, r: string, s: string)
    requires PrintMembers(v) + ("}" + r) == PrintMembers(w) + ("}" + s)
    ensures v == w && r == s
    decreases v, 2
  {
    hide PrintMember, PrintMembers, AfterMember;
    MembersUnroll(v, "}" + r);
    MembersUnroll(w, "}" + s);
    if v != [] { MemberText(v[0], ""); FirstOf(PrintMember(v[0]), AfterMember(v, "}" + r)); }
    if w != [] { MemberText(w[0], ""); FirstOf(PrintMember(w[0]), AfterMember(w, "}" + s)); }
    if v == [] || w == [] {
      FirstOf("}", r);
      FirstOf("}", s);
      assert v == [] && w == [];
      Cancel("}", r, s);
    } else {
      AfterMemberIsDelimited(v, r);
      AfterMemberIsDelimited(w, s);
      MemberIsUnique(v[0], w[0], AfterMember(v, "}" + r), AfterMember(w, "}" + s));
      if |v| == 1 {
        Cancel("}", r, s);
        assert v == [v[0]] && w == [w[0]];
      } else {
        Cancel(",", PrintMembers(v[1..]) + ("}" + r), PrintMembers(w[1..]) + ("}" + s));
        MembersAreUnique(v[1..], w[1..], r, s);
        assert v == [v[0]] + v[1..] && w == [w[0]] + w[1..];
      }
    }
  }

  // ---------------------------------------------------------------- which texts these are

  /** Quotation mark, backslash and five control characters have short escapes, the others below 32 six characters. */
  lemma {:induction false} EscapeForms(c: char)
    ensures |EscapeChar(c)| ==
              if c == '\"' || c == '\\' || c as int in {8, 9, 10, 12, 13} then 2 else if c as int < 32 then 6 else 1
    ensures |EscapeChar(c)| == 1 ==> EscapeChar(c) == [c]
    ensures |EscapeChar(c)| > 1 ==> EscapeChar(c)[0] == '\\'
    ensures |EscapeChar(c)| == 6 ==>
      c as int < 32 && EscapeChar(c) == "\\u00" + [if c as int < 16 then '0' else '1', "0123456789abcdef"[c as int % 16]]
    ensures ReadChar(EscapeChar(c)) == (c as int, |EscapeChar(c)|)
  {
    EscapeIsRead(c, "");
    assert EscapeChar(c) + "" == EscapeChar(c);
  }

  lemma {:induction false} ThreeItems(a: Json, b: Json, c: Json)
    ensures Print(Array([a, b, c])) == "[" + (Print(a) + "," + (Print(b) + "," + Print(c))) + "]"
  {
    assert [a, b, c][1..] == [b, c] && [b, c][1..] == [c];
    assert PrintItems([b, c]) == Print(b) + "," + Print(c);
  }

  lemma {:induction false} TwoMembers(a: Member, b: Member)
    ensures Print(Object([a, b])) == "{" + (PrintMember(a) + "," + PrintMember(b)) + "}"
  {
    hide PrintMember;
    assert [a, b][1..] == [b];
    assert PrintMembers([b]) == PrintMember(b);
  }

  lemma {:induction false} SampleTexts()
    ensures Print(Array([Null, Bool(true), Bool(false)])) == "[null,true,false]"
    ensures Print(Array([Number(-120), Object([]), Array([])])) == "[-120,{},[]]"
  {
    ThreeItems(Null, Bool(true), Bool(false));
    ThreeItems(Number(-120), Object([]), Array([]));
    SampleNumber();
    hide PrintNumber;
    assert Print(Object([])) == "{}" && Print(Array([])) == "[]";
  }

  lemma {:induction false} SampleNumber()
    ensures PrintNumber(-120) == "-120"
  {
    assert Decimal(1) == "1";
    assert Decimal(12) == Decimal(1) + "2";
    assert Decimal(120) == Decimal(12) + "0";
  }
}
