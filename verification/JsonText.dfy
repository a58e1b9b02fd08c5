/**
 The compact JSON text that `JSON.stringify` writes (RFC 8259, sections 3 to 7), and why it can be
 read in one way only: as a whole, and inside a cache key that puts an arbitrary name in front of it.
 */
module JsonText {
  import opened Prelude

  datatype Json =
    | JNull
    | JBool(b: bool)
    | JNumber(text: NumberText)
    | JString(s: string)
    | JArray(elements: Elements)
    | JObject(members: Members)

  datatype Elements = NoElements | Element(head: Json, tail: Elements)

  datatype Members = NoMembers | Member(name: string, value: Json, rest: Members)

  predicate IsNumberChar(c: char) {
    IsDigit(c) || c == '-' || c == '+' || c == '.' || c == 'e' || c == 'E'
  }

  /** Every number of RFC 8259, section 6: a minus sign, also in an exponent, is followed by a digit. */
  predicate IsNumberText(s: string) {
    && s != "" && (IsDigit(s[0]) || s[0] == '-')
    && (forall i :: 0 <= i < |s| ==> IsNumberChar(s[i]))
    && (forall i :: 0 <= i < |s| && s[i] == '-' ==> i + 1 < |s| && IsDigit(s[i + 1]))
  }

  type NumberText = s: string | IsNumberText(s) witness "0"

  // ---------- writing ----------

  function HexDigit(n: nat): char
    requires n < 16
  {
    "0123456789abcdef"[n]
  }

  /** Section 7: the quotation mark, the reverse solidus and the control characters are escaped. */
  function EscapeChar(c: char): (r: string)
    ensures r != "" && r[0] != '"'
  {
    if c == '"' then "\\\""
    else if c == '\\' then "\\\\"
    else if c == '\U{0008}' then "\\b"
    else if c == '\U{0009}' then "\\t"
    else if c == '\U{000A}' then "\\n"
    else if c == '\U{000C}' then "\\f"
    else if c == '\U{000D}' then "\\r"
    else if c < ' ' then "\\u00" + [HexDigit(c as int / 16), HexDigit(c as int % 16)]
    else [c]
  }

  function Escape(s: string): string {
    if s == "" then "" else EscapeChar(s[0]) + Escape(s[1..])
  }

  /** A string with its closing quotation mark. */
  function Quoted(s: string): string {
    "\"" + (Escape(s) + "\"")
  }

  function Stringify(j: Json): string {
    match j
    case JNull => "null"
    case JBool(b) => if b then "true" else "false"
    case JNumber(text) => text
    case JString(s) => Quoted(s)
    case JArray(es) => "[" + ElementsText(es)
    case JObject(ms) => "{" + MembersText(ms)
  }

  function ElementsText(es: Elements): string {
    match es
    case NoElements => "]"
    case Element(x, tail) => Stringify(x) + MoreElements(tail)
  }

  function MoreElements(es: Elements): string {
    match es
    case NoElements => "]"
    case Element(x, tail) => "," + (Stringify(x) + MoreElements(tail))
  }

  function MembersText(ms: Members): string {
    match ms
    case NoMembers => "}"
    case Member(k, v, rest) => Quoted(k) + (":" + (Stringify(v) + MoreMembers(rest)))
  }

  function MoreMembers(ms: Members): string {
    match ms
    case NoMembers => "}"
    case Member(k, v, rest) => "," + (Quoted(k) + (":" + (Stringify(v) + MoreMembers(rest))))
  }

  // ---------- one text, one value ----------

  /** What can follow a value inside a JSON text. */
  predicate Delimited(x: string) {
    x == "" || x[0] == ',' || x[0] == ']' || x[0] == '}'
  }

  lemma EscapeCharUnique(c: char, d: char, x: string, y: string)
    requires EscapeChar(c) + x == EscapeChar(d) + y
    ensures c == d && x == y
  {
    var ec, ed := EscapeChar(c), EscapeChar(d);
    assert (ec + x)[0] == ec[0] && (ed + y)[0] == ed[0];
    assert |ec| >= 2 ==> (ec + x)[1] == ec[1];
    assert |ed| >= 2 ==> (ed + y)[1] == ed[1];
    EscapeLengths(c, d);
    assert ec == (ec + x)[..|ec|] && ed == (ed + y)[..|ed|];
    EscapeCharInjective(c, d);
    assert x == (ec + x)[|ec|..] && y == (ed + y)[|ed|..];
  }

  /** The first two characters tell how long an escape is. */
  lemma EscapeLengths(c: char, d: char)
    requires EscapeChar(c)[0] == EscapeChar(d)[0]
    requires |EscapeChar(c)| >= 2 && |EscapeChar(d)| >= 2 ==> EscapeChar(c)[1] == EscapeChar(d)[1]
    ensures |EscapeChar(c)| == |EscapeChar(d)|
  {}

  lemma EscapeCharInjective(c: char, d: char)
    requires EscapeChar(c) == EscapeChar(d)
    ensures c == d
  {
    var ec, ed := EscapeChar(c), EscapeChar(d);
    if |ec| == 6 {
      assert ec[4] == ed[4] && ec[5] == ed[5];
    } else if |ec| == 2 {
      assert ec[1] == ed[1];
    } else {
      assert ec[0] == ed[0];
    }
  }

  lemma EscapeFirst(s: string, x: string)
    ensures s == "" <==> (Escape(s) + ("\"" + x))[0] == '"'
  {}

  lemma {:induction false} EscapeUnique(s: string, t: string, x: string, y: string)
    requires Escape(s) + ("\"" + x) == Escape(t) + ("\"" + y)
    ensures s == t && x == y
    decreases |s|
  {
    EscapeFirst(s, x);
    EscapeFirst(t, y);
    if s == "" {
      assert "" + ("\"" + x) == "\"" + x && "" + ("\"" + y) == "\"" + y;
      Peel('"', x, y);
    } else {
      var s', t' := Escape(s[1..]) + ("\"" + x), Escape(t[1..]) + ("\"" + y);
      Assoc(EscapeChar(s[0]), Escape(s[1..]), "\"" + x);
      Assoc(EscapeChar(t[0]), Escape(t[1..]), "\"" + y);
      EscapeCharUnique(s[0], t[0], s', t');
      EscapeUnique(s[1..], t[1..], x, y);
      assert s == [s[0]] + s[1..] && t == [t[0]] + t[1..];
    }
  }

  lemma QuotedIs(s: string, x: string)
    ensures Quoted(s) + x == "\"" + (Escape(s) + ("\"" + x))
  {}

  lemma QuotedUnique(s: string, t: string, x: string, y: string)
    requires Quoted(s) + x == Quoted(t) + y
    ensures s == t && x == y
  {
    QuotedIs(s, x);
    QuotedIs(t, y);
    Peel('"', Escape(s) + ("\"" + x), Escape(t) + ("\"" + y));
    EscapeUnique(s, t, x, y);
  }

  lemma Peel(c: char, x: string, y: string)
    requires [c] + x == [c] + y
    ensures x == y
  {
    assert x == ([c] + x)[1..] && y == ([c] + y)[1..];
  }

  lemma NumbersEndTogether(s: NumberText, t: NumberText, x: string, y: string)
    requires Delimited(x) && |s| < |t|
    ensures s + x != t + y
  {
    assert (t + y)[|s|] == t[|s|];
    if x != "" {
      assert (s + x)[|s|] == x[0];
    }
  }

  lemma NumberUnique(s: NumberText, t: NumberText, x: string, y: string)
    requires Delimited(x) && Delimited(y) && s + x == t + y
    ensures s == t && x == y
  {
    if |s| < |t| {
      NumbersEndTogether(s, t, x, y);
    } else if |t| < |s| {
      NumbersEndTogether(t, s, y, x);
    }
    Split(s, t, x, y);
  }

  lemma Split(s: string, t: string, x: string, y: string)
    requires s + x == t + y && |s| == |t|
    ensures s == t && x == y
  {
    assert s == (s + x)[..|s|] && t == (t + y)[..|t|];
    assert x == (s + x)[|s|..] && y == (t + y)[|t|..];
  }

  /** The first character of a text tells which kind of value it is. */
  function Kind(c: char): nat {
    if c == 'n' then 0 else if c == 't' then 1 else if c == 'f' then 2
    else if IsDigit(c) || c == '-' then 3 else if c == '"' then 4
    else if c == '[' then 5 else if c == '{' then 6 else 7
  }

  function KindOf(j: Json): nat {
    match j
    case JNull => 0
    case JBool(b) => if b then 1 else 2
    case JNumber(_) => 3
    case JString(_) => 4
    case JArray(_) => 5
    case JObject(_) => 6
  }

  lemma FirstChar(j: Json, x: string)
    ensures Stringify(j) != "" && Kind((Stringify(j) + x)[0]) == KindOf(j)
  {
    assert (Stringify(j) + x)[0] == Stringify(j)[0];
  }

  /** No two values have texts of which one could be taken for the other. */
  lemma {:induction false} StringifyUnique(a: Json, b: Json, x: string, y: string)
    requires Delimited(x) && Delimited(y)
    requires Stringify(a) + x == Stringify(b) + y
    ensures a == b && x == y
    decreases a
  {
    FirstChar(a, x);
    FirstChar(b, y);
    match a {
      case JNumber(s) => NumberUnique(s, b.text, x, y);
      case JString(s) => QuotedUnique(s, b.s, x, y);
      case JArray(es) =>
        Assoc("[", ElementsText(es), x);
        Assoc("[", ElementsText(b.elements), y);
        Peel('[', ElementsText(es) + x, ElementsText(b.elements) + y);
        ElementsUnique(es, b.elements, x, y);
      case JObject(ms) =>
        Assoc("{", MembersText(ms), x);
        Assoc("{", MembersText(b.members), y);
        Peel('{', MembersText(ms) + x, MembersText(b.members) + y);
        MembersUnique(ms, b.members, x, y);
      case _ => Split(Stringify(a), Stringify(b), x, y);
    }
  }

  lemma {:induction false} ElementsUnique(es: Elements, fs: Elements, x: string, y: string)
    requires ElementsText(es) + x == ElementsText(fs) + y
    ensures es == fs && x == y
    decreases es
  {
    if es.Element? {
      FirstChar(es.head, MoreElements(es.tail) + x);
      Assoc(Stringify(es.head), MoreElements(es.tail), x);
    }
    if fs.Element? {
      FirstChar(fs.head, MoreElements(fs.tail) + y);
      Assoc(Stringify(fs.head), MoreElements(fs.tail), y);
    }
    assert es.NoElements? ==> (ElementsText(es) + x)[0] == ']';
    assert fs.NoElements? ==> (ElementsText(fs) + y)[0] == ']';
    if es.Element? {
      StringifyUnique(es.head, fs.head, MoreElements(es.tail) + x, MoreElements(fs.tail) + y);
      MoreElementsUnique(es.tail, fs.tail, x, y);
    } else {
      Peel(']', x, y);
    }
  }

  lemma {:induction false} MoreElementsUnique(es: Elements, fs: Elements, x: string, y: string)
    requires MoreElements(es) + x == MoreElements(fs) + y
    ensures es == fs && x == y
    decreases es
  {
    assert (MoreElements(es) + x)[0] == if es.Element? then ',' else ']';
    assert (MoreElements(fs) + y)[0] == if fs.Element? then ',' else ']';
    if es.Element? {
      var u, v := Stringify(es.head) + (MoreElements(es.tail) + x), Stringify(fs.head) + (MoreElements(fs.tail) + y);
      assert MoreElements(es) + x == "," + u && MoreElements(fs) + y == "," + v;
      Peel(',', u, v);
      StringifyUnique(es.head, fs.head, MoreElements(es.tail) + x, MoreElements(fs.tail) + y);
      MoreElementsUnique(es.tail, fs.tail, x, y);
    } else {
      Peel(']', x, y);
    }
  }

  /** The first member and everything behind it. */
  function MemberText(ms: Members, x: string): string
    requires ms.Member?
  {
    Quoted(ms.name) + (":" + (Stringify(ms.value) + (MoreMembers(ms.rest) + x)))
  }

  lemma MembersTextIs(ms: Members, x: string)
    requires ms.Member?
    ensures MembersText(ms) + x == MemberText(ms, x)
    ensures MoreMembers(ms) + x == "," + MemberText(ms, x)
  {
    var v, r := Stringify(ms.value), MoreMembers(ms.rest);
    Assoc(Quoted(ms.name), ":" + (v + r), x);
    Assoc(":", v + r, x);
    Assoc(v, r, x);
    Assoc(",", MembersText(ms), x);
  }

  lemma MembersFirst(ms: Members, x: string)
    ensures (MembersText(ms) + x)[0] == if ms.Member? then '"' else '}'
    ensures (MoreMembers(ms) + x)[0] == if ms.Member? then ',' else '}'
  {}

  lemma {:induction false} MembersUnique(ms: Members, ns: Members, x: string, y: string)
    requires MembersText(ms) + x == MembersText(ns) + y
    ensures ms == ns && x == y
    decreases ms, 1
  {
    MembersFirst(ms, x);
    MembersFirst(ns, y);
    if ms.Member? {
      MembersTextIs(ms, x);
      MembersTextIs(ns, y);
      MemberUnique(ms, ns, x, y);
    } else {
      Peel('}', x, y);
    }
  }

  lemma {:induction false} MoreMembersUnique(ms: Members, ns: Members, x: string, y: string)
    requires MoreMembers(ms) + x == MoreMembers(ns) + y
    ensures ms == ns && x == y
    decreases ms, 1
  {
    MembersFirst(ms, x);
    MembersFirst(ns, y);
    if ms.Member? {
      MembersTextIs(ms, x);
      MembersTextIs(ns, y);
      Peel(',', MemberText(ms, x), MemberText(ns, y));
      MemberUnique(ms, ns, x, y);
    } else {
      Peel('}', x, y);
    }
  }

  lemma {:induction false} MemberUnique(ms: Members, ns: Members, x: string, y: string)
    requires ms.Member? && ns.Member?
    requires MemberText(ms, x) == MemberText(ns, y)
    ensures ms == ns && x == y
    decreases ms, 0
  {
    var u, v := Stringify(ms.value) + (MoreMembers(ms.rest) + x), Stringify(ns.value) + (MoreMembers(ns.rest) + y);
    QuotedUnique(ms.name, ns.name, ":" + u, ":" + v);
    Peel(':', u, v);
    StringifyUnique(ms.value, ns.value, MoreMembers(ms.rest) + x, MoreMembers(ns.rest) + y);
    MoreMembersUnique(ms.rest, ns.rest, x, y);
  }

  // ---------- a scanner that only knows strings and minus signs ----------

  /** Outside a string, after a minus sign outside a string, inside a string, after a reverse solidus. */
  datatype Mode = Outside | Minus | Inside | Escaped | Bad

  function Scan(m: Mode, c: char): Mode {
    match m
    case Outside => if c == '"' then Inside else if c == '\\' then Bad else if c == '-' then Minus else Outside
    case Minus => if IsDigit(c) then Outside else Bad
    case Inside => if c == '"' then Outside else if c == '\\' then Escaped else Inside
    case Escaped => Inside
    case Bad => Bad
  }

  function ScanAll(m: Mode, s: string): Mode
    decreases |s|
  {
    if s == "" then m else ScanAll(Scan(m, s[0]), s[1..])
  }

  lemma {:induction false} ScanAppend(m: Mode, s: string, t: string)
    ensures ScanAll(m, s + t) == ScanAll(ScanAll(m, s), t)
    decreases |s|
  {
    if s == "" {
      assert s + t == t;
    } else {
      assert (s + t)[1..] == s[1..] + t;
      ScanAppend(Scan(m, s[0]), s[1..], t);
    }
  }

  lemma ScanOne(m: Mode, c: char)
    ensures ScanAll(m, [c]) == Scan(m, c)
  {
    assert ScanAll(Scan(m, c), [c][1..]) == Scan(m, c);
  }

  lemma {:induction false} ScanEscape(s: string)
    ensures ScanAll(Inside, Escape(s)) == Inside
    decreases |s|
  {
    if s != "" {
      var e := EscapeChar(s[0]);
      assert ScanAll(Inside, e) == Inside by {
        ScanOne(Inside, e[0]);
        if |e| == 2 {
          assert e == [e[0]] + [e[1]];
          ScanAppend(Inside, [e[0]], [e[1]]);
          ScanOne(Escaped, e[1]);
        } else if |e| == 6 {
          assert e[1..] == ['u', '0', '0', e[4], e[5]];
          ScanPlain(e[2..]);
          assert e[1..][1..] == e[2..];
        } else {
          assert e == [e[0]];
        }
      }
      ScanEscape(s[1..]);
      ScanAppend(Inside, e, Escape(s[1..]));
    }
  }

  lemma {:induction false} ScanPlain(s: string)
    requires '"' !in s && '\\' !in s
    ensures ScanAll(Inside, s) == Inside
    decreases |s|
  {
    if s != "" {
      assert s[0] in s && forall c :: c in s[1..] ==> c in s;
      ScanPlain(s[1..]);
    }
  }

  lemma ScanQuoted(s: string)
    ensures ScanAll(Outside, Quoted(s)) == Outside
  {
    ScanOne(Outside, '"');
    ScanOne(Inside, '"');
    ScanEscape(s);
    ScanAppend(Inside, Escape(s), "\"");
    ScanAppend(Outside, "\"", Escape(s) + "\"");
  }

  lemma {:induction false} ScanNumber(s: string)
    requires forall i :: 0 <= i < |s| ==> IsNumberChar(s[i])
    requires forall i :: 0 <= i < |s| && s[i] == '-' ==> i + 1 < |s| && IsDigit(s[i + 1])
    ensures ScanAll(Outside, s) == Outside
    decreases |s|
  {
    if s != "" {
      var t := s[1..];
      assert IsNumberChar(s[0]);
      assert forall i :: 0 <= i < |t| ==> t[i] == s[i + 1];
      ScanNumber(t);
      if s[0] == '-' {
        assert IsDigit(t[0]);
        assert ScanAll(Minus, t) == ScanAll(Outside, t[1..]) == ScanAll(Outside, t);
      }
    }
  }

  /** Scanning a JSON text ends where it began: outside every string. */
  lemma {:induction false} ScanStringify(j: Json)
    ensures ScanAll(Outside, Stringify(j)) == Outside
    decreases j
  {
    match j {
      case JNull => ScanLetters("null");
      case JBool(b) => ScanLetters(Stringify(j));
      case JNumber(text) => ScanNumber(text);
      case JString(s) => ScanQuoted(s);
      case JArray(es) =>
        ScanMark('[', ElementsText(es));
        if es.Element? {
          ScanStringify(es.head);
          ScanMoreElements(es.tail);
          ScanAppend(Outside, Stringify(es.head), MoreElements(es.tail));
        } else {
          ScanOne(Outside, ']');
        }
      case JObject(ms) =>
        ScanMark('{', MembersText(ms));
        if ms.Member? {
          ScanMember(ms);
        } else {
          ScanOne(Outside, '}');
        }
    }
  }

  lemma {:induction false} ScanLetters(s: string)
    requires s == "null" || s == "true" || s == "false"
    ensures ScanAll(Outside, s) == Outside
  {
    assert forall i :: 0 <= i < |s| ==> s[i] != '"' && s[i] != '\\' && s[i] != '-';
    ScanNeutral(s);
  }

  lemma {:induction false} ScanNeutral(s: string)
    requires forall i :: 0 <= i < |s| ==> s[i] != '"' && s[i] != '\\' && s[i] != '-'
    ensures ScanAll(Outside, s) == Outside
    decreases |s|
  {
    if s != "" {
      ScanNeutral(s[1..]);
    }
  }

  lemma ScanMark(c: char, s: string)
    requires c == '[' || c == '{' || c == ',' || c == ':'
    ensures ScanAll(Outside, [c] + s) == ScanAll(Outside, s)
  {
    ScanOne(Outside, c);
    ScanAppend(Outside, [c], s);
  }

  lemma {:induction false} ScanMoreElements(es: Elements)
    ensures ScanAll(Outside, MoreElements(es)) == Outside
    decreases es
  {
    if es.Element? {
      ScanMark(',', Stringify(es.head) + MoreElements(es.tail));
      ScanStringify(es.head);
      ScanMoreElements(es.tail);
      ScanAppend(Outside, Stringify(es.head), MoreElements(es.tail));
    } else {
      ScanOne(Outside, ']');
    }
  }

  lemma {:induction false} ScanMember(ms: Members)
    requires ms.Member?
    ensures ScanAll(Outside, MembersText(ms)) == Outside
    decreases ms, 1
  {
    var v, rest := Stringify(ms.value), MoreMembers(ms.rest);
    ScanQuoted(ms.name);
    ScanAppend(Outside, Quoted(ms.name), ":" + (v + rest));
    ScanMark(':', v + rest);
    ScanStringify(ms.value);
    ScanAppend(Outside, v, rest);
    if ms.rest.Member? {
      ScanMark(',', MembersText(ms.rest));
      ScanMember(ms.rest);
    } else {
      ScanOne(Outside, '}');
    }
  }

  /** Two scanners of which one is inside a string when the other is not. */
  predicate Opposite(p: Mode, q: Mode) {
    || p == Bad || q == Bad
    || (p == Inside && (q == Outside || q == Minus))
    || (q == Inside && (p == Outside || p == Minus))
  }

  lemma {:induction false} OppositeForever(p: Mode, q: Mode, s: string)
    requires Opposite(p, q)
    ensures Opposite(ScanAll(p, s), ScanAll(q, s))
    decreases |s|
  {
    if s != "" {
      OppositeForever(Scan(p, s[0]), Scan(q, s[0]), s[1..]);
    }
  }

  /** No JSON text contains, behind a minus sign, an object text that runs to its end. */
  lemma NoInnerObject(outer: Json, prefix: string, inner: Json)
    requires inner.JObject?
    ensures Stringify(outer) != prefix + ("-" + Stringify(inner))
  {
    var p, body := ScanAll(Outside, prefix), Stringify(inner);
    ScanStringify(outer);
    ScanStringify(inner);
    ScanAppend(Outside, prefix, "-" + body);
    ScanOne(p, '-');
    ScanAppend(p, "-", body);
    if p == Inside || p == Escaped {
      OppositeForever(Inside, Outside, body);
    } else {
      assert body[0] == '{';
      OppositeForever(Scan(Scan(p, '-'), '{'), Outside, body[1..]);
    }
  }

  // ---------- the cache key ----------

  function Key(name: string, options: Json): string {
    name + ("-" + Stringify(options))
  }

  lemma LongerName(n: string, a: Json, m: string, b: Json)
    requires b.JObject? && |n| < |m|
    ensures Key(n, a) != Key(m, b)
  {
    if Key(n, a) == Key(m, b) {
      var k := |m| - |n| - 1;
      var text := Key(n, a)[|n| + 1..];
      assert text == Stringify(a);
      assert text == text[..k] + text[k..];
      assert text[k..] == Key(m, b)[|m|..] == "-" + Stringify(b);
      NoInnerObject(a, text[..k], b);
    }
  }

  /** The key determines the database name and the options, whatever characters the name contains. */
  lemma KeyInjective(n: string, a: Json, m: string, b: Json)
    requires a.JObject? && b.JObject? && Key(n, a) == Key(m, b)
    ensures n == m && a == b
  {
    if |n| < |m| {
      LongerName(n, a, m, b);
    } else if |m| < |n| {
      LongerName(m, b, n, a);
    } else {
      Split(n, m, "-" + Stringify(a), "-" + Stringify(b));
      Peel('-', Stringify(a), Stringify(b));
      assert Stringify(a) + "" == Stringify(a) && Stringify(b) + "" == Stringify(b);
      StringifyUnique(a, b, "", "");
    }
  }
}
