// The part of JSON (RFC 8259) that file dictionaries use: strings (section 7)
// and objects (section 4) of such values.  The printer is json.dumps with its
// default options: ", " and ": " as separators, and every character outside
// the printable ASCII range escaped.  The parser is json.loads on this part.
module Json {
  import opened Collections

  datatype Value = Str(text: string) | Obj(members: Members)
  // an object's members, in order
  datatype Members = End | Member(name: string, value: Value, rest: Members)

  // ------------------------------------------------------------------------ printing

  function HexDigit(d: nat): char
    requires d < 16
  {
    if d < 10 then '0' + d as char else 'a' + (d - 10) as char
  }

  function Hex4(n: nat): (s: string)
    requires n < 0x1_0000
    ensures |s| == 4
  {
    [HexDigit(n / 0x1000), HexDigit(n / 0x100 % 0x10), HexDigit(n / 0x10 % 0x10), HexDigit(n % 0x10)]
  }

  predicate IsPrintable(c: char) {
    ' ' <= c <= '~'
  }

  /** One character inside a printed string. */
  function Escaped(c: char): string {
    if c == '"' then "\\\""
    else if c == '\\' then "\\\\"
    else if IsPrintable(c) then [c]
    else if c == '\n' then "\\n"
    else if c == '\r' then "\\r"
    else if c == '\t' then "\\t"
    else if c as int == 0x0C then "\\f"
    else if c as int == 0x08 then "\\b"
    else if c as int < 0x1_0000 then "\\u" + Hex4(c as int)
    else
      var n := c as int - 0x1_0000;
      "\\u" + Hex4(0xD800 + n / 0x400) + "\\u" + Hex4(0xDC00 + n % 0x400)
  }

  function EscapedText(s: string): string {
    if s == "" then "" else Escaped(s[0]) + EscapedText(s[1..])
  }

  function Quoted(s: string): string {
    "\"" + EscapedText(s) + "\""
  }

  /** json.dumps */
  function Dumps(v: Value): string {
    match v
    case Str(text) => Quoted(text)
    case Obj(members) => "{" + DumpsMembers(members) + "}"
  }

  function DumpsMembers(ms: Members): string {
    match ms
    case End => ""
    case Member(name, value, rest) =>
      Quoted(name) + ": " + Dumps(value) + (if rest.End? then "" else ", " + DumpsMembers(rest))
  }

  // ------------------------------------------------------------------------- parsing

  function HexValue(c: char): Option<nat> {
    if '0' <= c <= '9' then Some(c as int - '0' as int)
    else if 'a' <= c <= 'f' then Some(c as int - 'a' as int + 10)
    else if 'A' <= c <= 'F' then Some(c as int - 'A' as int + 10)
    else None
  }

  function ParseHex4(s: string): (r: Option<nat>)
    ensures r.Some? ==> |s| >= 4 && r.value < 0x1_0000
  {
    if |s| < 4 then None else
    match (HexValue(s[0]), HexValue(s[1]), HexValue(s[2]), HexValue(s[3]))
    case (Some(a), Some(b), Some(c), Some(d)) =>
      if a < 16 && b < 16 && c < 16 && d < 16 then Some(a * 0x1000 + b * 0x100 + c * 0x10 + d) else None
    case _ => None
  }

  /** The character after "\u" and what follows it; a surrogate pair makes one character. */
  function ParseUnicode(s: string): (r: Option<(char, string)>)
    ensures r.Some? ==> |r.value.1| < |s|
  {
    match ParseHex4(s)
    case None => None
    case Some(n) =>
      if n < 0xD800 || n >= 0xE000 then Some((n as char, s[4..]))
      else if n < 0xDC00 && |s| >= 6 && s[4] == '\\' && s[5] == 'u' then
        match ParseHex4(s[6..])
        case Some(m) =>
          if 0xDC00 <= m < 0xE000
          then Some(((0x1_0000 + (n - 0xD800) * 0x400 + (m - 0xDC00)) as char, s[10..]))
          else None
        case None => None
      else None
  }

  /** One character of a string's text, and what follows it. */
  function ParseChar(s: string): (r: Option<(char, string)>)
    ensures r.Some? ==> |r.value.1| < |s|
  {
    if s == "" || s[0] == '"' || s[0] < ' ' then None
    else if s[0] != '\\' then Some((s[0], s[1..]))
    else if |s| < 2 then None
    else
      var rest := s[2..];
      match s[1]
      case '"' => Some(('"', rest))
      case '\\' => Some(('\\', rest))
      case '/' => Some(('/', rest))
      case 'n' => Some(('\n', rest))
      case 'r' => Some(('\r', rest))
      case 't' => Some(('\t', rest))
      case 'f' => Some((0x0C as char, rest))
      case 'b' => Some((0x08 as char, rest))
      case 'u' => ParseUnicode(rest)
      case _ => None
  }

  /** The text up to the closing quote, and what follows the quote. */
  function ParseText(s: string): (r: Option<(string, string)>)
    ensures r.Some? ==> |r.value.1| < |s|
    decreases |s|
  {
    if s != "" && s[0] == '"' then Some(("", s[1..]))
    else
      match ParseChar(s)
      case None => None
      case Some((c, rest)) =>
        match ParseText(rest)
        case None => None
        case Some((text, after)) => Some(([c] + text, after))
  }

  function SkipSpace(s: string): (r: string)
    ensures |r| <= |s|
    decreases |s|
  {
    if s != "" && s[0] in {' ', '\t', '\n', '\r'} then SkipSpace(s[1..]) else s
  }

  /** The rest of the text after the character, if the text begins with it. */
  function Expect(s: string, c: char): (r: Option<string>)
    ensures r.Some? ==> |r.value| < |s|
  {
    if s != "" && s[0] == c then Some(s[1..]) else None
  }

  /** A value at the start of the text, and what follows it. */
  function ParseValue(s: string): (r: Option<(Value, string)>)
    ensures r.Some? ==> |r.value.1| < |s|
    decreases |s|, 0
  {
    if s == "" then None
    else if s[0] == '"' then
      match ParseText(s[1..])
      case None => None
      case Some((text, rest)) => Some((Str(text), rest))
    else if s[0] == '{' then
      var t := SkipSpace(s[1..]);
      if t != "" && t[0] == '}' then Some((Obj(End), t[1..]))
      else
        match ParseMembers(t)
        case None => None
        case Some((ms, rest)) => Some((Obj(Dict(ms)), rest))
    else None
  }

  /** One or more members and the closing brace. */
  function ParseMembers(s: string): (r: Option<(Members, string)>)
    ensures r.Some? ==> |r.value.1| < |s|
    decreases |s|, 2
  {
    match ParseMember(s)
    case None => None
    case Some((name, value, t)) =>
      if t != "" && t[0] == '}' then Some((Member(name, value, End), t[1..]))
      else
        match Expect(t, ',')
        case None => None
        case Some(t) =>
          match ParseMembers(SkipSpace(t))
          case None => None
          case Some((ms, rest)) => Some((Member(name, value, ms), rest))
  }

  /** A name, a colon and a value. */
  function ParseMember(s: string): (r: Option<(string, Value, string)>)
    ensures r.Some? ==> |r.value.2| < |s|
    decreases |s|, 1
  {
    match Expect(s, '"')
    case None => None
    case Some(t) =>
      match ParseText(t)
      case None => None
      case Some((name, t)) =>
        match Expect(SkipSpace(t), ':')
        case None => None
        case Some(t) =>
          match ParseValue(SkipSpace(t))
          case None => None
          case Some((value, t)) => Some((name, value, SkipSpace(t)))
  }

  /** json.loads */
  function Loads(s: string): Option<Value> {
    match ParseValue(SkipSpace(s))
    case None => None
    case Some((v, rest)) => if SkipSpace(rest) == "" then Some(v) else None
  }

  // -------------------------------------------------------------------- dictionaries

  function Lookup(ms: Members, name: string): Option<Value> {
    match ms
    case End => None
    case Member(n, value, rest) => if n == name then Some(value) else Lookup(rest, name)
  }

  /** d[name] = value: in place if the name is there, else at the end. */
  function Put(ms: Members, name: string, value: Value): Members {
    match ms
    case End => Member(name, value, End)
    case Member(n, v, rest) => if n == name then Member(n, value, rest) else Member(n, v, Put(rest, name, value))
  }

  function PutAll(d: Members, ms: Members): Members
    decreases ms
  {
    match ms
    case End => d
    case Member(name, value, rest) => PutAll(Put(d, name, value), rest)
  }

  /** The dictionary a list of name/value pairs builds: a repeated name keeps its place and its last value. */
  function Dict(ms: Members): Members {
    PutAll(End, ms)
  }

  predicate Has(ms: Members, name: string) {
    Lookup(ms, name).Some?
  }

  /** No name occurs twice, at any depth. */
  predicate IsDict(v: Value) {
    v.Obj? ==> AreDistinct(v.members)
  }

  predicate AreDistinct(ms: Members) {
    match ms
    case End => true
    case Member(name, value, rest) => !Has(rest, name) && IsDict(value) && AreDistinct(rest)
  }

  function Append(ms: Members, more: Members): Members {
    match ms
    case End => more
    case Member(name, value, rest) => Member(name, value, Append(rest, more))
  }

  lemma {:induction false} PutNew(d: Members, name: string, value: Value)
    requires !Has(d, name)
    ensures Put(d, name, value) == Append(d, Member(name, value, End))
  {
    if d.Member? { PutNew(d.rest, name, value); }
  }

  lemma {:induction false} AppendAssoc(a: Members, b: Members, c: Members)
    ensures Append(Append(a, b), c) == Append(a, Append(b, c))
  {
    if a.Member? { AppendAssoc(a.rest, b, c); }
  }

  lemma {:induction false} LookupAppend(a: Members, b: Members, name: string)
    ensures Lookup(Append(a, b), name) == (if Has(a, name) then Lookup(a, name) else Lookup(b, name))
  {
    if a.Member? { LookupAppend(a.rest, b, name); }
  }

  lemma {:induction false} PutAllNew(d: Members, ms: Members)
    requires AreDistinct(ms) && forall name :: Has(ms, name) ==> !Has(d, name)
    ensures PutAll(d, ms) == Append(d, ms)
    decreases ms
  {
    match ms
    case End => AppendEnd(d);
    case Member(name, value, rest) =>
      assert Has(ms, name);
      PutNew(d, name, value);
      var d' := Append(d, Member(name, value, End));
      forall other | Has(rest, other) ensures !Has(d', other) {
        assert Has(ms, other);
        LookupAppend(d, Member(name, value, End), other);
      }
      PutAllNew(d', rest);
      AppendAssoc(d, Member(name, value, End), rest);
  }

  lemma {:induction false} AppendEnd(d: Members)
    ensures Append(d, End) == d
  {
    if d.Member? { AppendEnd(d.rest); }
  }

  lemma DistinctIsDict(ms: Members)
    requires AreDistinct(ms)
    ensures Dict(ms) == ms
  {
    PutAllNew(End, ms);
  }

  // ------------------------------------------------------------------ only ASCII, and how long

  predicate IsAscii(s: string) {
    forall c | c in s :: IsPrintable(c)
  }

  lemma EscapedIsAscii(c: char)
    ensures IsAscii(Escaped(c))
    ensures |Escaped(c)| == if ' ' <= c <= '~' && c != '"' && c != '\\' then 1
                            else if c in {'"', '\\', '\n', '\r', '\t'} || c as int in {8, 12} then 2
                            else if c as int < 0x1_0000 then 6 else 12
  {
    assert forall d: nat | d < 16 :: IsPrintable(HexDigit(d));
  }

  /** json.dumps escapes everything outside the printable ASCII range. */
  lemma {:induction false} TextIsAscii(s: string)
    ensures IsAscii(EscapedText(s))
  {
    if s != "" {
      EscapedIsAscii(s[0]);
      TextIsAscii(s[1..]);
    }
  }

  lemma {:induction false} MembersAreAscii(ms: Members)
    ensures IsAscii(DumpsMembers(ms))
    decreases ms, 1
  {
    match ms
    case End =>
    case Member(name, value, rest) =>
      TextIsAscii(name);
      DumpsIsAscii(value);
      MembersAreAscii(rest);
  }

  lemma {:induction false} DumpsIsAscii(v: Value)
    ensures IsAscii(Dumps(v))
    decreases v, 0
  {
    match v
    case Str(text) => TextIsAscii(text);
    case Obj(members) => MembersAreAscii(members);
  }

  /** Members are separated by a comma and a space, a name from its value by a colon and a space. */
  lemma DumpsSeparators(a: string, x: string, b: string, y: string)
    ensures Dumps(Obj(Member(a, Str(x), Member(b, Str(y), End))))
            == "{" + (Quoted(a) + ": " + Quoted(x) + (", " + (Quoted(b) + ": " + Quoted(y)))) + "}"
  {
    var second := Member(b, Str(y), End);
    var first := Member(a, Str(x), second);
    assert DumpsMembers(second) == Quoted(b) + ": " + Dumps(Str(y)) + "" == Quoted(b) + ": " + Quoted(y);
    assert DumpsMembers(first) == Quoted(a) + ": " + Dumps(Str(x)) + (", " + DumpsMembers(second));
    assert Dumps(Obj(first)) == "{" + DumpsMembers(first) + "}";
  }

  // ----------------------------------------------------------------------- round trip

  lemma HexDigits(n: nat)
    requires n < 0x1_0000
    ensures n / 0x1000 < 0x10
    ensures n == n / 0x1000 * 0x1000 + n / 0x100 % 0x10 * 0x100 + n / 0x10 % 0x10 * 0x10 + n % 0x10
  {
    var a, b := n / 0x10, n / 0x100;
    assert n == a * 0x10 + n % 0x10 && a == b * 0x10 + a % 0x10 && b == n / 0x1000 * 0x10 + b % 0x10;
  }

  lemma HexRoundTrip(n: nat, rest: string)
    requires n < 0x1_0000
    ensures ParseHex4(Hex4(n) + rest) == Some(n)
  {
    HexDigits(n);
    ParseDigits(n / 0x1000, n / 0x100 % 0x10, n / 0x10 % 0x10, n % 0x10, rest);
  }

  lemma ParseDigits(a: nat, b: nat, c: nat, d: nat, rest: string)
    requires a < 16 && b < 16 && c < 16 && d < 16
    ensures ParseHex4([HexDigit(a), HexDigit(b), HexDigit(c), HexDigit(d)] + rest)
            == Some(a * 0x1000 + b * 0x100 + c * 0x10 + d)
  {
    HexDigitRoundTrip(a);
    HexDigitRoundTrip(b);
    HexDigitRoundTrip(c);
    HexDigitRoundTrip(d);
  }

  lemma HexDigitRoundTrip(d: nat)
    requires d < 16
    ensures HexValue(HexDigit(d)) == Some(d)
  {
  }

  lemma CharRoundTrip(c: char, rest: string)
    ensures ParseChar(Escaped(c) + rest) == Some((c, rest))
    ensures Escaped(c)[0] != '"'
  {
    var s := Escaped(c) + rest;
    if IsPrintable(c) && c != '"' && c != '\\' {
      assert s[0] == c && s[1..] == rest;
    } else if |Escaped(c)| == 2 {
      assert s[0] == '\\' && s[2..] == rest;
    } else if c as int < 0x1_0000 {
      var h := Hex4(c as int);
      assert s[0] == '\\' && s[1] == 'u' && s[2..] == h + rest;
      HexRoundTrip(c as int, rest);
      assert (h + rest)[4..] == rest;
    } else {
      PairRoundTrip(c, rest);
    }
  }

  lemma PairRoundTrip(c: char, rest: string)
    requires c as int >= 0x1_0000
    ensures ParseChar(Escaped(c) + rest) == Some((c, rest))
  {
    var s, n := Escaped(c) + rest, c as int - 0x1_0000;
    var t := Hex4(0xD800 + n / 0x400) + ("\\u" + (Hex4(0xDC00 + n % 0x400) + rest));
    assert s == "\\u" + t;
    ParseEscape(t);
    SurrogatesRoundTrip(n, rest);
  }

  lemma ParseEscape(t: string)
    ensures ParseChar("\\u" + t) == ParseUnicode(t)
  {
    assert ("\\u" + t)[2..] == t;
  }

  lemma SurrogatesRoundTrip(n: nat, rest: string)
    requires n < 0x10_0000
    ensures ParseUnicode(Hex4(0xD800 + n / 0x400) + ("\\u" + (Hex4(0xDC00 + n % 0x400) + rest)))
            == Some(((0x1_0000 + n) as char, rest))
  {
    var low := Hex4(0xDC00 + n % 0x400) + rest;
    var t := Hex4(0xD800 + n / 0x400) + ("\\u" + low);
    HexRoundTrip(0xD800 + n / 0x400, "\\u" + low);
    HexRoundTrip(0xDC00 + n % 0x400, rest);
    PairText(Hex4(0xD800 + n / 0x400), Hex4(0xDC00 + n % 0x400), rest);
  }

  lemma PairText(high: string, low: string, rest: string)
    requires |high| == 4 && |low| == 4
    ensures var t := high + ("\\u" + (low + rest));
            |t| >= 6 && t[4] == '\\' && t[5] == 'u' && t[6..] == low + rest && t[10..] == rest
  {
  }

  lemma {:induction false} TextRoundTrip(text: string, rest: string)
    ensures ParseText(EscapedText(text) + "\"" + rest) == Some((text, rest))
  {
    var quote := "\"" + rest;
    Assoc(EscapedText(text), "\"", rest);
    if text == "" {
      assert EscapedText(text) + quote == quote && quote[1..] == rest;
    } else {
      var c, more := text[0], text[1..];
      TextRoundTrip(more, rest);
      Assoc(EscapedText(more), "\"", rest);
      Assoc(Escaped(c), EscapedText(more), quote);
      CharRoundTrip(c, EscapedText(more) + quote);
      assert [c] + more == text;
    }
  }

  lemma QuotedRoundTrip(text: string, rest: string)
    ensures (Quoted(text) + rest)[0] == '"'
    ensures ParseText((Quoted(text) + rest)[1..]) == Some((text, rest))
  {
    assert (Quoted(text) + rest)[1..] == EscapedText(text) + "\"" + rest;
    TextRoundTrip(text, rest);
  }

  /** Parsing what was printed gives back the value and leaves the rest. */
  lemma {:induction false} ValueRoundTrip(v: Value, rest: string)
    requires IsDict(v)
    ensures ParseValue(Dumps(v) + rest) == Some((v, rest))
    decreases v, 0
  {
    var s := Dumps(v) + rest;
    match v
    case Str(text) => QuotedRoundTrip(text, rest);
    case Obj(members) =>
      assert s[0] == '{';
      var t := s[1..];
      assert t == DumpsMembers(members) + "}" + rest;
      if members.End? {
        assert t[0] == '}' && t[1..] == rest;
      } else {
        MembersRoundTrip(members, rest);
        DistinctIsDict(members);
        ParseObjectIs(s, t, members, rest);
      }
  }

  lemma ParseObjectIs(s: string, t: string, ms: Members, rest: string)
    requires s != "" && s[0] == '{' && s[1..] == t && t != "" && t[0] == '"'
    requires ParseMembers(t) == Some((ms, rest)) && Dict(ms) == ms
    ensures ParseValue(s) == Some((Obj(ms), rest))
  {
    assert SkipSpace(t) == t;
  }

  lemma {:induction false} MembersRoundTrip(ms: Members, rest: string)
    requires ms.Member? && AreDistinct(ms)
    ensures var s := DumpsMembers(ms) + "}" + rest;
            s[0] == '"' && ParseMembers(s) == Some((ms, rest))
    decreases ms, 2
  {
    MembersText(ms, rest);
    MemberRoundTrip(ms.name, ms.value, AfterFirst(ms, rest));
    if ms.rest.End? {
      assert ("}" + rest)[1..] == rest;
    } else {
      MembersRoundTrip(ms.rest, rest);
      SeparatorRoundTrip(DumpsMembers(ms.rest) + "}" + rest);
    }
  }

  lemma SeparatorRoundTrip(more: string)
    requires more != "" && more[0] == '"'
    ensures (", " + more)[0] == ',' && SkipSpace((", " + more)[1..]) == more
  {
    SkipOneSpace(more);
    assert (", " + more)[1..] == " " + more;
  }

  ghost function AfterFirst(ms: Members, rest: string): string
    requires ms.Member?
  {
    if ms.rest.End? then "}" + rest else ", " + (DumpsMembers(ms.rest) + "}" + rest)
  }

  lemma MembersText(ms: Members, rest: string)
    requires ms.Member?
    ensures DumpsMembers(ms) + "}" + rest == Quoted(ms.name) + (": " + (Dumps(ms.value) + AfterFirst(ms, rest)))
  {
    var more := if ms.rest.End? then "" else ", " + DumpsMembers(ms.rest);
    Regroup(Quoted(ms.name), ": ", Dumps(ms.value), more, "}" + rest);
    assert DumpsMembers(ms) + "}" + rest == DumpsMembers(ms) + ("}" + rest);
    if ms.rest.Member? {
      Assoc(", ", DumpsMembers(ms.rest), "}" + rest);
      Assoc(DumpsMembers(ms.rest), "}", rest);
    }
  }

  lemma Assoc(a: string, b: string, c: string)
    ensures a + b + c == a + (b + c)
  {
  }

  lemma Regroup(a: string, b: string, c: string, d: string, e: string)
    ensures a + b + c + d + e == a + (b + (c + (d + e)))
  {
    Assoc(a + b + c, d, e);
    Assoc(a + b, c, d + e);
    Assoc(a, b, c + (d + e));
  }

  lemma SkipOneSpace(s: string)
    requires s == "" || s[0] !in {' ', '\t', '\n', '\r'}
    ensures SkipSpace(s) == s && SkipSpace(" " + s) == s
  {
    assert (" " + s)[1..] == s;
  }

  lemma {:induction false} MemberRoundTrip(name: string, value: Value, tail: string)
    requires IsDict(value)
    requires tail != "" && tail[0] in {'}', ','}
    ensures var s := Quoted(name) + (": " + (Dumps(value) + tail));
            s[0] == '"' && ParseMember(s) == Some((name, value, tail))
    decreases value, 1
  {
    var text := Dumps(value) + tail;
    QuotedRoundTrip(name, ": " + text);
    DumpsStarts(value, tail);
    SkipOneSpace(text);
    ValueRoundTrip(value, tail);
    assert (": " + text)[1..] == " " + text;
    ParseMemberIs(Quoted(name) + (": " + text), name, ": " + text, " " + text, value, tail);
  }

  lemma ParseMemberIs(s: string, name: string, afterName: string, afterColon: string, value: Value, tail: string)
    requires s != "" && s[0] == '"' && ParseText(s[1..]) == Some((name, afterName))
    requires afterName != "" && afterName[0] == ':' && afterName[1..] == afterColon
    requires ParseValue(SkipSpace(afterColon)) == Some((value, tail))
    requires tail != "" && tail[0] in {'}', ','}
    ensures ParseMember(s) == Some((name, value, tail))
  {
    assert SkipSpace(afterName) == afterName && SkipSpace(tail) == tail;
  }

  lemma DumpsStarts(v: Value, rest: string)
    ensures Dumps(v) != "" && (Dumps(v) + rest)[0] in {'"', '{'}
    ensures SkipSpace(Dumps(v) + rest) == Dumps(v) + rest
  {
  }

  /** json.loads(json.dumps(v)) == v for every dictionary of strings and dictionaries. */
  lemma RoundTrip(v: Value)
    requires IsDict(v)
    ensures Loads(Dumps(v)) == Some(v)
  {
    DumpsStarts(v, "");
    assert Dumps(v) + "" == Dumps(v);
    ValueRoundTrip(v, "");
  }
}
