/**
 The JSON printer of the log and telemetry (src/json.hpp), against a parser written from the
 grammar of RFC 8259. A Dafny character stands for one code unit of the std::string.
 */
module Json {

  /** Json::json_t without doubles. */
  datatype Json =
    | Null
    | Str(s: string)
    | Uint(n: nat)
    | Int(i: int)
    | Bool(b: bool)
    | Array(elems: seq<Json>)
    | Object(members: seq<(string, Json)>)

  // ---- Printed form ----

  const HEX: string := "0123456789abcdef"

  /** The switch of escape_string. */
  function EscapedChar(c: char): (e: string)
    ensures e != ""
  {
    if c == '\"' then ['\\', '\"']
    else if c == '\\' then ['\\', '\\']
    else if c as int == 0x08 then "\\b"
    else if c as int == 0x09 then "\\t"
    else if c as int == 0x0a then "\\n"
    else if c as int == 0x0c then "\\f"
    else if c as int == 0x0d then "\\r"
    else if c as int < 0x20 then "\\u00" + [HEX[c as int / 16], HEX[c as int % 16]]
    else [c]
  }

  function EscapedChars(s: string): string {
    if s == "" then "" else EscapedChar(s[0]) + EscapedChars(s[1..])
  }

  function Quoted(s: string): string {
    "\"" + EscapedChars(s) + "\""
  }

  function Digits(n: nat): (d: string)
    ensures d != ""
  {
    if n < 10 then [HEX[n]] else Digits(n / 10) + [HEX[n % 10]]
  }

  function Decimal(i: int): string {
    if i < 0 then "-" + Digits(-i) else Digits(i)
  }

  function Print(j: Json): string {
    match j
    case Null => "null"
    case Str(s) => Quoted(s)
    case Uint(n) => Digits(n)
    case Int(i) => Decimal(i)
    case Bool(b) => if b then "true" else "false"
    case Array(elems) => "[" + Elements(elems) + "]"
    case Object(members) => "{" + Members(members) + "}"
  }

  function Elements(es: seq<Json>): string {
    if es == [] then ""
    else if |es| == 1 then Print(es[0])
    else Print(es[0]) + ", " + Elements(es[1..])
  }

  function Member(m: (string, Json)): string {
    Quoted(m.0) + ": " + Print(m.1)
  }

  function Members(ms: seq<(string, Json)>): string {
    if ms == [] then ""
    else if |ms| == 1 then Member(ms[0])
    else Member(ms[0]) + ", " + Members(ms[1..])
  }

  // ---- RFC 8259 ----

  datatype Option<+T> = None | Some(value: T)

  datatype Value =
    | VNull
    | VStr(s: string)
    | VNum(i: int)
    | VBool(b: bool)
    | VArr(elems: seq<Value>)
    | VObj(members: seq<(string, Value)>)

  function SkipWs(t: string): (r: string)
    ensures |r| <= |t|
  {
    if t != "" && t[0] in " \t\n\r" then SkipWs(t[1..]) else t
  }

  function HexDigit(c: char): Option<nat> {
    if '0' <= c <= '9' then Some(c as nat - '0' as nat)
    else if 'a' <= c <= 'f' then Some(c as nat - 'a' as nat + 10)
    else if 'A' <= c <= 'F' then Some(c as nat - 'A' as nat + 10)
    else None
  }

  /** Four hexadecimal digits. */
  function Hex4(t: string): (r: Option<nat>)
    ensures r.Some? ==> |t| >= 4 && r.value < 0x10000
  {
    if |t| < 4 then None
    else
      var a, b, c, d := HexDigit(t[0]), HexDigit(t[1]), HexDigit(t[2]), HexDigit(t[3]);
      if a.Some? && b.Some? && c.Some? && d.Some? && a.value < 16 && b.value < 16 && c.value < 16 && d.value < 16
      then Some(((a.value * 16 + b.value) * 16 + c.value) * 16 + d.value)
      else None
  }

  /** One escape sequence behind its backslash (section 7): the character and what follows. */
  function Unescape(t: string): (r: Option<(char, string)>)
    ensures r.Some? ==> |r.value.1| < |t|
  {
    if t == "" then None
    else if t[0] in ['\"', '\\', '/'] then Some((t[0], t[1..]))
    else if t[0] == 'b' then Some((0x08 as char, t[1..]))
    else if t[0] == 'f' then Some((0x0c as char, t[1..]))
    else if t[0] == 'n' then Some((0x0a as char, t[1..]))
    else if t[0] == 'r' then Some((0x0d as char, t[1..]))
    else if t[0] == 't' then Some((0x09 as char, t[1..]))
    else if t[0] == 'u' && Hex4(t[1..]).Some? then
      var v := Hex4(t[1..]).value;
      if v < 0xD800 || 0xE000 <= v then Some((v as char, t[5..]))
      else if v < 0xDC00 && |t| > 7 && t[5] == '\\' && t[6] == 'u' && Hex4(t[7..]).Some? then
        // a surrogate pair
        var w := Hex4(t[7..]).value;
        if 0xDC00 <= w < 0xE000 then
          Some(((0x10000 + (v - 0xD800) * 0x400 + (w - 0xDC00)) as char, t[11..]))
        else None
      else None
    else None
  }

  /** The rest of a string behind its opening quote. */
  function ParseChars(t: string): (r: Option<(string, string)>)
    ensures r.Some? ==> |r.value.1| < |t|
  {
    if t == "" || t[0] as int < 0x20 then None
    else if t[0] == '\"' then Some(("", t[1..]))
    else if t[0] == '\\' then
      match Unescape(t[1..])
      case None => None
      case Some((c, rest)) =>
        (match ParseChars(rest)
         case None => None
         case Some((s, rest')) => Some(([c] + s, rest')))
    else
      match ParseChars(t[1..])
      case None => None
      case Some((s, rest)) => Some(([t[0]] + s, rest))
  }

  predicate IsDigit(c: char) {
    '0' <= c <= '9'
  }

  /** Digits read from the left onto acc. */
  function ReadDigits(t: string, acc: nat): (r: (nat, string))
    ensures |r.1| <= |t|
  {
    if t != "" && IsDigit(t[0]) then ReadDigits(t[1..], acc * 10 + (t[0] as nat - '0' as nat)) else (acc, t)
  }

  /** int of section 6: no superfluous leading zero. A fraction or exponent would make it no integer. */
  function ParseInt(t: string): (r: Option<(nat, string)>)
    ensures r.Some? ==> |r.value.1| < |t|
  {
    if t == "" || !IsDigit(t[0]) then None
    else
      var r := if t[0] == '0' then (0, t[1..]) else ReadDigits(t[1..], t[0] as nat - '0' as nat);
      if r.1 != "" && r.1[0] in ".eE" then None else Some(r)
  }

  function ParseValue(t: string): (r: Option<(Value, string)>)
    ensures r.Some? ==> |r.value.1| < |t|
    decreases |t|, 0
  {
    var t := SkipWs(t);
    if t == "" then None
    else if "null" <= t then Some((VNull, t[4..]))
    else if "true" <= t then Some((VBool(true), t[4..]))
    else if "false" <= t then Some((VBool(false), t[5..]))
    else if t[0] == '\"' then
      match ParseChars(t[1..])
      case None => None
      case Some((s, rest)) => Some((VStr(s), rest))
    else if t[0] == '-' then
      match ParseInt(t[1..])
      case None => None
      case Some((n, rest)) => Some((VNum(0 - n), rest))
    else if t[0] == '[' then
      var u := SkipWs(t[1..]);
      if u != "" && u[0] == ']' then Some((VArr([]), u[1..]))
      else
        match ParseElements(u)
        case None => None
        case Some((es, rest)) => Some((VArr(es), rest))
    else if t[0] == '{' then
      var u := SkipWs(t[1..]);
      if u != "" && u[0] == '}' then Some((VObj([]), u[1..]))
      else
        match ParseMembers(u)
        case None => None
        case Some((ms, rest)) => Some((VObj(ms), rest))
    else
      match ParseInt(t)
      case None => None
      case Some((n, rest)) => Some((VNum(n), rest))
  }

  /** One or more values, separated by commas, and the closing bracket. */
  function ParseElements(t: string): (r: Option<(seq<Value>, string)>)
    ensures r.Some? ==> |r.value.1| < |t|
    decreases |t|, 1
  {
    match ParseValue(t)
    case None => None
    case Some((v, rest)) =>
      var u := SkipWs(rest);
      if u != "" && u[0] == ']' then Some(([v], u[1..]))
      else if u != "" && u[0] == ',' then
        match ParseElements(u[1..])
        case None => None
        case Some((vs, rest')) => Some(([v] + vs, rest'))
      else None
  }

  /** A name, a colon and a value. */
  function ParseMember(t: string): (r: Option<((string, Value), string)>)
    ensures r.Some? ==> |r.value.1| < |t|
    decreases |t|, 1
  {
    var t := SkipWs(t);
    if t == "" || t[0] != '\"' then None
    else
      match ParseChars(t[1..])
      case None => None
      case Some((name, rest)) =>
        var u := SkipWs(rest);
        if u == "" || u[0] != ':' then None
        else
          match ParseValue(u[1..])
          case None => None
          case Some((v, rest')) => Some(((name, v), rest'))
  }

  function ParseMembers(t: string): (r: Option<(seq<(string, Value)>, string)>)
    ensures r.Some? ==> |r.value.1| < |t|
    decreases |t|, 2
  {
    match ParseMember(t)
    case None => None
    case Some((m, rest)) =>
      var u := SkipWs(rest);
      if u != "" && u[0] == '}' then Some(([m], u[1..]))
      else if u != "" && u[0] == ',' then
        match ParseMembers(u[1..])
        case None => None
        case Some((ms, rest')) => Some(([m] + ms, rest'))
      else None
  }

  /** A JSON text: one value with white space around it. */
  function ParseText(t: string): Option<Value> {
    match ParseValue(t)
    case None => None
    case Some((v, rest)) => if SkipWs(rest) == "" then Some(v) else None
  }

  /** What a printed value means: integers by value, whatever their type. */
  function Meaning(j: Json): Value {
    match j
    case Null => VNull
    case Str(s) => VStr(s)
    case Uint(n) => VNum(n)
    case Int(i) => VNum(i)
    case Bool(b) => VBool(b)
    case Array(elems) => VArr(Meanings(elems))
    case Object(members) => VObj(MemberMeanings(members))
  }

  function Meanings(es: seq<Json>): seq<Value> {
    if es == [] then [] else [Meaning(es[0])] + Meanings(es[1..])
  }

  function MemberMeanings(ms: seq<(string, Json)>): seq<(string, Value)> {
    if ms == [] then [] else [MemberMeaning(ms[0])] + MemberMeanings(ms[1..])
  }

  function MemberMeaning(m: (string, Json)): (string, Value) {
    (m.0, Meaning(m.1))
  }

  // ---- Round trip ----

  lemma {:induction false} UnescapeEscaped(c: char, rest: string)
    requires EscapedChar(c) != [c]
    ensures EscapedChar(c)[0] == '\\' && Unescape(EscapedChar(c)[1..] + rest) == Some((c, rest))
  {
    var e := EscapedChar(c)[1..];
    var t := e + rest;
    if |e| == 1 {
      assert t[1..] == rest;
    } else {
      var hi, lo := c as int / 16, c as int % 16;
      assert EscapedChar(c) == ['\\', 'u', '0', '0', HEX[hi], HEX[lo]];
      assert e == ['u', '0', '0', HEX[hi], HEX[lo]];
      assert t[0] == 'u' && t[1] == '0' && t[2] == '0' && t[3] == HEX[hi] && t[4] == HEX[lo];
      assert t[1..][0] == t[1] && t[1..][1] == t[2] && t[1..][2] == t[3] && t[1..][3] == t[4];
      HexChar(hi);
      HexChar(lo);
      assert t[5..] == rest;
    }
  }

  /** Quotes, backslashes and control characters are escaped, shortly where there is a short form; no other. */
  lemma {:induction false} EscapesWhatItMust(c: char)
    ensures EscapedChar(c) == [c] <==> c as int >= 0x20 && c != '\"' && c != '\\'
    ensures EscapedChar(c) != [c] ==>
              |EscapedChar(c)| == if c in "\"\\\t\n\r" || c as int in [0x08, 0x0c] then 2 else 6
  {
  }

  lemma {:induction false} KnownElements()
    ensures Elements([Uint(1), Bool(true), Null]) == "1, true, null"
  {
    var es := [Uint(1), Bool(true), Null];
    assert es[1..] == [Bool(true), Null];
    KnownTail();
    HexChar(1);
    assert Print(es[0]) == "1";
  }

  lemma {:induction false} KnownTail()
    ensures Elements([Bool(true), Null]) == "true, null"
  {
    var es := [Bool(true), Null];
    assert es[1..] == [Null];
    assert Print(es[0]) == "true" && Elements([Null]) == "null";
  }

  /** A text as it appears in the log. */
  lemma {:induction false} KnownText()
    ensures Print(Object([("a", Array([Uint(1), Bool(true), Null]))])) == "{\"a\": [1, true, null]}"
  {
    var es := [Uint(1), Bool(true), Null];
    KnownElements();
    assert Print(Array(es)) == "[" + Elements(es) + "]" == "[1, true, null]";
    KnownMember(Array(es), "[1, true, null]");
  }

  lemma {:induction false} KnownMember(j: Json, text: string)
    requires Print(j) == text
    ensures Print(Object([("a", j)])) == "{\"a\": " + text + "}"
  {
    assert "a"[1..] == "";
    assert Quoted("a") == "\"a\"";
    KnownPair(text);
    assert Members([("a", j)]) == Member(("a", j));
  }

  lemma {:induction false} KnownPair(text: string)
    ensures "{" + ("\"a\"" + ": " + text) + "}" == "{\"a\": " + text + "}"
  {
  }

  lemma {:induction false} HexChar(d: nat)
    requires d < 16
    ensures HexDigit(HEX[d]) == Some(d)
    ensures d < 10 ==> IsDigit(HEX[d]) && HEX[d] as nat - '0' as nat == d
    ensures d > 0 ==> HEX[d] != '0'
  {
    assert HEX[0] == '0' && HEX[1] == '1' && HEX[2] == '2' && HEX[3] == '3' && HEX[4] == '4' && HEX[5] == '5';
    assert HEX[6] == '6' && HEX[7] == '7' && HEX[8] == '8' && HEX[9] == '9' && HEX[10] == 'a' && HEX[11] == 'b';
    assert HEX[12] == 'c' && HEX[13] == 'd' && HEX[14] == 'e' && HEX[15] == 'f';
  }

  lemma {:induction false} ReadPlain(c: char, tail: string, s: string, rest: string)
    requires ParseChars(tail) == Some((s, rest)) && EscapedChar(c) == [c]
    ensures ParseChars([c] + tail) == Some(([c] + s, rest))
  {
    assert ([c] + tail)[1..] == tail;
  }

  lemma {:induction false} ReadEscape(escape: string, c: char, tail: string, s: string, rest: string)
    requires ParseChars(tail) == Some((s, rest)) && Unescape(escape + tail) == Some((c, tail))
    ensures ParseChars("\\" + (escape + tail)) == Some(([c] + s, rest))
  {
    assert ("\\" + (escape + tail))[1..] == escape + tail;
  }

  lemma {:induction false} ReadQuote(rest: string)
    ensures ParseChars("\"" + rest) == Some(("", rest))
  {
    assert ("\"" + rest)[1..] == rest;
  }

  lemma {:induction false} EscapeApart(e: string, tail: string)
    requires e != "" && e[0] == '\\'
    ensures e + tail == "\\" + (e[1..] + tail)
  {
  }

  lemma {:induction false} ReadChar(c: char, tail: string, s: string, rest: string)
    requires ParseChars(tail) == Some((s, rest))
    ensures ParseChars(EscapedChar(c) + tail) == Some(([c] + s, rest))
  {
    var e := EscapedChar(c);
    if e == [c] {
      ReadPlain(c, tail, s, rest);
    } else {
      UnescapeEscaped(c, tail);
      ReadEscape(e[1..], c, tail, s, rest);
      EscapeApart(e, tail);
    }
  }

  lemma {:induction false} EscapedFront(s: string, rest: string)
    requires s != ""
    ensures EscapedChars(s) + "\"" + rest == EscapedChar(s[0]) + (EscapedChars(s[1..]) + "\"" + rest)
  {
  }

  /** Section 7 inverts the escaping; the string ends at the printer's closing quote and nowhere before. */
  lemma {:induction false} StringRoundTrip(s: string, rest: string)
    ensures ParseChars(EscapedChars(s) + "\"" + rest) == Some((s, rest))
  {
    if s == "" {
      ReadQuote(rest);
      assert EscapedChars(s) + "\"" + rest == "\"" + rest;
    } else {
      StringRoundTrip(s[1..], rest);
      ReadChar(s[0], EscapedChars(s[1..]) + "\"" + rest, s[1..], rest);
      EscapedFront(s, rest);
      assert [s[0]] + s[1..] == s;
    }
  }

  predicate NoDigitNext(rest: string) {
    rest == "" || !(IsDigit(rest[0]) || rest[0] in ".eE")
  }

  /** Digits put before a text are read before it. */
  lemma {:induction false} DigitsRead(n: nat, rest: string)
    requires n > 0
    ensures IsDigit(Digits(n)[0]) && Digits(n)[0] != '0'
    ensures ReadDigits((Digits(n) + rest)[1..], Digits(n)[0] as nat - '0' as nat) == ReadDigits(rest, n)
  {
    if n < 10 {
      HexChar(n);
      assert (Digits(n) + rest)[1..] == rest;
    } else {
      var d := HEX[n % 10];
      HexChar(n % 10);
      DigitsRead(n / 10, [d] + rest);
      LastDigit(n, rest);
      ReadOne(d, rest, n / 10);
    }
  }

  lemma {:induction false} LastDigit(n: nat, rest: string)
    requires n >= 10
    ensures Digits(n) + rest == Digits(n / 10) + ([HEX[n % 10]] + rest)
    ensures Digits(n)[0] == Digits(n / 10)[0]
  {
  }

  lemma {:induction false} ReadOne(d: char, rest: string, acc: nat)
    requires IsDigit(d)
    ensures ReadDigits([d] + rest, acc) == ReadDigits(rest, acc * 10 + (d as nat - '0' as nat))
  {
    assert ([d] + rest)[1..] == rest;
  }

  lemma {:induction false} IntRoundTrip(n: nat, rest: string)
    requires NoDigitNext(rest)
    ensures ParseInt(Digits(n) + rest) == Some((n, rest))
    ensures IsDigit(Digits(n)[0])
  {
    if n == 0 {
      HexChar(0);
      assert (Digits(n) + rest)[1..] == rest;
    } else {
      DigitsRead(n, rest);
    }
  }

  /** First characters a printed value can have; white space and closing brackets are not among them. */
  predicate Opens(c: char) {
    c in "ntf\"-[{" || IsDigit(c)
  }

  lemma {:induction false} PrintOpens(j: Json)
    ensures Print(j) != "" && Opens(Print(j)[0])
  {
    match j
    case Uint(n) => IntRoundTrip(n, "");
    case Int(i) => IntRoundTrip(if i < 0 then -i else i, "");
    case _ =>
  }

  // ---- The parser, one rule at a time ----

  lemma {:induction false} ReadQuoted(t: string, s: string, rest: string)
    requires ParseChars(t) == Some((s, rest))
    ensures ParseValue("\"" + t) == Some((VStr(s), rest))
  {
    var u := "\"" + t;
    assert u[1..] == t && SkipWs(u) == u;
  }

  lemma {:induction false} ReadNatural(t: string, n: nat, rest: string)
    requires ParseInt(t) == Some((n, rest))
    ensures ParseValue(t) == Some((VNum(n), rest))
  {
    assert IsDigit(t[0]) && SkipWs(t) == t;
  }

  lemma {:induction false} ReadNegative(t: string, n: nat, rest: string)
    requires ParseInt(t) == Some((n, rest))
    ensures ParseValue("-" + t) == Some((VNum(0 - n), rest))
  {
    var u := "-" + t;
    assert u[1..] == t && SkipWs(u) == u;
  }

  lemma {:induction false} ReadNull(rest: string)
    ensures ParseValue("null" + rest) == Some((VNull, rest))
  {
    var u := "null" + rest;
    assert u[4..] == rest && SkipWs(u) == u && "null" <= u;
  }

  lemma {:induction false} ReadTrue(rest: string)
    ensures ParseValue("true" + rest) == Some((VBool(true), rest))
  {
    var u := "true" + rest;
    assert u[0] == 't' && u[4..] == rest && SkipWs(u) == u && "true" <= u;
  }

  lemma {:induction false} ReadFalse(rest: string)
    ensures ParseValue("false" + rest) == Some((VBool(false), rest))
  {
    var u := "false" + rest;
    assert u[0] == 'f' && u[5..] == rest && SkipWs(u) == u && "false" <= u;
  }

  lemma {:induction false} ReadArray(t: string, es: seq<Value>, rest: string)
    requires t != "" && Opens(t[0]) && ParseElements(t) == Some((es, rest))
    ensures ParseValue("[" + t) == Some((VArr(es), rest))
  {
    var u := "[" + t;
    assert u[0] == '[' && u[1..] == t && SkipWs(u) == u && SkipWs(t) == t;
  }

  lemma {:induction false} ReadEmpty(rest: string)
    ensures ParseValue("[]" + rest) == Some((VArr([]), rest))
    ensures ParseValue("{}" + rest) == Some((VObj([]), rest))
  {
    var u, w := "[]" + rest, "{}" + rest;
    assert u[0] == '[' && u[1..] == "]" + rest && u[1..][1..] == rest && SkipWs(u) == u;
    assert w[0] == '{' && w[1..] == "}" + rest && w[1..][1..] == rest && SkipWs(w) == w;
  }

  lemma {:induction false} ReadObject(t: string, ms: seq<(string, Value)>, rest: string)
    requires t != "" && t[0] == '\"' && ParseMembers(t) == Some((ms, rest))
    ensures ParseValue("{" + t) == Some((VObj(ms), rest))
  {
    var u := "{" + t;
    assert u[0] == '{' && u[1..] == t && SkipWs(u) == u && SkipWs(t) == t;
  }

  lemma {:induction false} LastElement(t: string, v: Value, rest: string)
    requires ParseValue(t) == Some((v, "]" + rest))
    ensures ParseElements(t) == Some(([v], rest))
  {
    var u := "]" + rest;
    assert SkipWs(u) == u && u[1..] == rest;
  }

  lemma {:induction false} Comma(tail: string)
    ensures SkipWs(", " + tail) == ", " + tail && (", " + tail)[0] == ',' && (", " + tail)[1..] == " " + tail
  {
  }

  lemma {:induction false} NextElement(t: string, v: Value, tail: string, vs: seq<Value>, rest: string)
    requires ParseValue(t) == Some((v, ", " + tail)) && ParseElements(tail) == Some((vs, rest))
    ensures ParseElements(t) == Some(([v] + vs, rest))
  {
    Comma(tail);
    SpaceBeforeElements(tail);
  }

  lemma {:induction false} ReadMember(t: string, name: string, value: string, v: Value, rest: string)
    requires ParseChars(t) == Some((name, ": " + value)) && ParseValue(value) == Some((v, rest))
    ensures ParseMember("\"" + t) == Some(((name, v), rest))
  {
    var u, w := "\"" + t, ": " + value;
    assert u[0] == '\"' && u[1..] == t && SkipWs(u) == u;
    assert SkipWs(w) == w && w[1..] == " " + value;
    SpaceBeforeValue(value);
  }

  lemma {:induction false} LastMember(t: string, m: (string, Value), rest: string)
    requires ParseMember(t) == Some((m, "}" + rest))
    ensures ParseMembers(t) == Some(([m], rest))
  {
    var u := "}" + rest;
    assert SkipWs(u) == u && u[1..] == rest;
  }

  lemma {:induction false} NextMember(
      t: string, m: (string, Value), tail: string, ms: seq<(string, Value)>, rest: string)
    requires ParseMember(t) == Some((m, ", " + tail)) && ParseMembers(tail) == Some((ms, rest))
    ensures ParseMembers(t) == Some(([m] + ms, rest))
  {
    Comma(tail);
    SpaceBeforeMembers(tail);
  }

  lemma {:induction false} SkipSpace(t: string)
    ensures SkipWs(" " + t) == SkipWs(t)
  {
    assert (" " + t)[1..] == t;
  }

  /** The space the printer puts behind a separator is skipped. */
  lemma {:induction false} SpaceBeforeValue(t: string)
    ensures ParseValue(" " + t) == ParseValue(t)
  {
    SkipSpace(t);
  }

  lemma {:induction false} SpaceBeforeElements(t: string)
    ensures ParseElements(" " + t) == ParseElements(t)
  {
    SpaceBeforeValue(t);
  }

  lemma {:induction false} SpaceBeforeMembers(t: string)
    ensures ParseMembers(" " + t) == ParseMembers(t)
  {
    SkipSpace(t);
    assert ParseMember(" " + t) == ParseMember(t);
  }

  // ---- Printed texts, taken apart ----

  lemma {:induction false} Frame(open: string, body: string, close: string, rest: string)
    ensures open + body + close + rest == open + (body + close + rest)
  {
  }

  lemma {:induction false} Separated(first: string, others: string, close: string, rest: string)
    ensures first + ", " + others + close + rest == first + (", " + (others + close + rest))
  {
  }

  lemma {:induction false} MemberText(name: string, value: string, rest: string)
    ensures "\"" + name + "\"" + ": " + value + rest == "\"" + (name + "\"" + (": " + (value + rest)))
  {
  }

  lemma {:induction false} SingleMeaning(es: seq<Json>)
    requires |es| == 1
    ensures Meanings(es) == [Meaning(es[0])]
  {
    assert es[1..] == [];
  }

  lemma {:induction false} SingleMemberMeaning(ms: seq<(string, Json)>)
    requires |ms| == 1
    ensures MemberMeanings(ms) == [MemberMeaning(ms[0])]
  {
    assert ms[1..] == [];
  }

  // ---- Round trip of values ----

  lemma {:induction false} StrRoundTrip(s: string, rest: string)
    ensures ParseValue(Quoted(s) + rest) == Some((VStr(s), rest))
  {
    var t := EscapedChars(s) + "\"" + rest;
    StringRoundTrip(s, rest);
    ReadQuoted(t, s, rest);
    Frame("\"", EscapedChars(s), "\"", rest);
  }

  lemma {:induction false} NumberRoundTrip(i: int, rest: string)
    requires NoDigitNext(rest)
    ensures ParseValue(Decimal(i) + rest) == Some((VNum(i), rest))
  {
    if i < 0 {
      IntRoundTrip(-i, rest);
      ReadNegative(Digits(-i) + rest, -i, rest);
      Assoc("-", Digits(-i), rest);
    } else {
      IntRoundTrip(i, rest);
      ReadNatural(Digits(i) + rest, i, rest);
    }
  }

  /**
     The log is machine-readable: an RFC 8259 parser reads back what was printed, up to any depth
     of nesting, whatever follows short of a character that would continue a number.
   */
  lemma {:induction false} ValueRoundTrip(j: Json, rest: string)
    requires NoDigitNext(rest)
    ensures ParseValue(Print(j) + rest) == Some((Meaning(j), rest))
    decreases j, 1
  {
    match j
    case Null => ReadNull(rest);
    case Bool(b) =>
      if b {
        ReadTrue(rest);
      } else {
        ReadFalse(rest);
      }
    case Str(s) => StrRoundTrip(s, rest);
    case Uint(n) => NumberRoundTrip(n, rest);
    case Int(i) => NumberRoundTrip(i, rest);
    case Array(elems) => ArrayRoundTrip(elems, rest);
    case Object(members) => ObjectRoundTrip(members, rest);
  }

  lemma {:induction false} ArrayRoundTrip(es: seq<Json>, rest: string)
    ensures ParseValue("[" + Elements(es) + "]" + rest) == Some((VArr(Meanings(es)), rest))
    decreases es, 3
  {
    if es == [] {
      ReadEmpty(rest);
    } else {
      ElementsRoundTrip(es, rest);
      PrintOpens(es[0]);
      ReadArray(Elements(es) + "]" + rest, Meanings(es), rest);
      Frame("[", Elements(es), "]", rest);
    }
  }

  lemma {:induction false} ElementsRoundTrip(es: seq<Json>, rest: string)
    requires es != []
    ensures ParseElements(Elements(es) + "]" + rest) == Some((Meanings(es), rest))
    decreases es, 2
  {
    var p := Print(es[0]);
    if |es| == 1 {
      ValueRoundTrip(es[0], "]" + rest);
      LastElement(p + ("]" + rest), Meaning(es[0]), rest);
      assert p + "]" + rest == p + ("]" + rest);
      SingleMeaning(es);
    } else {
      var tail := Elements(es[1..]) + "]" + rest;
      ValueRoundTrip(es[0], ", " + tail);
      ElementsRoundTrip(es[1..], rest);
      NextElement(p + (", " + tail), Meaning(es[0]), tail, Meanings(es[1..]), rest);
      Separated(p, Elements(es[1..]), "]", rest);
    }
  }

  lemma {:induction false} ObjectRoundTrip(ms: seq<(string, Json)>, rest: string)
    ensures ParseValue("{" + Members(ms) + "}" + rest) == Some((VObj(MemberMeanings(ms)), rest))
    decreases ms, 3
  {
    if ms == [] {
      ReadEmpty(rest);
    } else {
      MembersRoundTrip(ms, rest);
      ReadObject(Members(ms) + "}" + rest, MemberMeanings(ms), rest);
      Frame("{", Members(ms), "}", rest);
    }
  }

  lemma {:induction false} MemberRoundTrip(m: (string, Json), rest: string)
    requires NoDigitNext(rest)
    ensures ParseMember(Member(m) + rest) == Some((MemberMeaning(m), rest))
    decreases m, 2
  {
    var value := Print(m.1) + rest;
    var t := EscapedChars(m.0) + "\"" + (": " + value);
    StringRoundTrip(m.0, ": " + value);
    ValueRoundTrip(m.1, rest);
    ReadMember(t, m.0, value, Meaning(m.1), rest);
    MemberText(EscapedChars(m.0), Print(m.1), rest);
  }

  lemma {:induction false} MembersRoundTrip(ms: seq<(string, Json)>, rest: string)
    requires ms != []
    ensures ParseMembers(Members(ms) + "}" + rest) == Some((MemberMeanings(ms), rest))
    decreases ms, 2
  {
    var p := Member(ms[0]);
    if |ms| == 1 {
      MemberRoundTrip(ms[0], "}" + rest);
      LastMember(p + ("}" + rest), MemberMeaning(ms[0]), rest);
      assert p + "}" + rest == p + ("}" + rest);
      SingleMemberMeaning(ms);
    } else {
      var tail := Members(ms[1..]) + "}" + rest;
      MemberRoundTrip(ms[0], ", " + tail);
      MembersRoundTrip(ms[1..], rest);
      NextMember(p + (", " + tail), MemberMeaning(ms[0]), tail, MemberMeanings(ms[1..]), rest);
      Separated(p, Members(ms[1..]), "}", rest);
    }
  }

  /** dumps() of any value without doubles is a JSON text that means that value. */
  lemma {:induction false} TextRoundTrip(j: Json)
    ensures ParseText(Print(j)) == Some(Meaning(j))
  {
    ValueRoundTrip(j, "");
    assert Print(j) + "" == Print(j);
  }

  /** The printed value is the whole text: with anything but white space behind it, it is none. */
  lemma {:induction false} NothingTrails(j: Json, t: string)
    requires NoDigitNext(t)
    ensures ParseText(Print(j) + t) == if SkipWs(t) == "" then Some(Meaning(j)) else None
  {
    ValueRoundTrip(j, t);
  }

  // ---- No raw control characters ----

  predicate Plain(t: string) {
    forall k :: 0 <= k < |t| ==> t[k] as int >= 0x20
  }

  lemma {:induction false} EscapedPlain(s: string)
    ensures Plain(EscapedChars(s))
  {
    if s != "" {
      EscapedPlain(s[1..]);
      if EscapedChar(s[0]) != [s[0]] {
        UnescapeEscaped(s[0], "");
      }
      assert Plain(EscapedChar(s[0])) by {
        HexPlain(s[0] as int / 16 % 16);
        HexPlain(s[0] as int % 16);
      }
    }
  }

  lemma {:induction false} HexPlain(d: nat)
    requires d < 16
    ensures HEX[d] as int >= 0x20
  {
    HexChar(d);
  }

  lemma {:induction false} DigitsPlain(n: nat)
    ensures Plain(Digits(n))
  {
    HexPlain(n % 10);
    if n >= 10 {
      DigitsPlain(n / 10);
    }
  }

  lemma {:induction false} DecimalPlain(i: int)
    ensures Plain(Decimal(i))
  {
    var n: nat := if i < 0 then -i else i;
    DigitsPlain(n);
    PlainJoin("-", Digits(n));
  }

  lemma {:induction false} PlainJoin(a: string, b: string)
    requires Plain(a) && Plain(b)
    ensures Plain(a + b)
  {
    assert forall k :: 0 <= k < |a + b| ==> (a + b)[k] == if k < |a| then a[k] else b[k - |a|];
  }

  lemma {:induction false} PlainFrame(open: char, body: string, close: char)
    requires Plain(body) && open as int >= 0x20 && close as int >= 0x20
    ensures Plain([open] + body + [close])
  {
    PlainJoin([open], body);
    PlainJoin([open] + body, [close]);
  }

  /** Whatever is printed stays on one line and holds no raw control character. */
  lemma {:induction false} PrintPlain(j: Json)
    ensures Plain(Print(j))
    decreases j, 1
  {
    match j
    case Null =>
    case Bool(b) =>
    case Str(s) =>
      EscapedPlain(s);
      PlainFrame('\"', EscapedChars(s), '\"');
    case Uint(n) => DigitsPlain(n);
    case Int(i) => DecimalPlain(i);
    case Array(elems) =>
      ElementsPlain(elems);
      PlainFrame('[', Elements(elems), ']');
    case Object(members) =>
      MembersPlain(members);
      PlainFrame('{', Members(members), '}');
  }

  lemma {:induction false} ElementsPlain(es: seq<Json>)
    ensures Plain(Elements(es))
    decreases es, 2
  {
    if es != [] {
      PrintPlain(es[0]);
      ElementsPlain(es[1..]);
      PlainJoin(Print(es[0]), ", ");
      PlainJoin(Print(es[0]) + ", ", Elements(es[1..]));
    }
  }

  lemma {:induction false} MemberPlain(m: (string, Json))
    ensures Plain(Member(m))
    decreases m, 2
  {
    EscapedPlain(m.0);
    PlainFrame('\"', EscapedChars(m.0), '\"');
    PrintPlain(m.1);
    PlainJoin(Quoted(m.0), ": ");
    PlainJoin(Quoted(m.0) + ": ", Print(m.1));
  }

  lemma {:induction false} MembersPlain(ms: seq<(string, Json)>)
    ensures Plain(Members(ms))
    decreases ms, 2
  {
    if ms != [] {
      MemberPlain(ms[0]);
      MembersPlain(ms[1..]);
      PlainJoin(Member(ms[0]), ", ");
      PlainJoin(Member(ms[0]) + ", ", Members(ms[1..]));
    }
  }

  // ---- The printer ----

  /** What an array loop still has to write once its first element is out. */
  function MoreElements(es: seq<Json>): string {
    if es == [] then "" else ", " + Elements(es)
  }

  function MoreMembers(ms: seq<(string, Json)>): string {
    if ms == [] then "" else ", " + Members(ms)
  }

  lemma {:induction false} ElementsLeft(es: seq<Json>, i: nat)
    requires i < |es|
    ensures Elements(es[i..]) == Print(es[i]) + MoreElements(es[i + 1..])
  {
    assert es[i..][1..] == es[i + 1..];
  }

  lemma {:induction false} MembersLeft(ms: seq<(string, Json)>, i: nat)
    requires i < |ms|
    ensures Members(ms[i..]) == Member(ms[i]) + MoreMembers(ms[i + 1..])
  {
    assert ms[i..][1..] == ms[i + 1..];
  }

  lemma {:induction false} EscapedLeft(s: string, i: nat)
    requires i < |s|
    ensures EscapedChars(s[i..]) == EscapedChar(s[i]) + EscapedChars(s[i + 1..])
  {
    assert s[i..][1..] == s[i + 1..];
  }

  lemma {:induction false} Assoc(a: string, b: string, c: string)
    ensures a + b + c == a + (b + c)
  {
  }

  lemma {:induction false} OneMore(text: string, item: string, more: string)
    ensures text + ", " + item + more == text + (", " + (item + more))
  {
  }

  class OStream {
    var text: string

    constructor ()
      ensures text == ""
    {
      text := "";
    }

    method Write(t: string)
      modifies this
      ensures text == old(text) + t
    {
      text := text + t;
    }
  }

  class Visitor {
    const stream: OStream

    constructor (stream: OStream)
      ensures this.stream == stream
    {
      this.stream := stream;
    }

    method EscapeString(s: string)
      modifies stream
      ensures stream.text == old(stream.text) + Quoted(s)
    {
      stream.Write("\"");
      ghost var was := stream.text;
      EscapeChars(s);
      stream.Write("\"");
      Assoc(old(stream.text), "\"", EscapedChars(s));
      Assoc(old(stream.text), "\"" + EscapedChars(s), "\"");
    }

    /** The loop of escape_string. */
    method EscapeChars(s: string)
      modifies stream
      ensures stream.text == old(stream.text) + EscapedChars(s)
    {
      assert s[0..] == s;
      for i := 0 to |s|
        invariant stream.text + EscapedChars(s[i..]) == old(stream.text) + EscapedChars(s)
      {
        EscapedLeft(s, i);
        Assoc(stream.text, EscapedChar(s[i]), EscapedChars(s[i + 1..]));
        stream.Write(EscapedChar(s[i]));
      }
    }

    /** std::visit: one overload for each alternative. */
    method Visit(j: Json)
      modifies stream
      ensures stream.text == old(stream.text) + Print(j)
      decreases j, 1
    {
      match j
      case Null => stream.Write("null");
      case Str(s) => EscapeString(s);
      case Uint(n) => stream.Write(Digits(n));
      case Int(i) => stream.Write(Decimal(i));
      case Bool(b) => stream.Write(if b then "true" else "false");
      case Array(elems) =>
        stream.Write("[");
        VisitElements(elems);
        stream.Write("]");
        Assoc(old(stream.text), "[", Elements(elems));
        Assoc(old(stream.text), "[" + Elements(elems), "]");
      case Object(members) =>
        stream.Write("{");
        VisitMembers(members);
        stream.Write("}");
        Assoc(old(stream.text), "{", Members(members));
        Assoc(old(stream.text), "{" + Members(members), "}");
    }

    /** What the overload for Array writes between its brackets. */
    method VisitElements(es: seq<Json>)
      modifies stream
      ensures stream.text == old(stream.text) + Elements(es)
      decreases es, 0
    {
      var i := 0;
      if i < |es| {
        Visit(es[i]);
        i := 1;
        ElementsLeft(es, 0);
        assert es[0..] == es;
        Assoc(old(stream.text), Print(es[0]), MoreElements(es[1..]));
      }
      while i < |es|
        invariant i <= |es|
        invariant stream.text + MoreElements(es[i..]) == old(stream.text) + Elements(es)
      {
        ElementsLeft(es, i);
        OneMore(stream.text, Print(es[i]), MoreElements(es[i + 1..]));
        stream.Write(", ");
        Visit(es[i]);
        i := i + 1;
      }
    }

    method VisitMembers(ms: seq<(string, Json)>)
      modifies stream
      ensures stream.text == old(stream.text) + Members(ms)
      decreases ms, 0
    {
      var i := 0;
      if i < |ms| {
        VisitMember(ms[i]);
        i := 1;
        MembersLeft(ms, 0);
        assert ms[0..] == ms;
        Assoc(old(stream.text), Member(ms[0]), MoreMembers(ms[1..]));
      }
      while i < |ms|
        invariant i <= |ms|
        invariant stream.text + MoreMembers(ms[i..]) == old(stream.text) + Members(ms)
      {
        MembersLeft(ms, i);
        OneMore(stream.text, Member(ms[i]), MoreMembers(ms[i + 1..]));
        stream.Write(", ");
        VisitMember(ms[i]);
        i := i + 1;
      }
    }

    method VisitMember(m: (string, Json))
      modifies stream
      ensures stream.text == old(stream.text) + Member(m)
      decreases m, 2
    {
      EscapeString(m.0);
      stream.Write(": ");
      Visit(m.1);
      Assoc(old(stream.text), Quoted(m.0), ": ");
      Assoc(old(stream.text), Quoted(m.0) + ": ", Print(m.1));
    }
  }

  /** Json::dumps: what it returns is a JSON text that means the value. */
  method Dumps(j: Json) returns (s: string)
    ensures s == Print(j)
    ensures ParseText(s) == Some(Meaning(j))
    ensures Plain(s)
  {
    var stream := new OStream();
    var visitor := new Visitor(stream);
    visitor.Visit(j);
    s := stream.text;
    TextRoundTrip(j);
    PrintPlain(j);
  }
}
