/**
 * `JSON.stringify` on a translation record, and a reader for the one line it
 * produces. Strings are quoted as ECMAScript's QuoteJSONString does: the
 * quote and the backslash are escaped, the control characters that have a
 * short escape get it, the other control characters become `\u00xx` with
 * lower-case hexadecimal digits, and everything else is copied.
 */
module Json {
  import opened Wrappers
  import opened Records

  const HexDigits: string := "0123456789abcdef"

  /** The value of a hexadecimal digit, in either case. */
  function HexValue(c: char): (r: Option<nat>)
    ensures r.Some? ==> r.value < 16
  {
    if '0' <= c <= '9' then Some(c as int - '0' as int)
    else if 'a' <= c <= 'f' then Some(c as int - 'a' as int + 10)
    else if 'A' <= c <= 'F' then Some(c as int - 'A' as int + 10)
    else None
  }

  lemma HexValueOfDigit(n: nat)
    requires n < 16
    ensures HexValue(HexDigits[n]) == Some(n)
  {
  }

  /** The characters that must be written as an escape inside a JSON string. */
  predicate NeedsEscape(c: char) {
    c == '"' || c == '\\' || c < ' '
  }

  /** QuoteJSONString for one character (Dafny characters are never surrogates). */
  function EscapeChar(c: char): (r: string)
    ensures !NeedsEscape(c) ==> r == [c]
    ensures NeedsEscape(c) ==> |r| >= 2 && r[0] == '\\'
    ensures '\n' !in r
  {
    if c == '"' then "\\\""
    else if c == '\\' then "\\\\"
    else if c as int == 8 then "\\b"
    else if c as int == 9 then "\\t"
    else if c as int == 10 then "\\n"
    else if c as int == 12 then "\\f"
    else if c as int == 13 then "\\r"
    else if c < ' ' then "\\u00" + [HexDigits[c as int / 16], HexDigits[c as int % 16]]
    else [c]
  }

  /** The body of a JSON string literal for `s`. */
  function EscapeString(s: string): (r: string)
    ensures '\n' !in r
    ensures (forall i :: 0 <= i < |s| ==> !NeedsEscape(s[i])) ==> r == s
  {
    if s == [] then [] else EscapeChar(s[0]) + EscapeString(s[1..])
  }

  /** A JSON string literal. */
  function Quote(s: string): (r: string)
    ensures '\n' !in r
  {
    "\"" + EscapeString(s) + "\""
  }

  /** What comes before a member's value: the separator, the quoted key, ':' and the opening quote. */
  function MemberPrefix(sep: string, key: string): (r: string)
    ensures '\n' !in sep && '\n' !in key ==> '\n' !in r
  {
    sep + "\"" + key + "\":\""
  }

  /**
   * One `"key":value` member with the separator before it. The keys used
   * below contain no character that JSON escapes (`RecordKeysPlain`), so
   * they are written as is.
   */
  function Member(sep: string, key: string, value: string): (r: string)
    ensures '\n' !in sep && '\n' !in key ==> '\n' !in r
  {
    MemberPrefix(sep, key) + EscapeString(value) + "\""
  }

  /** A key that JSON writes without any escape. */
  predicate PlainKey(key: string) {
    forall i :: 0 <= i < |key| ==> !NeedsEscape(key[i])
  }

  /** For a plain key, `Member` is the key and the value each quoted, joined by ':'. */
  lemma MemberOfPlainKey(sep: string, key: string, value: string)
    requires PlainKey(key)
    ensures Member(sep, key, value) == sep + Quote(key) + ":" + Quote(value)
  {
  }

  /** The keys of a translation record are plain. */
  lemma RecordKeysPlain()
    ensures PlainKey("timestamp") && PlainKey("requestId") && PlainKey("input")
    ensures PlainKey("output") && PlainKey("target")
  {
  }

  /** `JSON.stringify(record)`: keys in insertion order, an undefined output omitted. */
  function Serialize(r: TranslationRecord): (line: string)
    ensures '\n' !in line
  {
    Member("{", "timestamp", r.timestamp)
    + (Member(",", "requestId", r.requestId)
    + (Member(",", "input", r.input)
    + ((if r.output.Some? then Member(",", "output", r.output.value) else "")
    + (Member(",", "target", r.target)
    + "}"))))
  }

  /** The JSON Lines form of a record: its serialization and one newline. */
  function RecordLine(r: TranslationRecord): (line: string)
    ensures |line| > 0 && line[|line| - 1] == '\n'
    ensures '\n' !in line[..|line| - 1]
  {
    Serialize(r) + "\n"
  }

  // ---- Reading a line back ----

  /** The character an escape stands for, read after its backslash, and its length. */
  function Unescape(s: string): (r: Option<(char, nat)>)
    ensures r.Some? ==> 1 <= r.value.1 <= |s|
  {
    if s == [] then None
    else if s[0] == '"' then Some(('"', 1))
    else if s[0] == '\\' then Some(('\\', 1))
    else if s[0] == '/' then Some(('/', 1))
    else if s[0] == 'b' then Some((8 as char, 1))
    else if s[0] == 't' then Some((9 as char, 1))
    else if s[0] == 'n' then Some((10 as char, 1))
    else if s[0] == 'f' then Some((12 as char, 1))
    else if s[0] == 'r' then Some((13 as char, 1))
    else if s[0] == 'u' && |s| >= 5 then
      match (HexValue(s[1]), HexValue(s[2]), HexValue(s[3]), HexValue(s[4]))
      case (Some(a), Some(b), Some(c), Some(d)) =>
        var v := ((a * 16 + b) * 16 + c) * 16 + d;
        if 0xD800 <= v < 0xE000 then None else Some((v as char, 5))
      case _ => None
    else None
  }

  /** Prepends a character to the text of a read result. */
  function Prepend(c: char, r: Option<(string, string)>): Option<(string, string)> {
    match r
    case None => None
    case Some((v, rest)) => Some(([c] + v, rest))
  }

  /**
   * Reads the body of a JSON string literal up to and including its closing
   * quote, giving the text and what follows the quote.
   */
  function ReadString(s: string): Option<(string, string)>
    decreases |s|
  {
    if s == [] then None
    else if s[0] == '"' then Some(("", s[1..]))
    else if s[0] == '\\' then
      match Unescape(s[1..])
      case None => None
      case Some((c, k)) => Prepend(c, ReadString(s[1 + k..]))
    else if s[0] < ' ' then None
    else Prepend(s[0], ReadString(s[1..]))
  }

  /** Consumes the literal `lit` at the front of `s`. */
  function Expect(lit: string, s: string): (r: Option<string>)
    ensures r.Some? ==> s == lit + r.value
  {
    if |lit| <= |s| && s[..|lit|] == lit then Some(s[|lit|..]) else None
  }

  /** Reads a member written by `Member(sep, key, _)`. */
  function ReadMember(sep: string, key: string, s: string): Option<(string, string)> {
    match Expect(MemberPrefix(sep, key), s)
    case None => None
    case Some(t) => ReadString(t)
  }

  /** Reads back one serialized record; `None` for a line that is not a record of this shape. */
  function ParseRecord(line: string): Option<TranslationRecord> {
    match ReadMember("{", "timestamp", line)
    case None => None
    case Some((ts, rest)) => ParseFromRequestId(ts, rest)
  }

  function ParseFromRequestId(ts: string, s: string): Option<TranslationRecord> {
    match ReadMember(",", "requestId", s)
    case None => None
    case Some((id, rest)) => ParseFromInput(ts, id, rest)
  }

  function ParseFromInput(ts: string, id: string, s: string): Option<TranslationRecord> {
    match ReadMember(",", "input", s)
    case None => None
    case Some((input, rest)) =>
      match ReadMember(",", "output", rest)
      case Some((output, rest')) => ParseTarget(ts, id, input, Some(output), rest')
      case None => ParseTarget(ts, id, input, None, rest)
  }

  function ParseTarget(ts: string, id: string, input: string, output: Option<string>, s: string)
    : Option<TranslationRecord>
  {
    match ReadMember(",", "target", s)
    case None => None
    case Some((target, rest)) =>
      if rest == "}" then Some(TranslationRecord(ts, id, input, output, target)) else None
  }

  // ---- Round trip ----

  lemma Assoc(a: string, b: string, c: string)
    ensures (a + b) + c == a + (b + c)
  {
  }

  lemma ExpectLiteral(lit: string, t: string)
    ensures Expect(lit, lit + t) == Some(t)
  {
    assert (lit + t)[..|lit|] == lit;
    assert (lit + t)[|lit|..] == t;
  }

  /** Reading an escaped character gives the character back. */
  lemma ReadEscapedChar(c: char, t: string)
    ensures ReadString(EscapeChar(c) + t) == Prepend(c, ReadString(t))
  {
    if !NeedsEscape(c) {
      assert (EscapeChar(c) + t)[1..] == t;
    } else if c == '"' || c == '\\' || c as int in {8, 9, 10, 12, 13} {
      ReadShortEscape(c, t);
    } else {
      ReadUnicodeEscape(c, t);
    }
  }

  lemma ReadShortEscape(c: char, t: string)
    requires c == '"' || c == '\\' || c as int in {8, 9, 10, 12, 13}
    ensures ReadString(EscapeChar(c) + t) == Prepend(c, ReadString(t))
  {
    var e := EscapeChar(c);
    var s := e + t;
    assert |e| == 2 && s[0] == '\\';
    assert s[1..] == [e[1]] + t;
    assert Unescape(s[1..]) == Some((c, 1));
    assert s[2..] == t;
  }

  lemma ReadUnicodeEscape(c: char, t: string)
    requires c < ' ' && !(c as int in {8, 9, 10, 12, 13})
    ensures ReadString(EscapeChar(c) + t) == Prepend(c, ReadString(t))
  {
    var v := c as int;
    var e := EscapeChar(c);
    assert e == "\\u00" + [HexDigits[v / 16], HexDigits[v % 16]];
    var s := e + t;
    var u := s[1..];
    assert u == ['u', '0', '0', HexDigits[v / 16], HexDigits[v % 16]] + t;
    UnescapeControl(v, t);
    assert s[6..] == t;
  }

  /** `\u00xx` with the digits of a control character reads as that character. */
  lemma UnescapeControl(v: nat, t: string)
    requires v < 0x20
    ensures Unescape(['u', '0', '0', HexDigits[v / 16], HexDigits[v % 16]] + t) == Some((v as char, 5))
  {
    var hi, lo := v / 16, v % 16;
    assert v == hi * 16 + lo;
    HexValueOfDigit(0);
    HexValueOfDigit(hi);
    HexValueOfDigit(lo);
  }

  /** Reading an escaped string and its closing quote gives the string back. */
  lemma {:induction false} ReadEscapedString(x: string, rest: string)
    ensures ReadString(EscapeString(x) + "\"" + rest) == Some((x, rest))
  {
    if x == [] {
      assert EscapeString(x) + "\"" + rest == "\"" + rest;
      assert ("\"" + rest)[1..] == rest;
    } else {
      var a, b := EscapeChar(x[0]), EscapeString(x[1..]);
      var t := b + "\"" + rest;
      assert EscapeString(x) == a + b;
      Assoc(a, b, "\"");
      Assoc(a, b + "\"", rest);
      ReadEscapedChar(x[0], t);
      ReadEscapedString(x[1..], rest);
      assert [x[0]] + x[1..] == x;
    }
  }

  lemma ReadMemberOfMember(sep: string, key: string, v: string, rest: string)
    ensures ReadMember(sep, key, Member(sep, key, v) + rest) == Some((v, rest))
  {
    var lit := MemberPrefix(sep, key);
    var e := EscapeString(v);
    Assoc(lit + e, "\"", rest);
    Assoc(lit, e, "\"" + rest);
    Assoc(e, "\"", rest);
    ExpectLiteral(lit, e + "\"" + rest);
    ReadEscapedString(v, rest);
  }

  /** A member for a key other than "output" is not read as the output member. */
  lemma NoOutputMember(v: string, rest: string)
    ensures ReadMember(",", "output", Member(",", "target", v) + rest) == None
  {
    var s := Member(",", "target", v) + rest;
    assert s[2] == 't';
  }

  /** `ParseRecord` inverts `Serialize`: distinct records give distinct lines. */
  lemma ParseSerialize(r: TranslationRecord)
    ensures ParseRecord(Serialize(r)) == Some(r)
  {
    var tail := Member(",", "target", r.target) + "}";
    var out := if r.output.Some? then Member(",", "output", r.output.value) else "";
    var s3 := Member(",", "input", r.input) + (out + tail);
    var s2 := Member(",", "requestId", r.requestId) + s3;
    ReadMemberOfMember("{", "timestamp", r.timestamp, s2);
    ReadMemberOfMember(",", "requestId", r.requestId, s3);
    ParseInputTail(r, out, tail);
  }

  lemma ParseInputTail(r: TranslationRecord, out: string, tail: string)
    requires tail == Member(",", "target", r.target) + "}"
    requires out == if r.output.Some? then Member(",", "output", r.output.value) else ""
    ensures ParseFromInput(r.timestamp, r.requestId, Member(",", "input", r.input) + (out + tail)) == Some(r)
  {
    ReadMemberOfMember(",", "input", r.input, out + tail);
    ReadMemberOfMember(",", "target", r.target, "}");
    if r.output.Some? {
      ReadMemberOfMember(",", "output", r.output.value, tail);
    } else {
      assert out + tail == tail;
      NoOutputMember(r.target, "}");
    }
  }

  lemma SerializeInjective(a: TranslationRecord, b: TranslationRecord)
    requires Serialize(a) == Serialize(b)
    ensures a == b
  {
    ParseSerialize(a);
    ParseSerialize(b);
  }
}
