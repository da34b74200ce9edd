/**
 The two escapings: values of the RFC 5424 structured-data element in syslog messages, and values
 in LDAP search filters (RFC 4515). Each printer is proved against a reader.
 */
module Escaping {
  import opened Common

  // ---- RFC 5424 structured data ------------------------------------------------

  function SanitizeChar(c: char): string {
    if c == '\\' then "\\\\"
    else if c == '\"' then "\\\""
    else if c == ']' then "\\]"
    else if c == '\n' then "\\n"
    else if c == '\r' then "\\r"
    else [c]
  }

  function Sanitize(s: string): string {
    if s == "" then "" else SanitizeChar(s[0]) + Sanitize(s[1..])
  }

  /**
   What an escaped character stands for. Section 6.3.3 of RFC 5424 defines three escapes and
   leaves every other backslash as it is; with `newlines` the reader knows the exporter's two
   additional ones.
   */
  function Unescape(c: char, newlines: bool): string {
    if c == '\\' || c == '\"' || c == ']' then [c]
    else if newlines && c == 'n' then "\n"
    else if newlines && c == 'r' then "\r"
    else ['\\', c]
  }

  /** Reads up to the first quote that is not escaped; the value and what follows the quote. */
  function ReadValue(s: string, newlines: bool): Option<(string, string)> {
    if s == "" then None
    else if s[0] == '\"' then Some(("", s[1..]))
    else if s[0] == '\\' then
      if |s| == 1 then None
      else
        var rest := ReadValue(s[2..], newlines);
        if rest.None? then None else Some((Unescape(s[1], newlines) + rest.value.0, rest.value.1))
    else
      var rest := ReadValue(s[1..], newlines);
      if rest.None? then None else Some(([s[0]] + rest.value.0, rest.value.1))
  }

  /** What a reader makes of a printed value. */
  function ReadBack(v: string, newlines: bool): string {
    if v == "" then ""
    else
      (if newlines then [v[0]]
       else if v[0] == '\n' then "\\n" else if v[0] == '\r' then "\\r" else [v[0]])
      + ReadBack(v[1..], newlines)
  }

  /** The reader stops exactly at the closing quote, whatever the value contains. */
  lemma {:induction false} ReadSanitized(v: string, rest: string, newlines: bool)
    ensures ReadValue(Sanitize(v) + "\"" + rest, newlines) == Some((ReadBack(v, newlines), rest))
  {
    if v == "" {
      assert Sanitize(v) + "\"" + rest == "\"" + rest;
    } else {
      var head, tail := SanitizeChar(v[0]), Sanitize(v[1..]) + "\"" + rest;
      assert Sanitize(v) + "\"" + rest == head + tail;
      assert (head + tail)[|head|..] == tail;
      ReadSanitized(v[1..], rest, newlines);
    }
  }

  lemma {:induction false} ReadBackOwn(v: string)
    ensures ReadBack(v, true) == v
  {
    if v != "" {
      ReadBackOwn(v[1..]);
    }
  }

  /** A plain RFC 5424 reader gets the value back iff it has no line break in it. */
  lemma {:induction false} ReadBackStandard(v: string)
    ensures |v| <= |ReadBack(v, false)|
    ensures ReadBack(v, false) == v <==> '\n' !in v && '\r' !in v
  {
    if v != "" {
      ReadBackStandard(v[1..]);
      assert v == [v[0]] + v[1..];
      if v[0] != '\n' && v[0] != '\r' {
        assert ReadBack(v, false)[1..] == ReadBack(v[1..], false);
      } else {
        assert |ReadBack(v, false)| > |v|;
      }
    }
  }

  /** A printed value never breaks the line of its message. */
  lemma {:induction false} SanitizedOneLine(v: string)
    ensures '\n' !in Sanitize(v) && '\r' !in Sanitize(v)
  {
    if v != "" {
      SanitizedOneLine(v[1..]);
    }
  }

  /** Nothing else is touched. */
  lemma {:induction false} SanitizePlain(v: string)
    requires forall c <- v :: c != '\\' && c != '\"' && c != ']' && c != '\n' && c != '\r'
    ensures Sanitize(v) == v
  {
    if v != "" {
      assert v == [v[0]] + v[1..] && v[0] in v;
      assert forall c <- v[1..] :: c in v;
      SanitizePlain(v[1..]);
    }
  }

  datatype Audit = Audit(userId: string, action: string, resource: string, ip: string)

  const USER_ID := "[audit user_id=\""
  const ACTION := " action=\""
  const RESOURCE := " resource=\""
  const IP := " ip=\""

  function Field(prefix: string, value: string): string {
    prefix + Sanitize(value) + "\""
  }

  /** The structured-data element of a message, followed by `rest`. */
  function Element(a: Audit, rest: string): string {
    Field(USER_ID, a.userId)
    + (Field(ACTION, a.action) + (Field(RESOURCE, a.resource) + (Field(IP, a.ip) + ("]" + rest))))
  }

  const HEADER := "<134>1 "
  const ORIGIN := " outpost audit-log - - "

  /** The whole message: header, element, and the details as free text. */
  function Message(timestamp: string, a: Audit, details: string): string {
    HEADER + timestamp + ORIGIN + Element(a, " " + details)
  }

  /** Reads a literal prefix and the quoted value after it. */
  function ReadField(prefix: string, s: string): Option<(string, string)> {
    if prefix <= s then ReadValue(s[|prefix|..], true) else None
  }

  /** Reads an element; the entry and what follows it. */
  function ReadElement(s: string): Option<(Audit, string)> {
    var f1 := ReadField(USER_ID, s);
    if f1.None? then None else
    var f2 := ReadField(ACTION, f1.value.1);
    if f2.None? then None else
    var f3 := ReadField(RESOURCE, f2.value.1);
    if f3.None? then None else
    var f4 := ReadField(IP, f3.value.1);
    if f4.None? || !("]" <= f4.value.1) then None
    else Some((Audit(f1.value.0, f2.value.0, f3.value.0, f4.value.0), f4.value.1[1..]))
  }

  lemma {:induction false} FieldRoundTrip(prefix: string, value: string, rest: string)
    ensures ReadField(prefix, Field(prefix, value) + rest) == Some((value, rest))
  {
    var s := Field(prefix, value) + rest;
    assert s[|prefix|..] == Sanitize(value) + "\"" + rest;
    ReadSanitized(value, rest, true);
    ReadBackOwn(value);
  }

  /** For all four values: the element reads back exactly, and the reader ends where it ends. */
  lemma {:induction false} ElementRoundTrip(a: Audit, rest: string)
    ensures ReadElement(Element(a, rest)) == Some((a, rest))
  {
    var t4 := Field(IP, a.ip) + ("]" + rest);
    var t3 := Field(RESOURCE, a.resource) + t4;
    var t2 := Field(ACTION, a.action) + t3;
    FieldRoundTrip(USER_ID, a.userId, t2);
    FieldRoundTrip(ACTION, a.action, t3);
    FieldRoundTrip(RESOURCE, a.resource, t4);
    FieldRoundTrip(IP, a.ip, "]" + rest);
    assert ("]" + rest)[1..] == rest;
  }

  /** Behind the header a reader finds the entry, and the details after it. */
  lemma {:induction false} MessageRoundTrip(timestamp: string, a: Audit, details: string)
    ensures var m, n := Message(timestamp, a, details), |HEADER| + |timestamp| + |ORIGIN|;
            n <= |m| && ReadElement(m[n..]) == Some((a, " " + details))
  {
    var m, n := Message(timestamp, a, details), |HEADER| + |timestamp| + |ORIGIN|;
    assert m[n..] == Element(a, " " + details);
    ElementRoundTrip(a, " " + details);
  }

  /** The line starts as the format asks: priority and version, time, host and application, no further ids. */
  lemma {:induction false} MessageHead(timestamp: string, a: Audit, details: string)
    ensures "<134>1 " + timestamp + (" outpost audit-log - - " + "[audit user_id=\"") <= Message(timestamp, a, details)
  {
    var rest := Sanitize(a.userId) + "\""
      + (Field(ACTION, a.action) + (Field(RESOURCE, a.resource) + (Field(IP, a.ip) + ("]" + (" " + details)))));
    assert Element(a, " " + details) == USER_ID + rest;
    assert Message(timestamp, a, details) == HEADER + timestamp + (ORIGIN + USER_ID) + rest;
  }

  // ---- A reader that knows only the grammar ------------------------------------

  /** Characters up to `stop`, and what follows it. */
  function ReadUntil(s: string, stop: char): Option<(string, string)> {
    if s == "" then None
    else if s[0] == stop then Some(("", s[1..]))
    else
      var rest := ReadUntil(s[1..], stop);
      if rest.None? then None else Some(([s[0]] + rest.value.0, rest.value.1))
  }

  datatype Param = Param(name: string, value: string)

  /** SD-PARAMs of section 6.3 of RFC 5424, ` name="value"` each, up to the closing bracket. */
  function ReadParams(s: string): Option<(seq<Param>, string)>
    decreases |s|
  {
    if s == "" then None
    else if s[0] == ']' then Some(([], s[1..]))
    else if s[0] != ' ' then None
    else
      var name := ReadUntil(s[1..], '=');
      if name.None? || name.value.1 == "" || name.value.1[0] != '\"' then None else
      var value := ReadValue(name.value.1[1..], true);
      if value.None? || |value.value.1| >= |s| then None else
      var rest := ReadParams(value.value.1);
      if rest.None? then None else Some(([Param(name.value.0, value.value.0)] + rest.value.0, rest.value.1))
  }

  lemma {:induction false} ReadUntilName(name: string, stop: char, rest: string)
    requires stop !in name
    ensures ReadUntil(name + [stop] + rest, stop) == Some((name, rest))
  {
    var s := name + [stop] + rest;
    if name == "" {
      assert s[0] == stop && s[1..] == rest;
    } else {
      assert s[0] == name[0] && name[0] in name && s[1..] == name[1..] + [stop] + rest;
      ReadUntilName(name[1..], stop, rest);
      assert [name[0]] + name[1..] == name;
    }
  }

  lemma {:induction false} ReadOneParam(name: string, value: string, tail: string)
    requires '=' !in name && ReadParams(tail).Some?
    ensures ReadParams(" " + name + "=\"" + Sanitize(value) + "\"" + tail)
            == Some(([Param(name, value)] + ReadParams(tail).value.0, ReadParams(tail).value.1))
  {
    var quoted := "\"" + (Sanitize(value) + "\"" + tail);
    var s := " " + name + "=\"" + Sanitize(value) + "\"" + tail;
    assert s[0] == ' ' && s[1..] == name + ['='] + quoted;
    ReadUntilName(name, '=', quoted);
    assert quoted[0] == '\"' && quoted[1..] == Sanitize(value) + "\"" + tail;
    ReadSanitized(value, tail, true);
    ReadBackOwn(value);
  }

  lemma {:induction false} ReadFieldParam(prefix: string, name: string, value: string, tail: string)
    requires prefix == " " + name + "=\"" && '=' !in name && ReadParams(tail).Some?
    ensures ReadParams(Field(prefix, value) + tail)
            == Some(([Param(name, value)] + ReadParams(tail).value.0, ReadParams(tail).value.1))
  {
    ReadOneParam(name, value, tail);
    assert Field(prefix, value) + tail == " " + name + "=\"" + Sanitize(value) + "\"" + tail;
  }

  lemma {:induction false} ElementHead(a: Audit, rest: string)
    ensures var tail := Field(ACTION, a.action) + (Field(RESOURCE, a.resource) + (Field(IP, a.ip) + ("]" + rest)));
            "[audit" <= Element(a, rest) && Element(a, rest)[6..] == Field(" user_id=\"", a.userId) + tail
  {
    assert USER_ID == "[audit" + " user_id=\"";
  }

  lemma {:induction false} ElementTail(a: Audit, rest: string)
    ensures ReadParams(Field(RESOURCE, a.resource) + (Field(IP, a.ip) + ("]" + rest)))
            == Some(([Param("resource", a.resource)] + ([Param("ip", a.ip)] + []), rest))
  {
    var t5 := "]" + rest;
    assert ReadParams(t5) == Some(([], rest)) by {
      assert t5[1..] == rest;
    }
    ReadFieldParam(IP, "ip", a.ip, t5);
    ReadFieldParam(RESOURCE, "resource", a.resource, Field(IP, a.ip) + t5);
  }

  /** Such a reader finds the four values under their names, in order, and ends at the closing bracket. */
  lemma {:induction false} ElementParams(a: Audit, rest: string)
    ensures "[audit" <= Element(a, rest)
    ensures ReadParams(Element(a, rest)[6..])
            == Some(([Param("user_id", a.userId)] + ([Param("action", a.action)]
                      + ([Param("resource", a.resource)] + ([Param("ip", a.ip)] + []))), rest))
  {
    var tail := Field(RESOURCE, a.resource) + (Field(IP, a.ip) + ("]" + rest));
    ElementTail(a, rest);
    ReadFieldParam(ACTION, "action", a.action, tail);
    ElementHead(a, rest);
    ReadFieldParam(" user_id=\"", "user_id", a.userId, Field(ACTION, a.action) + tail);
  }

  // ---- RFC 4515 filter values --------------------------------------------------

  type byte = b: nat | b < 256

  const BACKSLASH: byte := 0x5c

  /** backslash, asterisk, parentheses and NUL */
  predicate Special(b: byte) {
    b == BACKSLASH || b == 0x2a || b == 0x28 || b == 0x29 || b == 0
  }

  /** A digit of %02x. */
  function HexDigit(n: nat): byte
    requires n < 16
  {
    if n < 10 then 0x30 + n else 0x61 + n - 10
  }

  function HexValue(b: byte): Option<nat> {
    if 0x30 <= b <= 0x39 then Some(b - 0x30)
    else if 0x61 <= b <= 0x66 then Some(b - 0x61 + 10)
    else if 0x41 <= b <= 0x46 then Some(b - 0x41 + 10)
    else None
  }

  function EscapeByte(b: byte): seq<byte> {
    if Special(b) then [BACKSLASH, HexDigit(b / 16), HexDigit(b % 16)] else [b]
  }

  function EscapeFilter(s: seq<byte>): seq<byte> {
    if s == [] then [] else EscapeFilter(s[..|s| - 1]) + EscapeByte(s[|s| - 1])
  }

  method LdapEscapeFilter(s: seq<byte>) returns (result: seq<byte>)
    ensures result == EscapeFilter(s)
  {
    result := [];
    for i := 0 to |s|
      invariant result == EscapeFilter(s[..i])
    {
      assert s[..i + 1][..i] == s[..i];
      var c := s[i];
      if c == BACKSLASH || c == 0x2a || c == 0x28 || c == 0x29 || c == 0 {
        result := result + [BACKSLASH];
        result := result + [HexDigit(c / 16), HexDigit(c % 16)];
        assert result == EscapeFilter(s[..i]) + EscapeByte(c);
      } else {
        result := result + [c];
      }
    }
    assert s[..|s|] == s;
  }

  /** The value a filter reader sees; None when it is not a well-formed assertion value. */
  function UnescapeFilter(s: seq<byte>): Option<seq<byte>> {
    if s == [] then Some([])
    else if s[0] == BACKSLASH then
      if |s| < 3 || HexValue(s[1]).None? || HexValue(s[2]).None? then None
      else
        var rest := UnescapeFilter(s[3..]);
        var b: byte := HexValue(s[1]).value * 16 + HexValue(s[2]).value;
        if rest.None? then None else Some([b] + rest.value)
    else if Special(s[0]) then None
    else
      var rest := UnescapeFilter(s[1..]);
      if rest.None? then None else Some([s[0]] + rest.value)
  }

  lemma {:induction false} UnescapeOne(b: byte, rest: seq<byte>)
    ensures UnescapeFilter(EscapeByte(b) + rest) ==
            if UnescapeFilter(rest).None? then None else Some([b] + UnescapeFilter(rest).value)
  {
  }

  lemma {:induction false} UnescapeAppend(s: seq<byte>, rest: seq<byte>)
    ensures UnescapeFilter(EscapeFilter(s) + rest) ==
            if UnescapeFilter(rest).None? then None else Some(s + UnescapeFilter(rest).value)
  {
    if s == [] {
      assert EscapeFilter(s) + rest == rest;
      if UnescapeFilter(rest).Some? {
        assert s + UnescapeFilter(rest).value == UnescapeFilter(rest).value;
      }
    } else {
      var init, last := s[..|s| - 1], s[|s| - 1];
      assert s == init + [last];
      assert EscapeFilter(s) + rest == EscapeFilter(init) + (EscapeByte(last) + rest);
      UnescapeOne(last, rest);
      UnescapeAppend(init, EscapeByte(last) + rest);
      if UnescapeFilter(rest).Some? {
        assert init + ([last] + UnescapeFilter(rest).value) == s + UnescapeFilter(rest).value;
      }
    }
  }

  /** A filter reader that refuses bare special bytes accepts the output and gets the input back. */
  lemma {:induction false} FilterRoundTrip(s: seq<byte>)
    ensures UnescapeFilter(EscapeFilter(s)) == Some(s)
  {
    UnescapeAppend(s, []);
    assert EscapeFilter(s) + [] == EscapeFilter(s) && s + [] == s;
  }

  lemma {:induction false} NoBareSpecial(s: seq<byte>)
    ensures forall b <- EscapeFilter(s) :: b == BACKSLASH || !Special(b)
  {
    if s != [] {
      NoBareSpecial(s[..|s| - 1]);
      assert forall b <- EscapeByte(s[|s| - 1]) :: b == BACKSLASH || !Special(b);
    }
  }

  /** The escapes of the five bytes. */
  lemma {:induction false} FilterEscapes()
    ensures EscapeByte(0x2a) == [0x5c, 0x32, 0x61] && EscapeByte(0x28) == [0x5c, 0x32, 0x38]
    ensures EscapeByte(0x29) == [0x5c, 0x32, 0x39] && EscapeByte(0x5c) == [0x5c, 0x35, 0x63]
    ensures EscapeByte(0) == [0x5c, 0x30, 0x30]
  {
  }

  /** Those bytes do not occur bare. */
  lemma {:induction false} FilterSafe(s: seq<byte>)
    ensures 0x2a !in EscapeFilter(s) && 0x28 !in EscapeFilter(s) && 0x29 !in EscapeFilter(s) && 0 !in EscapeFilter(s)
  {
    NoBareSpecial(s);
    assert Special(0x2a) && Special(0x28) && Special(0x29) && Special(0);
  }

  /** And no other byte is touched. */
  lemma {:induction false} FilterPlain(s: seq<byte>)
    requires forall b <- s :: b != 0x2a && b != 0x28 && b != 0x29 && b != 0x5c && b != 0
    ensures EscapeFilter(s) == s
  {
    if s != [] {
      var init, last := s[..|s| - 1], s[|s| - 1];
      assert s == init + [last] && last in s;
      assert forall b <- init :: b in s;
      FilterPlain(init);
    }
  }
}
