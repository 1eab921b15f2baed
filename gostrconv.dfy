/**
 * The parts of Go's `strconv` package that the configuration parser and the
 * command messages depend on: unquoting a double-quoted Go string literal,
 * quoting a string as `%q` does, and parsing a boolean.
 */
module GoStrconv {
  import opened Wrappers

  /** The one-letter escapes of a double-quoted Go literal and what they stand for. */
  const SimpleEscapes: map<char, char> := map[
    'a' := '\U{0007}', 'b' := '\U{0008}', 'f' := '\U{000C}', 'n' := '\n',
    'r' := '\r', 't' := '\t', 'v' := '\U{000B}', '\\' := '\\', '"' := '"']

  /** The numeric value of a hexadecimal digit (either case), as `unhex` gives it. */
  function HexDigit(c: char): (d: Option<nat>)
    ensures d.Some? ==> d.value < 16
  {
    if '0' <= c <= '9' then Some(c as int - '0' as int)
    else if 'a' <= c <= 'f' then Some(c as int - 'a' as int + 10)
    else if 'A' <= c <= 'F' then Some(c as int - 'A' as int + 10)
    else None
  }

  /** 16 to the power `n`. */
  function HexBound(n: nat): nat {
    if n == 0 then 1 else 16 * HexBound(n - 1)
  }

  /** The value of a string of hexadecimal digits, or None if some character is not one. */
  function HexValue(s: string): (v: Option<nat>)
    ensures v.Some? ==> v.value < HexBound(|s|)
    decreases |s|
  {
    if s == [] then Some(0)
    else match (HexValue(s[..|s| - 1]), HexDigit(s[|s| - 1]))
      case (Some(high), Some(low)) => Some(16 * high + low)
      case _ => None
  }

  /** An octal digit. */
  predicate IsOctal(c: char) {
    '0' <= c <= '7'
  }

  /** `utf8.ValidRune`: a Unicode scalar value. */
  predicate ValidRune(v: nat) {
    v < 0xD800 || 0xE000 <= v < 0x11_0000
  }

  function Prepend(c: char, r: Option<string>): Option<string> {
    match r
    case None => None
    case Some(t) => Some([c] + t)
  }

  /**
   * The text between the quotes of a double-quoted Go literal, decoded as
   * `strconv.Unquote` decodes it: None on an unescaped quote or newline, on
   * an unknown escape (such as `\z` or `\'`), on a truncated escape, on a
   * `\u`/`\U` escape that is not a scalar value and on an octal escape above
   * 255.
   */
  function UnquoteChars(s: string): Option<string>
    decreases |s|
  {
    if s == [] then Some([])
    else if s[0] == '"' || s[0] == '\n' then None
    else if s[0] != '\\' then Prepend(s[0], UnquoteChars(s[1..]))
    else if |s| < 2 then None
    else
      var c := s[1];
      if c in SimpleEscapes then Prepend(SimpleEscapes[c], UnquoteChars(s[2..]))
      else if c == 'x' || c == 'u' || c == 'U' then
        var n := if c == 'x' then 2 else if c == 'u' then 4 else 8;
        if |s| < 2 + n then None
        else match HexValue(s[2..2 + n])
          case None => None
          case Some(v) =>
            if c != 'x' && !ValidRune(v) then None
            else Prepend(v as char, UnquoteChars(s[2 + n..]))
      else if IsOctal(c) then
        if |s| < 4 || !IsOctal(s[2]) || !IsOctal(s[3]) then None
        else
          var v := 64 * (c as int - '0' as int) + 8 * (s[2] as int - '0' as int) + (s[3] as int - '0' as int);
          if v > 255 then None else Prepend(v as char, UnquoteChars(s[4..]))
      else None
  }

  /**
   * `strconv.Unquote` on a double-quoted literal; anything not wrapped in
   * double quotes is a syntax error here.
   */
  function Unquote(v: string): (r: Option<string>)
    ensures r.Some? ==> |v| >= 2 && v[0] == '"' && v[|v| - 1] == '"'
  {
    if |v| >= 2 && v[0] == '"' && v[|v| - 1] == '"' then UnquoteChars(v[1..|v| - 1]) else None
  }

  /** A lower-case hexadecimal digit. */
  function LowerHex(d: nat): char
    requires d < 16
  {
    if d < 10 then (d + '0' as int) as char else (d - 10 + 'a' as int) as char
  }

  /** How `strconv.Quote` writes one character inside the quotes. */
  function EscapeChar(c: char): string {
    if c == '"' then "\\\""
    else if c == '\\' then "\\\\"
    else if c == '\U{0007}' then "\\a"
    else if c == '\U{0008}' then "\\b"
    else if c == '\U{000C}' then "\\f"
    else if c == '\n' then "\\n"
    else if c == '\r' then "\\r"
    else if c == '\t' then "\\t"
    else if c == '\U{000B}' then "\\v"
    else if c < ' ' || c == '\U{007F}' then "\\x" + [LowerHex(c as int / 16), LowerHex(c as int % 16)]
    else [c]
  }

  function QuoteChars(s: string): string {
    if s == [] then [] else EscapeChar(s[0]) + QuoteChars(s[1..])
  }

  /** `strconv.Quote` (the `%q` verb) for strings of printable characters and ASCII controls. */
  function Quote(s: string): string {
    "\"" + QuoteChars(s) + "\""
  }

  /** Decoding the escape of one character yields that character, whatever follows. */
  lemma UnquoteEscape(c: char, rest: string)
    ensures UnquoteChars(EscapeChar(c) + rest) == Prepend(c, UnquoteChars(rest))
  {
    if c in {'"', '\\', '\U{0007}', '\U{0008}', '\U{000C}', '\n', '\r', '\t', '\U{000B}'} {
      UnquoteSimpleEscape(c, rest);
    } else if c < ' ' || c == '\U{007F}' {
      UnquoteHexEscape(c, rest);
    } else {
      assert EscapeChar(c) == [c];
      assert ([c] + rest)[1..] == rest;
    }
  }

  lemma UnquoteSimpleEscape(c: char, rest: string)
    requires c in {'"', '\\', '\U{0007}', '\U{0008}', '\U{000C}', '\n', '\r', '\t', '\U{000B}'}
    ensures UnquoteChars(EscapeChar(c) + rest) == Prepend(c, UnquoteChars(rest))
  {
    var e := EscapeChar(c);
    assert |e| == 2 && e[0] == '\\' && e[1] in SimpleEscapes && SimpleEscapes[e[1]] == c;
    assert (e + rest)[2..] == rest;
  }

  lemma UnquoteHexEscape(c: char, rest: string)
    requires c < ' ' || c == '\U{007F}'
    requires c !in {'\U{0007}', '\U{0008}', '\U{000C}', '\n', '\r', '\t', '\U{000B}'}
    ensures UnquoteChars(EscapeChar(c) + rest) == Prepend(c, UnquoteChars(rest))
  {
    var hex := [LowerHex(c as int / 16), LowerHex(c as int % 16)];
    var s := EscapeChar(c) + rest;
    assert EscapeChar(c) == "\\x" + hex;
    assert s[1] == 'x' && s[2..4] == hex && s[4..] == rest;
    assert HexValue(hex[..1]) == Some(c as int / 16);
    assert HexValue(hex) == Some(c as int);
  }

  /** A character other than quote, backslash and newline stands for itself. */
  lemma UnquotePlainChar(c: char, rest: string)
    requires c != '"' && c != '\\' && c != '\n'
    ensures UnquoteChars([c] + rest) == Prepend(c, UnquoteChars(rest))
  {
    assert ([c] + rest)[1..] == rest;
  }

  /** Characters other than quote, backslash and newline stand for themselves. */
  lemma {:induction false} UnquotePlain(p: string, rest: string)
    requires forall k :: 0 <= k < |p| ==> p[k] != '"' && p[k] != '\\' && p[k] != '\n'
    ensures UnquoteChars(p + rest) == match UnquoteChars(rest) case None => None case Some(t) => Some(p + t)
  {
    if p == [] {
      assert p + rest == rest;
      match UnquoteChars(rest)
      case None =>
      case Some(t) => assert p + t == t;
    } else {
      assert p + rest == [p[0]] + (p[1..] + rest);
      UnquotePlainChar(p[0], p[1..] + rest);
      UnquotePlain(p[1..], rest);
      match UnquoteChars(rest)
      case None =>
      case Some(t) => assert [p[0]] + (p[1..] + t) == p + t;
    }
  }

  /** A quoted string holds no line breaks: they are escaped. */
  lemma {:induction false} QuoteNoLineBreaks(s: string)
    ensures '\n' !in Quote(s) && '\r' !in Quote(s)
  {
    QuoteCharsNoLineBreaks(s);
  }

  lemma {:induction false} QuoteCharsNoLineBreaks(s: string)
    ensures '\n' !in QuoteChars(s) && '\r' !in QuoteChars(s)
  {
    if s != [] {
      QuoteCharsNoLineBreaks(s[1..]);
      var e := EscapeChar(s[0]);
      assert '\n' !in e && '\r' !in e;
    }
  }

  /** Unquoting undoes quoting. */
  lemma {:induction false} UnquoteQuote(s: string)
    ensures Unquote(Quote(s)) == Some(s)
  {
    var q := Quote(s);
    assert q[1..|q| - 1] == QuoteChars(s);
    QuoteCharsRoundTrip(s);
  }

  lemma {:induction false} QuoteCharsRoundTrip(s: string)
    ensures UnquoteChars(QuoteChars(s)) == Some(s)
  {
    if s != [] {
      UnquoteEscape(s[0], QuoteChars(s[1..]));
      QuoteCharsRoundTrip(s[1..]);
      assert [s[0]] + s[1..] == s;
    }
  }

  /** A literal of characters other than quote, backslash and newline decodes to its text. */
  lemma UnquotePlainLiteral(p: string)
    requires forall k :: 0 <= k < |p| ==> p[k] != '"' && p[k] != '\\' && p[k] != '\n'
    ensures Unquote("\"" + p + "\"") == Some(p)
  {
    var lit := "\"" + p + "\"";
    assert lit[1..|lit| - 1] == p;
    UnquotePlain(p, "");
    assert p + "" == p;
  }

  /** The quoted prefix of the configuration tests decodes to itself. */
  lemma UnquotePlainExample()
    ensures Unquote("\"version/\"") == Some("version/")
  {
    UnquotePlainLiteral("version/");
    assert "\"" + "version/" + "\"" == "\"version/\"";
  }

  /** An escaped quote inside the literal stands for a quote. */
  lemma UnquoteEscapedQuoteExample()
    ensures Unquote("\"foo\\\"bar\"") == Some("foo\"bar")
  {
    var lit := "\"foo\\\"bar\"";
    UnquotePlain("bar", "");
    assert "bar" + "" == "bar";
    UnquoteEscape('"', "bar");
    UnquotePlain("foo", EscapeChar('"') + "bar");
    assert lit[1..|lit| - 1] == "foo" + (EscapeChar('"') + "bar");
    assert "foo" + (['"'] + "bar") == "foo\"bar";
  }

  /** An unknown escape such as `\z` is a syntax error. */
  lemma UnquoteBadEscapeExample()
    ensures Unquote("\"foo\\z\"") == None
  {
    var lit := "\"foo\\z\"";
    var bad := "\\z";
    assert UnquoteChars(bad) == None by {
      assert bad[0] == '\\' && bad[1] == 'z' && 'z' !in SimpleEscapes;
    }
    UnquotePlain("foo", bad);
    assert lit[1..|lit| - 1] == "foo" + bad;
  }

  /** `strconv.ParseBool`: exactly the twelve spellings Go accepts. */
  function ParseBool(s: string): (r: Option<bool>)
    ensures r == Some(true) <==> s in {"1", "t", "T", "TRUE", "true", "True"}
    ensures r == Some(false) <==> s in {"0", "f", "F", "FALSE", "false", "False"}
  {
    if s in {"1", "t", "T", "TRUE", "true", "True"} then Some(true)
    else if s in {"0", "f", "F", "FALSE", "false", "False"} then Some(false)
    else None
  }
}
