/**
 * The parts of Go's `strings`, `unicode` and `bufio` packages that the
 * configuration parser and the tag scanner depend on. Strings are sequences
 * of Unicode scalar values; Go's byte-level view of invalid UTF-8 is not
 * modelled.
 */
module GoStrings {
  import opened Wrappers

  /** `unicode.IsSpace`: the Unicode White_Space property. */
  predicate IsSpace(c: char) {
    c == '\t' || c == '\n' || c == '\U{000B}' || c == '\U{000C}' || c == '\r' || c == ' '
    || c == '\U{0085}' || c == '\U{00A0}' || c == '\U{1680}'
    || ('\U{2000}' <= c <= '\U{200A}')
    || c == '\U{2028}' || c == '\U{2029}' || c == '\U{202F}' || c == '\U{205F}' || c == '\U{3000}'
  }

  /** Drops leading white space. */
  function TrimLeft(s: string): (r: string)
    ensures |r| <= |s| && r == s[|s| - |r|..]
    ensures forall k :: 0 <= k < |s| - |r| ==> IsSpace(s[k])
    ensures r != [] ==> !IsSpace(r[0])
    decreases |s|
  {
    if s != [] && IsSpace(s[0]) then TrimLeft(s[1..]) else s
  }

  /** Drops trailing white space. */
  function TrimRight(s: string): (r: string)
    ensures |r| <= |s| && r == s[..|r|]
    ensures forall k :: |r| <= k < |s| ==> IsSpace(s[k])
    ensures r != [] ==> !IsSpace(r[|r| - 1])
    decreases |s|
  {
    if s != [] && IsSpace(s[|s| - 1]) then TrimRight(s[..|s| - 1]) else s
  }

  /**
   * `strings.TrimSpace`: `s` without its leading and trailing white space
   * (TrimSpaceSpec).
   */
  function TrimSpace(s: string): (r: string)
    ensures r != [] ==> !IsSpace(r[0]) && !IsSpace(r[|r| - 1])
    ensures r == [] <==> forall k :: 0 <= k < |s| ==> IsSpace(s[k])
  {
    var l := TrimLeft(s);
    var r := TrimRight(l);
    assert r != [] ==> r[0] == l[0];
    r
  }

  /**
   * What TrimSpace keeps is an infix of `s`, and what it cuts away on either
   * side is white space.
   */
  lemma TrimSpaceSpec(s: string)
    ensures exists i, j ::
      && 0 <= i <= j <= |s| && TrimSpace(s) == s[i..j]
      && AllSpace(s[..i]) && AllSpace(s[j..])
  {
    var l := TrimLeft(s);
    var r := TrimRight(l);
    var i := |s| - |l|;
    var j := i + |r|;
    TrimLeftCut(s);
    TrimRightCut(l);
    assert s[j..] == l[|r|..];
    assert r == s[i..j];
    assert 0 <= i <= j <= |s| && TrimSpace(s) == s[i..j] && AllSpace(s[..i]) && AllSpace(s[j..]);
  }

  /** What TrimLeft cuts away is white space. */
  lemma TrimLeftCut(s: string)
    ensures AllSpace(s[..|s| - |TrimLeft(s)|])
  {
    var i := |s| - |TrimLeft(s)|;
    forall k | 0 <= k < i ensures IsSpace(s[..i][k]) {
      assert s[..i][k] == s[k];
    }
  }

  /** What TrimRight cuts away is white space. */
  lemma TrimRightCut(s: string)
    ensures AllSpace(s[|TrimRight(s)|..])
  {
    var j := |TrimRight(s)|;
    forall k | 0 <= k < |s| - j ensures IsSpace(s[j..][k]) {
      assert s[j..][k] == s[j + k];
    }
  }

  /** TrimSpace leaves a string alone when it already starts and ends with non-space. */
  lemma TrimSpaceIdentity(s: string)
    requires s != [] ==> !IsSpace(s[0]) && !IsSpace(s[|s| - 1])
    ensures TrimSpace(s) == s
  {
  }

  /** A string of white space only. */
  predicate AllSpace(s: string) {
    forall k :: 0 <= k < |s| ==> IsSpace(s[k])
  }

  /** Leading white space makes no difference to TrimLeft. */
  lemma {:induction false} TrimLeftSpace(a: string, x: string)
    requires AllSpace(a)
    ensures TrimLeft(a + x) == TrimLeft(x)
  {
    if a != [] {
      assert (a + x)[0] == a[0];
      assert (a + x)[1..] == a[1..] + x;
      TrimLeftSpace(a[1..], x);
    } else {
      assert a + x == x;
    }
  }

  /** Trailing white space makes no difference to TrimRight. */
  lemma {:induction false} TrimRightSpace(x: string, b: string)
    requires AllSpace(b)
    ensures TrimRight(x + b) == TrimRight(x)
  {
    if b != [] {
      var xb := x + b;
      assert xb[|xb| - 1] == b[|b| - 1];
      assert xb[..|xb| - 1] == x + b[..|b| - 1];
      TrimRightSpace(x, b[..|b| - 1]);
    } else {
      assert x + b == x;
    }
  }

  /** What follows a string with some non-space is kept by TrimLeft. */
  lemma {:induction false} TrimLeftAppend(s: string, b: string)
    requires !AllSpace(s)
    ensures TrimLeft(s + b) == TrimLeft(s) + b
  {
    assert s != [];
    assert (s + b)[0] == s[0];
    if IsSpace(s[0]) {
      assert !AllSpace(s[1..]) by {
        var k :| 0 <= k < |s| && !IsSpace(s[k]);
        assert s[1..][k - 1] == s[k];
      }
      assert (s + b)[1..] == s[1..] + b;
      TrimLeftAppend(s[1..], b);
    }
  }

  /** White space around a string makes no difference to TrimSpace. */
  lemma TrimSpaceSurrounded(a: string, s: string, b: string)
    requires AllSpace(a) && AllSpace(b)
    ensures TrimSpace(a + s + b) == TrimSpace(s)
  {
    assert a + s + b == a + (s + b);
    TrimLeftSpace(a, s + b);
    if AllSpace(s) {
      assert AllSpace(s + b) by {
        forall k | 0 <= k < |s + b| ensures IsSpace((s + b)[k]) {
          if k < |s| { assert (s + b)[k] == s[k]; } else { assert (s + b)[k] == b[k - |s|]; }
        }
      }
      assert TrimLeft(s + b) == [];
      assert TrimSpace(s) == [];
    } else {
      TrimLeftAppend(s, b);
      TrimRightSpace(TrimLeft(s), b);
    }
  }

  /** A trimmed, non-empty text with white space around it trims to itself. */
  lemma TrimSpaceAround(a: string, t: string, b: string)
    requires AllSpace(a) && AllSpace(b)
    requires t != [] && !IsSpace(t[0]) && !IsSpace(t[|t| - 1])
    ensures TrimSpace(a + t + b) == t
  {
    TrimSpaceSurrounded(a, t, b);
    TrimSpaceIdentity(t);
  }

  /** White space after a trimmed string is trimmed away. */
  lemma TrimSpaceAfter(t: string, b: string)
    requires TrimSpace(t) == t && AllSpace(b)
    ensures TrimSpace(t + b) == t
  {
    if t == [] {
      assert t + b == b;
    } else {
      assert !AllSpace(t) by { assert !IsSpace(t[0]); }
      TrimLeftAppend(t, b);
      assert TrimLeft(t) == t;
      TrimRightSpace(t, b);
      assert TrimRight(t) == t;
    }
  }

  /** White space before a trimmed string is trimmed away. */
  lemma TrimSpaceBefore(a: string, t: string)
    requires TrimSpace(t) == t && AllSpace(a)
    ensures TrimSpace(a + t) == t
  {
    TrimLeftSpace(a, t);
    if t == [] {
      assert TrimLeft(t) == [];
    } else {
      assert TrimLeft(t) == t by {
        assert !IsSpace(t[0]);
      }
      assert TrimRight(t) == t;
    }
    assert TrimSpace(a + t) == TrimRight(TrimLeft(t));
  }

  /** `strings.HasPrefix`. */
  predicate HasPrefix(s: string, prefix: string) {
    |prefix| <= |s| && s[..|prefix|] == prefix
  }

  /** `strings.HasSuffix`. */
  predicate HasSuffix(s: string, suffix: string) {
    |suffix| <= |s| && s[|s| - |suffix|..] == suffix
  }

  /**
   * `strings.Cut` with a one-character separator: the text before and after
   * the FIRST occurrence of `sep`, or None when `sep` does not occur.
   */
  function Cut(s: string, sep: char): (r: Option<(string, string)>)
    ensures r.None? <==> sep !in s
    ensures r.Some? ==> s == r.value.0 + [sep] + r.value.1 && sep !in r.value.0
    decreases |s|
  {
    if s == [] then None
    else if s[0] == sep then Some(([], s[1..]))
    else match Cut(s[1..], sep)
      case None => None
      case Some((before, after)) => Some(([s[0]] + before, after))
  }

  /** Cutting `before + [sep] + after` gives back the two parts when `before` lacks `sep`. */
  lemma {:induction false} CutAtFirst(before: string, after: string, sep: char)
    requires sep !in before
    ensures Cut(before + [sep] + after, sep) == Some((before, after))
  {
    if before != [] {
      var text := before + [sep] + after;
      assert text[0] == before[0] && before[0] != sep;
      assert text[1..] == before[1..] + [sep] + after;
      CutAtFirst(before[1..], after, sep);
      assert [before[0]] + before[1..] == before;
    }
  }

  /**
   * `unicode.ToUpper` as far as comparing with ASCII names goes: ASCII
   * letters, and the two non-ASCII runes whose upper case is ASCII
   * (dotless i and long s). Every other rune is kept, and it stays non-ASCII
   * exactly as Go's upper case of it does.
   */
  function UpperChar(c: char): (u: char)
    ensures 'a' <= c <= 'z' ==> u as int == c as int - 32
    ensures u < '\U{0080}' && c != u ==> 'a' <= c <= 'z' || c == '\U{0131}' || c == '\U{017F}'
  {
    if 'a' <= c <= 'z' then (c as int - 32) as char
    else if c == '\U{0131}' then 'I'
    else if c == '\U{017F}' then 'S'
    else c
  }

  /** `strings.ToUpper`, character by character. */
  function ToUpper(s: string): (r: string)
    ensures |r| == |s| && forall k :: 0 <= k < |s| ==> r[k] == UpperChar(s[k])
  {
    seq(|s|, k requires 0 <= k < |s| => UpperChar(s[k]))
  }

  /** Drops one trailing carriage return, as `bufio.ScanLines` does. */
  function DropCR(s: string): (r: string)
    ensures if s != [] && s[|s| - 1] == '\r' then s == r + ['\r'] else r == s
  {
    if s != [] && s[|s| - 1] == '\r' then s[..|s| - 1] else s
  }

  /**
   * The lines `bufio.Scanner` with `ScanLines` yields from `text`: split at
   * every newline, one trailing carriage return dropped from each line, and no
   * empty last line after a final newline.
   */
  function ScanLines(text: string): (lines: seq<string>)
    ensures forall i :: 0 <= i < |lines| ==> '\n' !in lines[i]
    decreases |text|
  {
    if text == [] then []
    else match Cut(text, '\n')
      case None => [DropCR(text)]
      case Some((line, rest)) => [DropCR(line)] + ScanLines(rest)
  }

  /** Each line followed by a newline: the inverse of ScanLines for text without carriage returns. */
  function Unlines(lines: seq<string>): string {
    if lines == [] then [] else lines[0] + "\n" + Unlines(lines[1..])
  }

  /** Without carriage returns, ScanLines loses nothing but a missing final newline. */
  lemma {:induction false} ScanLinesRoundTrip(text: string)
    requires '\r' !in text
    ensures Unlines(ScanLines(text)) == if text == [] || text[|text| - 1] == '\n' then text else text + "\n"
    decreases |text|
  {
    if text != [] {
      match Cut(text, '\n')
      case None =>
        assert text[|text| - 1] in text;
      case Some((line, rest)) =>
        assert '\r' !in line by {
          forall k | 0 <= k < |line| ensures line[k] != '\r' { assert line[k] == text[k]; }
        }
        assert '\r' !in rest by {
          forall k | 0 <= k < |rest| ensures rest[k] != '\r' { assert rest[k] == text[|line| + 1 + k]; }
        }
        ScanLinesRoundTrip(rest);
        assert ScanLines(text)[1..] == ScanLines(rest);
        if rest == [] {
          assert text == line + "\n";
        } else {
          assert text[|text| - 1] == rest[|rest| - 1];
        }
    }
  }

  /** Lines of the text `Unlines(lines)` are `lines` again when they hold no line breaks. */
  lemma {:induction false} UnlinesRoundTrip(lines: seq<string>)
    requires forall i :: 0 <= i < |lines| ==> '\n' !in lines[i] && '\r' !in lines[i]
    ensures ScanLines(Unlines(lines)) == lines
  {
    if lines != [] {
      var text := Unlines(lines);
      assert text == lines[0] + ['\n'] + Unlines(lines[1..]);
      CutAtFirst(lines[0], Unlines(lines[1..]), '\n');
      assert DropCR(lines[0]) == lines[0] by {
        if lines[0] != [] { assert lines[0][|lines[0]| - 1] in lines[0]; }
      }
      UnlinesRoundTrip(lines[1..]);
    }
  }

  /** Each line followed by a carriage return and a newline, as in a file with CRLF line ends. */
  function UnlinesCRLF(lines: seq<string>): string {
    if lines == [] then [] else lines[0] + "\r\n" + UnlinesCRLF(lines[1..])
  }

  /** Lines of the text `UnlinesCRLF(lines)` are `lines` again: the carriage returns are dropped. */
  lemma {:induction false} UnlinesCRLFRoundTrip(lines: seq<string>)
    requires forall i :: 0 <= i < |lines| ==> '\n' !in lines[i] && '\r' !in lines[i]
    ensures ScanLines(UnlinesCRLF(lines)) == lines
  {
    if lines != [] {
      var line := lines[0] + ['\r'];
      var rest := UnlinesCRLF(lines[1..]);
      assert UnlinesCRLF(lines) == line + ['\n'] + rest;
      assert '\n' !in line;
      CutAtFirst(line, rest, '\n');
      assert DropCR(line) == lines[0];
      UnlinesCRLFRoundTrip(lines[1..]);
    }
  }
}
