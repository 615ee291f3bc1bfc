/**
  JSON strings at byte level. Two escapers write them; section 7 of RFC 8259 says which
  texts are strings, and a reader gives back what was escaped. A byte is a character
  below 256; nothing here depends on that bound.
 */
module JsonString {
  import opened Core

  // ---------------------------------------------------------------- escaping one byte

  function HexDigit(n: nat): char
    requires n < 16
  {
    if n < 10 then (('0' as int) + n) as char else (('a' as int) + (n - 10)) as char
  }

  /** Hexadecimal text of a number, without leading zeros. */
  function HexText(n: nat): string {
    if n < 16 then [HexDigit(n)] else HexText(n / 16) + [HexDigit(n % 16)]
  }

  function Zeros(n: nat): string {
    seq(n, _ => '0')
  }

  /** A number printed in hexadecimal and padded with zeros to a width. */
  function PaddedHex(n: nat, width: nat): string {
    var text := HexText(n);
    if |text| < width then Zeros(width - |text|) + text else text
  }

  const BACKSPACE := 8 as char
  const FORM_FEED := 12 as char

  predicate IsControl(c: char) {
    (c as int) < 0x20
  }

  /** The two-character escapes both escapers use. */
  function ShortEscape(c: char): Option<char> {
    if c == '\"' then Some('\"')
    else if c == '\\' then Some('\\')
    else if c == BACKSPACE then Some('b')
    else if c == FORM_FEED then Some('f')
    else if c == '\n' then Some('n')
    else if c == '\r' then Some('r')
    else if c == '\t' then Some('t')
    else None
  }

  function Escape(c: char): string {
    if ShortEscape(c).Some? then ['\\', ShortEscape(c).value]
    else if IsControl(c) then ['\\', 'u', '0', '0', HexDigit((c as int) / 16), HexDigit((c as int) % 16)]
    else [c]
  }

  function EscapeAll(s: string): string {
    if s == "" then "" else EscapeAll(s[..|s| - 1]) + Escape(s[|s| - 1])
  }

  function Quote(s: string): string {
    ['\"'] + EscapeAll(s) + ['\"']
  }

  /** Printing a control byte with a width of four gives two zeros and its two digits. */
  lemma PaddedControl(n: nat)
    requires n < 0x20
    ensures PaddedHex(n, 4) == ['0', '0', HexDigit(n / 16), HexDigit(n % 16)]
  {
    if n >= 16 {
      assert HexText(n) == [HexDigit(n / 16)] + [HexDigit(n % 16)];
    }
  }

  // ---------------------------------------------------------------- the two escapers

  class TextBuffer {
    var text: string

    constructor ()
      ensures text == ""
    {
      text := "";
    }

    method PushBack(c: char)
      modifies this
      ensures text == old(text) + [c]
    {
      text := text + [c];
    }

    method Append(more: string)
      modifies this
      ensures text == old(text) + more
    {
      text := text + more;
    }
  }

  /** One byte, with control bytes printed through a format. */
  method AppendFormatted(out: TextBuffer, c: char)
    modifies out
    ensures out.text == old(out.text) + Escape(c)
  {
    var short := ShortEscape(c);
    if short.Some? {
      out.Append(['\\', short.value]);
    } else if IsControl(c) {
      PaddedControl(c as int);
      out.Append(['\\', 'u'] + PaddedHex(c as int, 4));
    } else {
      out.PushBack(c);
    }
  }

  /** One byte, with control bytes looked up in a digit table. */
  method AppendLookedUp(out: TextBuffer, c: char)
    modifies out
    ensures out.text == old(out.text) + Escape(c)
  {
    var digits := ['0', '1', '2', '3', '4', '5', '6', '7', '8', '9', 'a', 'b', 'c', 'd', 'e', 'f'];
    var byte := c as int;
    var short := ShortEscape(c);
    if short.Some? {
      out.Append(['\\', short.value]);
    } else if byte < 0x20 {
      out.Append(['\\', 'u', '0', '0']);
      out.PushBack(digits[byte / 16 % 16]);
      out.PushBack(digits[byte % 16]);
    } else {
      out.PushBack(c);
    }
  }

  lemma EscapeAllStep(s: string, i: nat)
    requires i < |s|
    ensures EscapeAll(s[..i + 1]) == EscapeAll(s[..i]) + Escape(s[i])
  {
    assert s[..i + 1][..i] == s[..i];
  }

  /** The escaper of the error record. */
  method AppendJsonString(out: TextBuffer, value: string)
    modifies out
    ensures out.text == old(out.text) + Quote(value)
  {
    out.PushBack('\"');
    ghost var start := out.text;
    for i := 0 to |value|
      invariant out.text == start + EscapeAll(value[..i])
    {
      EscapeAllStep(value, i);
      AppendFormatted(out, value[i]);
    }
    assert value[..|value|] == value;
    out.PushBack('\"');
  }

  /** The escaper of the graph exporter: the same output on every input. */
  method AppendGraphJsonString(out: TextBuffer, value: string)
    modifies out
    ensures out.text == old(out.text) + Quote(value)
  {
    out.PushBack('\"');
    ghost var start := out.text;
    for i := 0 to |value|
      invariant out.text == start + EscapeAll(value[..i])
    {
      EscapeAllStep(value, i);
      AppendLookedUp(out, value[i]);
    }
    assert value[..|value|] == value;
    out.PushBack('\"');
  }

  // ---------------------------------------------------------------- what a JSON string is

  predicate IsHex(c: char) {
    '0' <= c <= '9' || 'a' <= c <= 'f' || 'A' <= c <= 'F'
  }

  function HexValue(c: char): nat
    requires IsHex(c)
  {
    if '0' <= c <= '9' then (c as int) - ('0' as int)
    else if 'a' <= c <= 'f' then (c as int) - ('a' as int) + 10
    else (c as int) - ('A' as int) + 10
  }

  /** The character a two-character escape stands for, for all eight of them. */
  function Unescape(c: char): Option<char> {
    match c
    case '\"' => Some('\"')
    case '\\' => Some('\\')
    case '/' => Some('/')
    case 'b' => Some(BACKSPACE)
    case 'f' => Some(FORM_FEED)
    case 'n' => Some('\n')
    case 'r' => Some('\r')
    case 't' => Some('\t')
    case _ => None
  }

  predicate IsUnicodeEscape(s: string) {
    |s| >= 6 && s[0] == '\\' && s[1] == 'u' && forall i :: 2 <= i < 6 ==> IsHex(s[i])
  }

  function UnicodeValue(s: string): nat
    requires IsUnicodeEscape(s)
  {
    ((HexValue(s[2]) * 16 + HexValue(s[3])) * 16 + HexValue(s[4])) * 16 + HexValue(s[5])
  }

  /** The characters of a string between its quotes: unescaped ones, short escapes and \u escapes. */
  predicate IsBody(s: string) {
    || s == ""
    || (s[0] != '\"' && s[0] != '\\' && !IsControl(s[0]) && IsBody(s[1..]))
    || (|s| >= 2 && s[0] == '\\' && Unescape(s[1]).Some? && IsBody(s[2..]))
    || (IsUnicodeEscape(s) && IsBody(s[6..]))
  }

  predicate IsString(s: string) {
    |s| >= 2 && s[0] == '\"' && s[|s| - 1] == '\"' && IsBody(s[1..|s| - 1])
  }

  /** Reads up to the closing quote: the characters and what follows it. Escapes of surrogates are not read. */
  function ReadBody(s: string): (r: Option<(string, string)>)
    ensures r.Some? ==> |r.value.1| < |s|
  {
    if s == "" then None
    else if s[0] == '\"' then Some(("", s[1..]))
    else if s[0] == '\\' then
      if |s| >= 2 && Unescape(s[1]).Some? then Put(Unescape(s[1]).value, ReadBody(s[2..]))
      else if IsUnicodeEscape(s) && UnicodeValue(s) < 0xD800 then Put(UnicodeValue(s) as char, ReadBody(s[6..]))
      else None
    else if IsControl(s[0]) then None
    else Put(s[0], ReadBody(s[1..]))
  }

  function Put(c: char, r: Option<(string, string)>): Option<(string, string)> {
    if r.None? then None else Some(([c] + r.value.0, r.value.1))
  }

  function ReadString(s: string): (r: Option<(string, string)>)
    ensures r.Some? ==> |r.value.1| < |s|
  {
    if s != "" && s[0] == '\"' then ReadBody(s[1..]) else None
  }

  // ---------------------------------------------------------------- round trip

  lemma EscapedControl(c: char, rest: string)
    requires IsControl(c) && ShortEscape(c).None?
    ensures IsUnicodeEscape(Escape(c) + rest) && UnicodeValue(Escape(c) + rest) == c as int
  {
    var n := c as int;
    assert n / 16 < 2;
    var s := Escape(c) + rest;
    assert s[2] == '0' && s[3] == '0' && s[4] == HexDigit(n / 16) && s[5] == HexDigit(n % 16);
    assert HexValue(HexDigit(n / 16)) == n / 16 && HexValue(HexDigit(n % 16)) == n % 16;
  }

  /** An escaped byte in front of a body is read back as that byte. */
  lemma ReadEscape(c: char, rest: string)
    ensures ReadBody(Escape(c) + rest) == Put(c, ReadBody(rest))
  {
    var s := Escape(c) + rest;
    if ShortEscape(c).Some? {
      assert s[2..] == rest;
      assert Unescape(ShortEscape(c).value) == Some(c);
    } else if IsControl(c) {
      EscapedControl(c, rest);
      assert s[6..] == rest && Unescape('u').None?;
    } else {
      assert s[1..] == rest;
    }
  }

  function PutAll(s: string, r: Option<(string, string)>): Option<(string, string)> {
    if r.None? then None else Some((s + r.value.0, r.value.1))
  }

  lemma PutAllLast(init: string, last: char, r: Option<(string, string)>)
    ensures PutAll(init, Put(last, r)) == PutAll(init + [last], r)
    ensures PutAll("", r) == r
  {
    if r.Some? {
      assert init + ([last] + r.value.0) == init + [last] + r.value.0;
      assert "" + r.value.0 == r.value.0;
    }
  }

  lemma {:induction false} ReadEscapeAll(s: string, rest: string)
    ensures ReadBody(EscapeAll(s) + rest) == PutAll(s, ReadBody(rest))
  {
    if s == "" {
      assert EscapeAll(s) + rest == rest;
      PutAllLast("", 'x', ReadBody(rest));
    } else {
      var init, last := s[..|s| - 1], s[|s| - 1];
      assert EscapeAll(s) + rest == EscapeAll(init) + (Escape(last) + rest);
      ReadEscapeAll(init, Escape(last) + rest);
      ReadEscape(last, rest);
      PutAllLast(init, last, ReadBody(rest));
      assert s == init + [last];
    }
  }

  /** What either escaper writes is read back exactly, whatever follows it. */
  lemma ReadQuote(s: string, rest: string)
    ensures ReadString(Quote(s) + rest) == Some((s, rest))
  {
    assert (Quote(s) + rest)[1..] == EscapeAll(s) + (['\"'] + rest);
    ReadEscapeAll(s, ['\"'] + rest);
    assert (['\"'] + rest)[1..] == rest;
    assert s + "" == s;
  }

  // ---------------------------------------------------------------- legality

  lemma EscapeIsLegal(c: char, rest: string)
    requires IsBody(rest)
    ensures IsBody(Escape(c) + rest)
  {
    var s := Escape(c) + rest;
    if ShortEscape(c).Some? {
      assert s[2..] == rest;
    } else if IsControl(c) {
      EscapedControl(c, rest);
      assert s[6..] == rest;
    } else {
      assert s[1..] == rest;
    }
  }

  lemma {:induction false} EscapeAllIsLegal(s: string, rest: string)
    requires IsBody(rest)
    ensures IsBody(EscapeAll(s) + rest)
  {
    if s == "" {
      assert EscapeAll(s) + rest == rest;
    } else {
      var init, last := s[..|s| - 1], s[|s| - 1];
      assert EscapeAll(s) + rest == EscapeAll(init) + (Escape(last) + rest);
      EscapeIsLegal(last, rest);
      EscapeAllIsLegal(init, Escape(last) + rest);
    }
  }

  /** On every byte string both escapers write a string as RFC 8259 defines it. */
  lemma QuoteIsLegal(s: string)
    ensures IsString(Quote(s))
  {
    EscapeAllIsLegal(s, "");
    assert Quote(s)[1..|Quote(s)| - 1] == EscapeAll(s) + "";
  }

  /** The reader reads nothing but legal strings: what it consumed is a body and a closing quote. */
  lemma {:induction false} ReadBodyIsLegal(s: string)
    requires ReadBody(s).Some?
    ensures var n := |s| - |ReadBody(s).value.1| - 1;
            0 <= n < |s| && s[n] == '\"' && s[n + 1..] == ReadBody(s).value.1 && IsBody(s[..n])
    decreases |s|
  {
    if s[0] != '\"' {
      var m := if s[0] != '\\' then 1 else if Unescape(s[1]).Some? then 2 else 6;
      ReadBodyIsLegal(s[m..]);
      var n := |s| - |ReadBody(s).value.1| - 1;
      assert s[..n][m..] == s[m..][..n - m];
      if m == 6 {
        assert IsUnicodeEscape(s[..n]);
      }
    }
  }

  lemma ReadStringIsLegal(s: string)
    requires ReadString(s).Some?
    ensures var n := |s| - |ReadString(s).value.1|;
            IsString(s[..n]) && s[n..] == ReadString(s).value.1
  {
    ReadBodyIsLegal(s[1..]);
    var n := |s| - |ReadString(s).value.1|;
    assert s[..n][1..n - 1] == s[1..][..n - 2];
    assert s[n..] == s[1..][n - 1..];
  }
}
