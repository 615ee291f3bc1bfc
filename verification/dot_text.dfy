/**
  The texts inside an exported graph: quoted labels and the graph's identifier.
 */
module DotText {
  import opened Core
  import opened JsonString

  // ---------------------------------------------------------------- labels

  function LabelEscape(c: char): Option<char> {
    if c == '\"' then Some('\"')
    else if c == '\\' then Some('\\')
    else if c == '\n' then Some('n')
    else if c == '\r' then Some('r')
    else if c == '\t' then Some('t')
    else None
  }

  function EscapeLabelChar(c: char): string {
    if LabelEscape(c).Some? then ['\\', LabelEscape(c).value] else [c]
  }

  function EscapeLabel(s: string): string {
    if s == "" then "" else EscapeLabel(s[..|s| - 1]) + EscapeLabelChar(s[|s| - 1])
  }

  /** The quoted label as it stands in the graph. */
  function Label(s: string): string {
    ['\"'] + EscapeLabel(s) + ['\"']
  }

  method AppendLabel(out: TextBuffer, value: string)
    modifies out
    ensures out.text == old(out.text) + Label(value)
  {
    out.PushBack('\"');
    ghost var start := out.text;
    for i := 0 to |value|
      invariant out.text == start + EscapeLabel(value[..i])
    {
      assert value[..i + 1][..i] == value[..i];
      var escape := LabelEscape(value[i]);
      if escape.Some? {
        out.Append(['\\', escape.value]);
      } else {
        out.PushBack(value[i]);
      }
    }
    assert value[..|value|] == value;
    out.PushBack('\"');
  }

  function UnescapeLabel(c: char): Option<char> {
    if c == '\"' then Some('\"')
    else if c == '\\' then Some('\\')
    else if c == 'n' then Some('\n')
    else if c == 'r' then Some('\r')
    else if c == 't' then Some('\t')
    else None
  }

  /** Reads a label up to the first quote that is not escaped; a label stays on its line. */
  function ReadLabelBody(s: string): Option<(string, string)> {
    if s == "" then None
    else if s[0] == '\"' then Some(("", s[1..]))
    else if s[0] == '\n' || s[0] == '\r' || s[0] == '\t' then None
    else if s[0] != '\\' then Put(s[0], ReadLabelBody(s[1..]))
    else if |s| >= 2 && UnescapeLabel(s[1]).Some? then Put(UnescapeLabel(s[1]).value, ReadLabelBody(s[2..]))
    else None
  }

  function ReadLabel(s: string): Option<(string, string)> {
    if s != "" && s[0] == '\"' then ReadLabelBody(s[1..]) else None
  }

  lemma ReadLabelChar(c: char, rest: string)
    ensures ReadLabelBody(EscapeLabelChar(c) + rest) == Put(c, ReadLabelBody(rest))
  {
    var s := EscapeLabelChar(c) + rest;
    if LabelEscape(c).Some? {
      assert s[2..] == rest;
    } else {
      assert s[1..] == rest;
    }
  }

  lemma {:induction false} ReadEscapedLabel(s: string, rest: string)
    ensures ReadLabelBody(EscapeLabel(s) + rest) == PutAll(s, ReadLabelBody(rest))
  {
    if s == "" {
      assert EscapeLabel(s) + rest == rest;
      PutAllLast("", 'x', ReadLabelBody(rest));
    } else {
      var init, last := s[..|s| - 1], s[|s| - 1];
      assert EscapeLabel(s) + rest == EscapeLabel(init) + (EscapeLabelChar(last) + rest);
      ReadEscapedLabel(init, EscapeLabelChar(last) + rest);
      ReadLabelChar(last, rest);
      PutAllLast(init, last, ReadLabelBody(rest));
      assert s == init + [last];
    }
  }

  /** No label ends its quotes early or breaks its line, and none is confused with another. */
  lemma LabelRoundTrip(s: string, rest: string)
    ensures ReadLabel(Label(s) + rest) == Some((s, rest))
  {
    assert (Label(s) + rest)[1..] == EscapeLabel(s) + (['\"'] + rest);
    ReadEscapedLabel(s, ['\"'] + rest);
    assert (['\"'] + rest)[1..] == rest;
    assert s + "" == s;
  }

  // ---------------------------------------------------------------- identifiers

  predicate IsIdentifierChar(c: char) {
    'a' <= c <= 'z' || 'A' <= c <= 'Z' || '0' <= c <= '9' || c == '_'
  }

  predicate IsIdentifier(s: string) {
    && s != "" && !('0' <= s[0] <= '9')
    && forall i :: 0 <= i < |s| ==> IsIdentifierChar(s[i])
  }

  /** Rewrites a name in place until it is an identifier; a name that is one already stays. */
  method SanitizeIdentifier(value: string) returns (name: string)
    ensures IsIdentifier(name)
    ensures name == value <==> IsIdentifier(value)
    ensures value == "" ==> name == "pipeline"
    ensures value != "" ==>
              && |name| == |value|
              && forall i :: 0 <= i < |value| ==>
                   name[i] == if IsIdentifierChar(value[i]) && !(i == 0 && '0' <= value[0] <= '9')
                              then value[i] else '_'
  {
    var output := new char[|value|](i requires 0 <= i < |value| => value[i]);
    for i := 0 to |value|
      invariant forall j :: 0 <= j < |value| ==>
                  output[j] == if j < i && !IsIdentifierChar(value[j]) then '_' else value[j]
    {
      if !IsIdentifierChar(output[i]) {
        output[i] := '_';
      }
    }
    if output.Length == 0 {
      return "pipeline";
    }
    if '0' <= output[0] <= '9' {
      output[0] := '_';
    }
    name := output[..];
    if IsIdentifier(value) {
      assert name == value;
    }
  }
}
