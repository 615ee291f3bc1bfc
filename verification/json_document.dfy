/**
  JSON documents as trees of numbers, strings, arrays and objects: their text, a reader
  for it, and the proof that reading inverts writing.
 */
module JsonDocument {
  import opened Core
  import opened JsonString

  import D = Decimal

  datatype Json = Num(n: nat) | Str(s: string) | Arr(items: seq<Json>) | Obj(members: seq<Member>)

  datatype Member = Member(key: string, value: Json)

  // ---------------------------------------------------------------- text

  /** Texts separated by commas. */
  function Join(texts: seq<string>): string {
    if texts == [] then ""
    else if |texts| == 1 then texts[0]
    else Join(texts[..|texts| - 1]) + [','] + texts[|texts| - 1]
  }

  function Text(j: Json): string
    decreases j
  {
    match j
    case Num(n) => D.Render(n)
    case Str(s) => Quote(s)
    case Arr(items) => ['['] + Join(Texts(items)) + [']']
    case Obj(members) => ['{'] + Join(MemberTexts(members)) + ['}']
  }

  function Texts(items: seq<Json>): (texts: seq<string>)
    ensures |texts| == |items|
    decreases items
  {
    if items == [] then [] else Texts(items[..|items| - 1]) + [Text(items[|items| - 1])]
  }

  function MemberText(m: Member): string
    decreases m
  {
    Quote(m.key) + [':'] + Text(m.value)
  }

  function MemberTexts(members: seq<Member>): (texts: seq<string>)
    ensures |texts| == |members|
    decreases members
  {
    if members == [] then [] else MemberTexts(members[..|members| - 1]) + [MemberText(members[|members| - 1])]
  }

  // ---------------------------------------------------------------- reading

  function DigitCount(s: string): (n: nat)
    ensures n <= |s|
  {
    if s != "" && D.IsDigit(s[0]) then 1 + DigitCount(s[1..]) else 0
  }

  function ReadNumber(s: string): Option<(Json, string)> {
    var n := DigitCount(s);
    if n > 0 && D.Read(s[..n]) >= 0 then Some((Num(D.Read(s[..n])), s[n..])) else None
  }

  /** Reads one value, without insignificant white space: the tree and the text after it. */
  function ReadValue(s: string): (r: Option<(Json, string)>)
    ensures r.Some? ==> |r.value.1| < |s|
    decreases |s|, 0
  {
    if s == "" then None
    else if s[0] == '\"' then
      var r := ReadString(s);
      if r.None? then None else Some((Str(r.value.0), r.value.1))
    else if s[0] == '[' then
      if |s| > 1 && s[1] == ']' then Some((Arr([]), s[2..]))
      else
        var r := ReadItems(s[1..]);
        if r.None? then None else Some((Arr(r.value.0), r.value.1))
    else if s[0] == '{' then
      if |s| > 1 && s[1] == '}' then Some((Obj([]), s[2..]))
      else
        var r := ReadMembers(s[1..]);
        if r.None? then None else Some((Obj(r.value.0), r.value.1))
    else ReadNumber(s)
  }

  /** Reads values up to the closing bracket. */
  function ReadItems(s: string): (r: Option<(seq<Json>, string)>)
    ensures r.Some? ==> |r.value.1| < |s|
    decreases |s|, 1
  {
    var first := ReadValue(s);
    if first.None? || first.value.1 == "" then None
    else
      var item, rest := first.value.0, first.value.1;
      if rest[0] == ']' then Some(([item], rest[1..]))
      else if rest[0] != ',' then None
      else
        var more := ReadItems(rest[1..]);
        if more.None? then None else Some(([item] + more.value.0, more.value.1))
  }

  function ReadMember(s: string): (r: Option<(Member, string)>)
    ensures r.Some? ==> |r.value.1| < |s|
    decreases |s|, 1
  {
    var key := ReadString(s);
    if key.None? || key.value.1 == "" || key.value.1[0] != ':' then None
    else
      var value := ReadValue(key.value.1[1..]);
      if value.None? then None else Some((Member(key.value.0, value.value.0), value.value.1))
  }

  function ReadMembers(s: string): (r: Option<(seq<Member>, string)>)
    ensures r.Some? ==> |r.value.1| < |s|
    decreases |s|, 2
  {
    var first := ReadMember(s);
    if first.None? || first.value.1 == "" then None
    else
      var member, rest := first.value.0, first.value.1;
      if rest[0] == '}' then Some(([member], rest[1..]))
      else if rest[0] != ',' then None
      else
        var more := ReadMembers(rest[1..]);
        if more.None? then None else Some(([member] + more.value.0, more.value.1))
  }

  // ---------------------------------------------------------------- round trip

  /** A number must not run into digits after it. */
  predicate Ends(rest: string) {
    rest == "" || !D.IsDigit(rest[0])
  }

  lemma {:induction false} DigitCountOf(digits: string, rest: string)
    requires (forall i :: 0 <= i < |digits| ==> D.IsDigit(digits[i])) && Ends(rest)
    ensures DigitCount(digits + rest) == |digits|
  {
    if digits == "" {
      assert digits + rest == rest;
    } else {
      assert (digits + rest)[1..] == digits[1..] + rest;
      DigitCountOf(digits[1..], rest);
    }
  }

  lemma ReadRendered(n: nat, rest: string)
    requires Ends(rest)
    ensures ReadNumber(D.Render(n) + rest) == Some((Num(n), rest))
  {
    var digits := D.Render(n);
    D.RenderIsDigits(n);
    DigitCountOf(digits, rest);
    D.ReadRender(n);
    assert (digits + rest)[..|digits|] == digits && (digits + rest)[|digits|..] == rest;
  }

  lemma {:induction false} JoinFront(texts: seq<string>)
    requires |texts| > 1
    ensures Join(texts) == texts[0] + ([','] + Join(texts[1..]))
  {
    var n := |texts| - 1;
    if n == 1 {
      assert Join(texts[..1]) == texts[0] && Join(texts[1..]) == texts[1];
    } else {
      JoinFront(texts[..n]);
      assert texts[..n][1..] == texts[1..][..n - 1];
      assert texts[1..][|texts[1..]| - 1] == texts[n];
    }
  }

  lemma {:induction false} TextsFront(items: seq<Json>)
    requires items != []
    ensures Texts(items) == [Text(items[0])] + Texts(items[1..])
    decreases |items|
  {
    var n := |items| - 1;
    if n > 0 {
      TextsFront(items[..n]);
      assert items[..n][1..] == items[1..][..n - 1];
    }
  }

  lemma {:induction false} MemberTextsFront(members: seq<Member>)
    requires members != []
    ensures MemberTexts(members) == [MemberText(members[0])] + MemberTexts(members[1..])
    decreases |members|
  {
    var n := |members| - 1;
    if n > 0 {
      MemberTextsFront(members[..n]);
      assert members[..n][1..] == members[1..][..n - 1];
    }
  }

  /** A value's text starts with no closing bracket. */
  lemma TextHead(j: Json)
    ensures Text(j) != "" && Text(j)[0] != ']' && Text(j)[0] != '}'
    ensures j.Num? ==> D.IsDigit(Text(j)[0])
  {
    if j.Num? {
      D.RenderIsDigits(j.n);
    }
  }

  /** What follows the first of some joined texts. */
  function After(texts: seq<string>, close: char, rest: string): string
    requires texts != []
  {
    if |texts| == 1 then [close] + rest else [','] + (Join(texts[1..]) + ([close] + rest))
  }

  lemma JoinSplits(texts: seq<string>, close: char, rest: string)
    requires texts != []
    ensures Join(texts) + ([close] + rest) == texts[0] + After(texts, close, rest)
  {
    if |texts| > 1 {
      JoinFront(texts);
    }
  }

  lemma ReadLastItem(s: string, item: Json, rest: string)
    requires ReadValue(s) == Some((item, [']'] + rest))
    ensures ReadItems(s) == Some(([item], rest))
  {
    assert ([']'] + rest)[1..] == rest;
  }

  lemma ReadMoreItems(s: string, item: Json, tail: string, more: seq<Json>, rest: string)
    requires ReadValue(s) == Some((item, [','] + tail)) && ReadItems(tail) == Some((more, rest))
    ensures ReadItems(s) == Some(([item] + more, rest))
  {
    assert ([','] + tail)[1..] == tail;
  }

  lemma ReadLastMember(s: string, member: Member, rest: string)
    requires ReadMember(s) == Some((member, ['}'] + rest))
    ensures ReadMembers(s) == Some(([member], rest))
  {
    assert (['}'] + rest)[1..] == rest;
  }

  lemma ReadMoreMembers(s: string, member: Member, tail: string, more: seq<Member>, rest: string)
    requires ReadMember(s) == Some((member, [','] + tail)) && ReadMembers(tail) == Some((more, rest))
    ensures ReadMembers(s) == Some(([member] + more, rest))
  {
    assert ([','] + tail)[1..] == tail;
  }

  lemma ReadArray(items: seq<Json>, inner: string, rest: string)
    requires inner != "" && inner[0] != ']' && ReadItems(inner) == Some((items, rest))
    ensures ReadValue(['['] + inner) == Some((Arr(items), rest))
  {
    assert (['['] + inner)[1..] == inner;
  }

  lemma ReadObject(members: seq<Member>, inner: string, rest: string)
    requires inner != "" && inner[0] != '}' && ReadMembers(inner) == Some((members, rest))
    ensures ReadValue(['{'] + inner) == Some((Obj(members), rest))
  {
    assert (['{'] + inner)[1..] == inner;
  }

  lemma ReadEmpty(rest: string)
    ensures ReadValue(['['] + ([']'] + rest)) == Some((Arr([]), rest))
    ensures ReadValue(['{'] + (['}'] + rest)) == Some((Obj([]), rest))
  {
    assert (['['] + ([']'] + rest))[2..] == rest && (['{'] + (['}'] + rest))[2..] == rest;
  }

  /** Every tree is read back from its text, whatever follows. */
  lemma {:induction false} ReadText(j: Json, rest: string)
    requires j.Num? ==> Ends(rest)
    ensures ReadValue(Text(j) + rest) == Some((j, rest))
    decreases j
  {
    match j {
      case Num(n) =>
        TextHead(j);
        ReadRendered(n, rest);
      case Str(text) => ReadQuote(text, rest);
      case Arr(items) => ReadArrayText(items, rest);
      case Obj(members) => ReadObjectText(members, rest);
    }
  }

  lemma {:induction false} ReadArrayText(items: seq<Json>, rest: string)
    ensures ReadValue(Text(Arr(items)) + rest) == Some((Arr(items), rest))
    decreases items, 1
  {
    var inner := Join(Texts(items)) + ([']'] + rest);
    assert Text(Arr(items)) + rest == ['['] + inner;
    if items == [] {
      assert inner == [']'] + rest;
      ReadEmpty(rest);
    } else {
      ReadItemsText(items, rest);
      ItemsHead(items, rest);
      ReadArray(items, inner, rest);
    }
  }

  lemma ItemsHead(items: seq<Json>, rest: string)
    requires items != []
    ensures var inner := Join(Texts(items)) + ([']'] + rest); inner != "" && inner[0] != ']'
  {
    JoinSplits(Texts(items), ']', rest);
    TextsFront(items);
    TextHead(items[0]);
  }

  lemma {:induction false} ReadObjectText(members: seq<Member>, rest: string)
    ensures ReadValue(Text(Obj(members)) + rest) == Some((Obj(members), rest))
    decreases members, 1
  {
    var inner := Join(MemberTexts(members)) + (['}'] + rest);
    assert Text(Obj(members)) + rest == ['{'] + inner;
    if members == [] {
      assert inner == ['}'] + rest;
      ReadEmpty(rest);
    } else {
      ReadMembersText(members, rest);
      JoinSplits(MemberTexts(members), '}', rest);
      MemberTextsFront(members);
      ReadObject(members, inner, rest);
    }
  }

  lemma {:induction false} ReadItemsText(items: seq<Json>, rest: string)
    requires items != []
    ensures ReadItems(Join(Texts(items)) + ([']'] + rest)) == Some((items, rest))
    decreases items, 0
  {
    var s := Join(Texts(items)) + ([']'] + rest);
    var after := After(Texts(items), ']', rest);
    JoinSplits(Texts(items), ']', rest);
    TextsFront(items);
    ReadText(items[0], after);
    if |items| > 1 {
      assert Texts(items)[1..] == Texts(items[1..]);
      ReadItemsText(items[1..], rest);
      ReadMoreItems(s, items[0], Join(Texts(items[1..])) + ([']'] + rest), items[1..], rest);
      assert [items[0]] + items[1..] == items;
    } else {
      ReadLastItem(s, items[0], rest);
      assert [items[0]] == items;
    }
  }

  lemma {:induction false} ReadMemberText(m: Member, rest: string)
    requires Ends(rest)
    ensures ReadMember(MemberText(m) + rest) == Some((m, rest))
    decreases m
  {
    var tail := [':'] + (Text(m.value) + rest);
    assert MemberText(m) + rest == Quote(m.key) + tail;
    ReadQuote(m.key, tail);
    assert tail[1..] == Text(m.value) + rest;
    ReadText(m.value, rest);
  }

  lemma {:induction false} ReadMembersText(members: seq<Member>, rest: string)
    requires members != []
    ensures ReadMembers(Join(MemberTexts(members)) + (['}'] + rest)) == Some((members, rest))
    decreases members, 0
  {
    var s := Join(MemberTexts(members)) + (['}'] + rest);
    var after := After(MemberTexts(members), '}', rest);
    JoinSplits(MemberTexts(members), '}', rest);
    MemberTextsFront(members);
    ReadMemberText(members[0], after);
    if |members| > 1 {
      assert MemberTexts(members)[1..] == MemberTexts(members[1..]);
      ReadMembersText(members[1..], rest);
      ReadMoreMembers(s, members[0], Join(MemberTexts(members[1..])) + (['}'] + rest), members[1..], rest);
      assert [members[0]] + members[1..] == members;
    } else {
      ReadLastMember(s, members[0], rest);
      assert [members[0]] == members;
    }
  }

  /** Reading inverts writing. */
  lemma RoundTrip(j: Json)
    ensures ReadValue(Text(j)) == Some((j, ""))
  {
    ReadText(j, "");
    assert Text(j) + "" == Text(j);
  }
}
