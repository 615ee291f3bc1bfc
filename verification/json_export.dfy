/**
  The JSON exporter of error records: literal pieces and escaped fields, appended in order.
  What it writes is the text of a tree, so a reader gets back every field.
 */
module JsonExport {
  import opened Core
  import opened JsonString
  import opened JsonDocument

  // ---------------------------------------------------------------- error records

  datatype ErrorRecord = ErrorRecord(stageKey: string, stageName: string, category: string, message: string)

  const ERROR_SCHEMA := "pb.error.v1"

  function CategoryName(c: Category): string {
    match c
    case StageFailureCategory => "stage_failure"
    case ExpectedErrorCategory => "expected_error"
    case ExceptionCategory => "exception"
    case ContractViolationCategory => "contract_violation"
  }

  function ToRecord(e: Error): ErrorRecord {
    ErrorRecord(e.stage.key, e.stage.name, CategoryName(e.category), e.message)
  }

  /** The member names of the record, outermost first. */
  const ERROR_NAMES := ["schema_version", "stage", "key", "name", "category", "message"]

  function RecordTree(r: ErrorRecord, names: seq<string>): Json
    requires |names| == 6
  {
    var stage := Obj([Member(names[2], Str(r.stageKey)), Member(names[3], Str(r.stageName))]);
    Obj([Member(names[0], Str(ERROR_SCHEMA)), Member(names[1], stage),
         Member(names[4], Str(r.category)), Member(names[5], Str(r.message))])
  }

  function ErrorJson(r: ErrorRecord): Json {
    RecordTree(r, ERROR_NAMES)
  }

  predicate IsPlain(s: string) {
    forall i :: 0 <= i < |s| ==> ShortEscape(s[i]).None? && !IsControl(s[i])
  }

  lemma {:induction false} PlainQuote(s: string)
    requires IsPlain(s)
    ensures EscapeAll(s) == s && Quote(s) == ['\"'] + s + ['\"']
  {
    if s != "" {
      PlainQuote(s[..|s| - 1]);
      assert s == s[..|s| - 1] + [s[|s| - 1]];
    }
  }

  lemma {:induction false} MemberTextsMore(members: seq<Member>, m: Member)
    ensures MemberTexts(members + [m]) == MemberTexts(members) + [MemberText(m)]
  {
    assert (members + [m])[..|members|] == members;
  }

  lemma JoinMore(texts: seq<string>, text: string)
    ensures Join(texts + [text]) == if texts == [] then text else Join(texts) + [','] + text
  {
    assert (texts + [text])[..|texts|] == texts;
  }

  lemma JoinMembersMore(members: seq<Member>, m: Member)
    ensures Join(MemberTexts(members + [m]))
            == if members == [] then MemberText(m) else Join(MemberTexts(members)) + [','] + MemberText(m)
  {
    MemberTextsMore(members, m);
    JoinMore(MemberTexts(members), MemberText(m));
  }

  lemma JoinTwo(a: Member, b: Member)
    ensures Join(MemberTexts([a, b])) == MemberText(a) + [','] + MemberText(b)
  {
    JoinMembersMore([], a);
    JoinMembersMore([a], b);
    assert [] + [a] == [a] && [a] + [b] == [a, b];
  }

  lemma JoinFour(a: Member, b: Member, c: Member, d: Member)
    ensures Join(MemberTexts([a, b, c, d]))
            == MemberText(a) + [','] + MemberText(b) + [','] + MemberText(c) + [','] + MemberText(d)
  {
    JoinTwo(a, b);
    JoinMembersMore([a, b], c);
    JoinMembersMore([a, b, c], d);
    assert [a, b] + [c] == [a, b, c] && [a, b, c] + [d] == [a, b, c, d];
  }

  /** A plain member name as the exporters lay it out. */
  function Key(name: string): string {
    ['\"'] + name + ['\"'] + [':']
  }

  lemma MemberLiteral(name: string, value: Json)
    requires IsPlain(name)
    ensures MemberText(Member(name, value)) == Key(name) + Text(value)
  {
    PlainQuote(name);
  }

  /** A literal piece of layout followed by an escaped value. */
  function Field(layout: string, value: string): string {
    layout + Quote(value)
  }

  method AppendField(out: TextBuffer, layout: string, value: string)
    modifies out
    ensures out.text == old(out.text) + Field(layout, value)
  {
    out.Append(layout);
    AppendJsonString(out, value);
  }

  /** The literal pieces of the record's layout, in order. */
  const ERROR_LAYOUT := ["{\"schema_version\":", ",\"stage\":{\"key\":", ",\"name\":", "},\"category\":",
                         ",\"message\":", "}"]

  /** The record's text as the exporter lays it out. */
  function RecordText(r: ErrorRecord, layout: seq<string>): string
    requires |layout| == 6
  {
    Field(layout[0], ERROR_SCHEMA) + Field(layout[1], r.stageKey) + Field(layout[2], r.stageName)
    + Field(layout[3], r.category) + Field(layout[4], r.message) + layout[5]
  }

  method WriteRecord(r: ErrorRecord, layout: seq<string>) returns (text: string)
    requires |layout| == 6
    ensures text == RecordText(r, layout)
  {
    var out := new TextBuffer();
    AppendField(out, layout[0], ERROR_SCHEMA);
    assert out.text == Field(layout[0], ERROR_SCHEMA);
    AppendField(out, layout[1], r.stageKey);
    AppendField(out, layout[2], r.stageName);
    AppendField(out, layout[3], r.category);
    AppendField(out, layout[4], r.message);
    out.Append(layout[5]);
    text := out.text;
  }

  /** How a layout cuts the text of the record's tree. */
  predicate Cuts(layout: seq<string>, names: seq<string>)
    requires |layout| == |names| == 6
  {
    && layout[0] == ['{'] + Key(names[0])
    && layout[1] == [','] + Key(names[1]) + ['{'] + Key(names[2])
    && layout[2] == [','] + Key(names[3])
    && layout[3] == ['}'] + [','] + Key(names[4])
    && layout[4] == [','] + Key(names[5])
    && layout[5] == ['}']
  }

  lemma Regroup(o: string, c: string, z: string, v: string, s: string, k: string, n: string, t: string, m: string)
    ensures o + (v + c + (s + (o + (k + c + n) + z)) + c + t + c + m) + z
            == (o + v) + (c + s + o + k) + (c + n) + (z + c + t) + (c + m) + z
  {
  }

  /** The text of one member of the record. */
  function Piece(name: string, value: string): string {
    Key(name) + Quote(value)
  }

  lemma TreeText(r: ErrorRecord, names: seq<string>)
    requires |names| == 6 && forall i :: 0 <= i < 6 ==> IsPlain(names[i])
    ensures Text(RecordTree(r, names))
            == ['{'] + (Piece(names[0], ERROR_SCHEMA) + [',']
                        + (Key(names[1]) + (['{'] + (Piece(names[2], r.stageKey) + [','] + Piece(names[3], r.stageName))
                                            + ['}']))
                        + [','] + Piece(names[4], r.category) + [','] + Piece(names[5], r.message)) + ['}']
  {
    var key, name := Member(names[2], Str(r.stageKey)), Member(names[3], Str(r.stageName));
    var version, stage := Member(names[0], Str(ERROR_SCHEMA)), Member(names[1], Obj([key, name]));
    var category, message := Member(names[4], Str(r.category)), Member(names[5], Str(r.message));
    JoinFour(version, stage, category, message);
    JoinTwo(key, name);
    MemberLiteral(version.key, version.value);
    MemberLiteral(stage.key, stage.value);
    MemberLiteral(key.key, key.value);
    MemberLiteral(name.key, name.value);
    MemberLiteral(category.key, category.value);
    MemberLiteral(message.key, message.value);
  }

  lemma LayoutText(r: ErrorRecord, layout: seq<string>, names: seq<string>)
    requires |layout| == |names| == 6 && Cuts(layout, names)
    ensures RecordText(r, layout)
            == (['{'] + Piece(names[0], ERROR_SCHEMA))
               + ([','] + Key(names[1]) + ['{'] + Piece(names[2], r.stageKey)) + ([','] + Piece(names[3], r.stageName))
               + (['}'] + [','] + Piece(names[4], r.category)) + ([','] + Piece(names[5], r.message)) + ['}']
  {
    assert Field(layout[0], ERROR_SCHEMA) == ['{'] + Piece(names[0], ERROR_SCHEMA);
    assert Field(layout[1], r.stageKey) == [','] + Key(names[1]) + ['{'] + Piece(names[2], r.stageKey);
    assert Field(layout[2], r.stageName) == [','] + Piece(names[3], r.stageName);
    assert Field(layout[3], r.category) == ['}'] + [','] + Piece(names[4], r.category);
    assert Field(layout[4], r.message) == [','] + Piece(names[5], r.message);
  }

  lemma LayoutMeans(r: ErrorRecord, layout: seq<string>, names: seq<string>)
    requires |layout| == |names| == 6 && Cuts(layout, names) && forall i :: 0 <= i < 6 ==> IsPlain(names[i])
    ensures RecordText(r, layout) == Text(RecordTree(r, names))
  {
    TreeText(r, names);
    LayoutText(r, layout, names);
    Regroup(['{'], [','], ['}'], Piece(names[0], ERROR_SCHEMA), Key(names[1]), Piece(names[2], r.stageKey),
            Piece(names[3], r.stageName), Piece(names[4], r.category), Piece(names[5], r.message));
  }

  lemma LayoutCuts()
    ensures Cuts(ERROR_LAYOUT, ERROR_NAMES)
  {
    assert Key("stage") == ['\"', 's', 't', 'a', 'g', 'e', '\"', ':'];
    assert Key("key") == ['\"', 'k', 'e', 'y', '\"', ':'];
  }

  lemma NamesArePlain()
    ensures forall i :: 0 <= i < 6 ==> IsPlain(ERROR_NAMES[i])
    ensures forall i, j :: 0 <= i < j < 6 ==> ERROR_NAMES[i] != ERROR_NAMES[j]
  {
    assert |ERROR_NAMES[0]| == 14 && |ERROR_NAMES[1]| == 5 && |ERROR_NAMES[2]| == 3;
    assert |ERROR_NAMES[3]| == 4 && |ERROR_NAMES[4]| == 8 && |ERROR_NAMES[5]| == 7;
  }

  /** The exporter of error records writes the text of the record's tree. */
  method ErrorToJson(r: ErrorRecord) returns (text: string)
    ensures text == Text(ErrorJson(r))
  {
    LayoutCuts();
    NamesArePlain();
    LayoutMeans(r, ERROR_LAYOUT, ERROR_NAMES);
    text := WriteRecord(r, ERROR_LAYOUT);
  }

  // ---------------------------------------------------------------- reading error records

  function Lookup(members: seq<Member>, name: string): Option<Json> {
    if members == [] then None
    else if members[0].key == name then Some(members[0].value)
    else Lookup(members[1..], name)
  }

  function LookupText(members: seq<Member>, name: string): Option<string> {
    var value := Lookup(members, name);
    if value.Some? && value.value.Str? then Some(value.value.s) else None
  }

  /** The record a tree holds under some member names. */
  function RecordFrom(j: Json, names: seq<string>): Option<ErrorRecord>
    requires |names| == 6
  {
    if !j.Obj? then None
    else
      var stage := Lookup(j.members, names[1]);
      if stage.None? || !stage.value.Obj? then None
      else
        var key, name := LookupText(stage.value.members, names[2]), LookupText(stage.value.members, names[3]);
        var category, message := LookupText(j.members, names[4]), LookupText(j.members, names[5]);
        if key.None? || name.None? || category.None? || message.None? then None
        else Some(ErrorRecord(key.value, name.value, category.value, message.value))
  }

  /** A member is found behind members of other names. */
  lemma {:induction false} LookupFinds(members: seq<Member>, i: nat)
    requires i < |members| && forall j :: 0 <= j < i ==> members[j].key != members[i].key
    ensures Lookup(members, members[i].key) == Some(members[i].value)
  {
    if i > 0 {
      LookupFinds(members[1..], i - 1);
    }
  }

  lemma RecordFromTree(r: ErrorRecord, names: seq<string>)
    requires |names| == 6 && forall i, j :: 0 <= i < j < 6 ==> names[i] != names[j]
    ensures RecordFrom(RecordTree(r, names), names) == Some(r)
  {
    var j := RecordTree(r, names);
    LookupFinds(j.members, 1);
    LookupFinds(j.members, 2);
    LookupFinds(j.members, 3);
    LookupFinds(j.members[1].value.members, 0);
    LookupFinds(j.members[1].value.members, 1);
  }

  /** An exported error record is read back to the same four fields. */
  lemma ErrorRecordRoundTrip(r: ErrorRecord)
    ensures var read := ReadValue(Text(ErrorJson(r)));
            read.Some? && read.value.1 == "" && RecordFrom(read.value.0, ERROR_NAMES) == Some(r)
  {
    RoundTrip(ErrorJson(r));
    NamesArePlain();
    RecordFromTree(r, ERROR_NAMES);
  }

  /** The record keeps the whole error: different errors have different records. */
  lemma ToRecordInjective(a: Error, b: Error)
    requires ToRecord(a) == ToRecord(b)
    ensures a == b
  {
    assert CategoryName(a.category)[0] == CategoryName(b.category)[0];
    assert CategoryName(a.category)[2] == CategoryName(b.category)[2];
  }
}
