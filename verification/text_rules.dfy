/**
  Exported texts by their rules: digits, escapes, category names, identifiers and records,
  spelled out character by character.
 */
module TextRules {
  import opened Core
  import opened JsonString
  import opened JsonDocument
  import opened JsonExport
  import opened FanIn

  import D = Decimal
  import DotText
  import Dot
  import Routes
  import FanInEnvelope

  // ---------------------------------------------------------------- numbers

  /** Every number's text is that of its tenth part followed by its last digit. */
  lemma DecimalByRules(n: nat, d: nat)
    requires d < 10
    ensures n > 0 ==> D.Render(10 * n + d) == D.Render(n) + D.Render(d)
    ensures D.Render(d) == ["0123456789"[d]]
  {
    assert "0123456789"[d] == D.Digit(d) by {
      DigitTable(d);
    }
  }

  lemma DigitTable(d: nat)
    requires d < 10
    ensures "0123456789"[d] as int == '0' as int + d
  {
  }

  // ---------------------------------------------------------------- escapes

  /** The escapes of JSON strings; bytes from the space on, other than the two special ones, stand for themselves. */
  lemma JsonEscapesByRules(c: char)
    ensures Escape('\"') == ['\\', '\"'] && Escape('\\') == ['\\', '\\']
    ensures Escape('\n') == ['\\', 'n'] && Escape('\r') == ['\\', 'r'] && Escape('\t') == ['\\', 't']
    ensures Escape(8 as char) == ['\\', 'b'] && Escape(12 as char) == ['\\', 'f']
    ensures c >= ' ' && c != '\"' && c != '\\' ==> Escape(c) == [c]
  {
  }

  /** Every other control byte is written with its two hexadecimal digits. */
  lemma ControlEscapesByRules(c: char)
    requires (c as int) < 0x20 && c !in "\n\r\t" && c as int != 8 && c as int != 12
    ensures Escape(c) == ['\\', 'u', '0', '0', "01"[(c as int) / 16], "0123456789abcdef"[(c as int) % 16]]
  {
    assert c != '\n' && c != '\r' && c != '\t' by {
      assert "\n\r\t"[0] == '\n' && "\n\r\t"[1] == '\r' && "\n\r\t"[2] == '\t';
    }
    HexTable((c as int) / 16);
    HexTable((c as int) % 16);
  }

  lemma HexTable(n: nat)
    requires n < 16
    ensures "0123456789abcdef"[n] == HexDigit(n) && (n < 2 ==> "01"[n] == HexDigit(n))
  {
  }

  /** A quoted text is its escaped characters, one after another, between quotation marks. */
  lemma QuoteByRules(s: string, c: char)
    ensures Quote("") == "\"\"" && EscapeAll(s + [c]) == EscapeAll(s) + Escape(c)
    ensures Quote(s) == ['\"'] + EscapeAll(s) + ['\"']
  {
    assert (s + [c])[..|s|] == s;
  }

  /** Labels escape five characters and copy all others. */
  lemma LabelEscapesByRules(c: char)
    ensures DotText.EscapeLabelChar('\"') == ['\\', '\"'] && DotText.EscapeLabelChar('\\') == ['\\', '\\']
    ensures DotText.EscapeLabelChar('\n') == ['\\', 'n'] && DotText.EscapeLabelChar('\r') == ['\\', 'r']
    ensures DotText.EscapeLabelChar('\t') == ['\\', 't']
    ensures c !in ['\"', '\\', '\n', '\r', '\t'] ==> DotText.EscapeLabelChar(c) == [c]
  {
    var special := ['\"', '\\', '\n', '\r', '\t'];
    assert special[0] in special && special[1] in special && special[2] in special && special[3] in special
           && special[4] in special;
  }

  /** The text of a list: its elements with commas between them, in brackets. */
  lemma ListTextByRules(items: seq<Json>, item: Json)
    ensures Text(Arr([])) == ['[', ']'] && Text(Arr([item])) == ['['] + Text(item) + [']']
    ensures items != [] ==> Text(Arr(items + [item])) == Opened(Text(Arr(items))) + [','] + Text(item) + [']']
  {
    assert [item][..0] == [];
    JoinMore(Texts(items), Text(item));
    assert (items + [item])[..|items|] == items;
    Reopened('[', Join(Texts(items)), Text(item), ']');
  }

  /** The text of an object: its members, each a quoted name, a colon and a value, with commas between them. */
  lemma ObjectTextByRules(members: seq<Member>, m: Member)
    ensures Text(Obj([])) == ['{', '}'] && MemberText(m) == Quote(m.key) + [':'] + Text(m.value)
    ensures Text(Obj([m])) == ['{'] + MemberText(m) + ['}']
    ensures members != [] ==>
              Text(Obj(members + [m])) == Opened(Text(Obj(members))) + [','] + MemberText(m) + ['}']
  {
    assert [m][..0] == [];
    JoinMembersMore(members, m);
    Reopened('{', Join(MemberTexts(members)), MemberText(m), '}');
  }

  lemma Reopened(open: char, inner: string, more: string, close: char)
    ensures Opened([open] + inner + [close]) == [open] + inner
    ensures [open] + (inner + [','] + more) + [close] == [open] + inner + [','] + more + [close]
  {
  }

  /** A bracketed text without its closing bracket. */
  function Opened(text: string): string
    requires text != ""
  {
    text[..|text| - 1]
  }

  // ---------------------------------------------------------------- error records

  /** The name each category is exported under. */
  lemma CategoryNamesByRules()
    ensures CategoryName(StageFailureCategory) == "stage_failure"
    ensures CategoryName(ExpectedErrorCategory) == "expected_error"
    ensures CategoryName(ExceptionCategory) == "exception"
    ensures CategoryName(ContractViolationCategory) == "contract_violation"
  {
  }

  function CategoryText(e: Error): string {
    match e.category
    case StageFailureCategory => "stage_failure"
    case ExpectedErrorCategory => "expected_error"
    case ExceptionCategory => "exception"
    case ContractViolationCategory => "contract_violation"
  }

  predicate HasText(members: seq<Member>, name: string, text: string) {
    Lookup(members, name) == Some(Str(text))
  }

  /** What a reader finds in an exported error, by the format's names. */
  predicate ErrorEntry(e: Error, j: Json) {
    && j.Obj?
    && HasText(j.members, "schema_version", "pb.error.v1")
    && HasText(j.members, "category", CategoryText(e))
    && HasText(j.members, "message", e.message)
    && var stage := Lookup(j.members, "stage");
       && stage.Some? && stage.value.Obj?
       && HasText(stage.value.members, "key", e.stage.key)
       && HasText(stage.value.members, "name", e.stage.name)
  }

  /** Main result on exported errors: a reader finds every field of the error under its name. */
  lemma ExportedErrorReadsBack(e: Error)
    ensures var read := ReadValue(Text(ErrorJson(ToRecord(e))));
            read.Some? && read.value.1 == "" && ErrorEntry(e, read.value.0)
  {
    var j := ErrorJson(ToRecord(e));
    RoundTrip(j);
    NamesArePlain();
    CategoryNamesByRules();
    LookupFinds(j.members, 0);
    LookupFinds(j.members, 1);
    LookupFinds(j.members, 2);
    LookupFinds(j.members, 3);
    LookupFinds(j.members[1].value.members, 0);
    LookupFinds(j.members[1].value.members, 1);
  }

  /** Every failed slot is recorded under a made-up identity, as a stage failure with the slot's message. */
  lemma FailureRecordsByRules(slots: seq<Slot>, r: FanInEnvelope.CaseError)
    requires r in FanInEnvelope.FailureRecords(slots)
    ensures r.caseIndex < |slots| && slots[r.caseIndex].state == Failed
    ensures r.stage == r.diagnostic.stage
            == StageId("fan_in.case." + D.Render(r.caseIndex), "case " + D.Render(r.caseIndex))
    ensures r.diagnostic.category == StageFailureCategory
    ensures slots[r.caseIndex].diagnostic.Some? ==> r.diagnostic.message == slots[r.caseIndex].diagnostic.value
    ensures slots[r.caseIndex].diagnostic.None? ==> r.diagnostic.message == ""
  {
    FanInEnvelope.EnvelopeIsExact(slots);
  }

  // ---------------------------------------------------------------- names in the drawn graph

  lemma NodeNamesByRules(i: nat, k: nat)
    ensures Routes.NodeName(Dot.Input) == "from_input" && Routes.NodeName(Dot.Output) == "to_output"
    ensures Routes.NodeName(Dot.StageNode(i)) == "stage_" + D.Render(i)
    ensures Routes.NodeName(Dot.BranchNode(i)) == "branch_" + D.Render(i)
    ensures Routes.NodeName(Dot.PredicateNode(i, k)) == "pred_" + D.Render(i) + "_" + D.Render(k)
    ensures Routes.NodeName(Dot.CaseNode(i, k)) == "case_" + D.Render(i) + "_" + D.Render(k)
  {
  }
}
