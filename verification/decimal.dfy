/**
  Decimal rendering of indices and the identifier strings that are built from it
  into exactly sized character buffers.
 */
module Decimal {

  const SIZE_LIMIT: nat := 0x1_0000_0000_0000_0000

  function Digit(d: nat): char
    requires d < 10
  {
    (('0' as int) + d) as char
  }

  function Render(n: nat): string {
    if n < 10 then [Digit(n)] else Render(n / 10) + [Digit(n % 10)]
  }

  predicate IsDigit(c: char) {
    '0' <= c <= '9'
  }

  function DigitValue(c: char): nat
    requires IsDigit(c)
  {
    (c as int) - ('0' as int)
  }

  /** The number a decimal text stands for, or -1 when a character is no digit. */
  function Read(text: string): int {
    if text == [] then 0
    else
      var last := text[|text| - 1];
      var rest := Read(text[..|text| - 1]);
      if rest < 0 || !IsDigit(last) then -1 else 10 * rest + DigitValue(last)
  }

  lemma {:induction false} ReadRender(n: nat)
    ensures Read(Render(n)) == n
  {
    var text := Render(n);
    if n < 10 {
      assert text[..0] == [];
      assert Read(text[..0]) == 0;
    } else {
      assert text[..|text| - 1] == Render(n / 10);
      ReadRender(n / 10);
    }
  }

  lemma {:induction false} RenderIsDigits(n: nat)
    ensures |Render(n)| > 0
    ensures forall i :: 0 <= i < |Render(n)| ==> IsDigit(Render(n)[i])
  {
    if n >= 10 {
      RenderIsDigits(n / 10);
    }
  }

  function Power(k: nat): nat {
    if k == 0 then 1 else 10 * Power(k - 1)
  }

  /** A number below 10^k has at most k digits. */
  lemma {:induction false} RenderLength(n: nat, k: nat)
    requires 0 < k && n < Power(k)
    ensures |Render(n)| <= k
  {
    if n >= 10 {
      assert k == 1 ==> Power(k) == 10;
      RenderLength(n / 10, k - 1);
    }
  }

  /** The 20-character digit scratch array is large enough for every 64-bit index. */
  lemma RenderFitsScratch(n: nat)
    requires n < SIZE_LIMIT
    ensures |Render(n)| <= 20
  {
    assert Power(4) == 10000 by { assert Power(2) == 100; }
    assert Power(8) == 100000000 by { assert Power(6) == 1000000; }
    assert Power(12) == 1000000000000 by { assert Power(10) == 10000000000; }
    assert Power(16) == 10000000000000000 by { assert Power(14) == 100000000000000; }
    assert Power(20) == 100000000000000000000 by { assert Power(18) == 1000000000000000000; }
    RenderLength(n, 20);
  }

  /** Counts decimal digits by repeated division. */
  method DecimalDigits(value: nat) returns (digits: nat)
    ensures digits == |Render(value)|
  {
    digits := 1;
    var temp := value;
    while temp >= 10
      invariant digits - 1 + |Render(temp)| == |Render(value)|
    {
      digits := digits + 1;
      temp := temp / 10;
    }
  }

  /** A character buffer with a write position. */
  class ConstevalBuffer {
    const data: array<char>
    var pos: nat

    ghost predicate Valid()
      reads this
    {
      pos <= data.Length
    }

    ghost function View(): string
      requires Valid()
      reads this, data
    {
      data[..pos]
    }

    constructor (size: nat)
      ensures Valid() && fresh(data) && data.Length == size && View() == ""
      ensures pos == 0
    {
      data := new char[size];
      pos := 0;
    }

    method AppendLiteral(text: string)
      requires Valid() && pos + |text| <= data.Length
      modifies this, data
      ensures Valid() && View() == old(View()) + text && pos == old(pos) + |text|
    {
      for i := 0 to |text|
        invariant Valid() && pos == old(pos) + i
        invariant View() == old(View()) + text[..i]
      {
        data[pos] := text[i];
        pos := pos + 1;
        assert text[..i + 1] == text[..i] + [text[i]];
      }
      assert text[..|text|] == text;
    }

    /** The decimal digits of a value, last one first, in the scratch array. */
    method CollectDigits(value: nat) returns (digits: array<char>, len: nat)
      requires value < SIZE_LIMIT
      ensures fresh(digits) && digits.Length == 20 && len == |Render(value)| <= 20
      ensures forall i :: 0 <= i < len ==> digits[i] == Render(value)[len - 1 - i]
    {
      RenderFitsScratch(value);
      digits := new char[20];
      digits[0] := Digit(value % 10);
      len := 1;
      var rest: nat := value / 10;
      ghost var text := Render(value);
      while rest != 0
        invariant 1 <= len <= |text| <= 20
        invariant rest != 0 ==> len < |text| && Render(rest) == text[..|text| - len]
        invariant rest == 0 ==> len == |text|
        invariant forall i :: 0 <= i < len ==> digits[i] == text[|text| - 1 - i]
        decreases rest
      {
        ghost var before := Render(rest);
        assert before[|before| - 1] == Digit(rest % 10);
        assert text[|text| - 1 - len] == before[|before| - 1];
        digits[len] := Digit(rest % 10);
        if rest >= 10 {
          assert before[..|before| - 1] == Render(rest / 10);
          assert text[..|text| - (len + 1)] == before[..|before| - 1];
        }
        len := len + 1;
        rest := rest / 10;
      }
    }

    method AppendDecimal(value: nat)
      requires Valid() && value < SIZE_LIMIT && pos + |Render(value)| <= data.Length
      modifies this, data
      ensures Valid() && View() == old(View()) + Render(value) && pos == old(pos) + |Render(value)|
    {
      ghost var text := Render(value);
      var digits, len := CollectDigits(value);
      assert text[..0] == [];
      while len > 0
        invariant 0 <= len <= |text|
        invariant Valid() && pos == old(pos) + |text| - len
        invariant View() == old(View()) + text[..|text| - len]
        invariant forall i :: 0 <= i < len ==> digits[i] == text[|text| - 1 - i]
      {
        len := len - 1;
        data[pos] := digits[len];
        pos := pos + 1;
        assert text[..|text| - len] == text[..|text| - len - 1] + [text[|text| - 1 - len]];
      }
      assert text[..|text|] == text;
    }

    method NullTerminate()
      requires Valid() && pos < data.Length
      modifies data
      ensures View() == old(View()) && data[pos] == '\0'
    {
      data[pos] := '\0';
    }
  }

  /** The three identifiers of one branch case: the case itself, its predicate node and its stage node. */
  datatype Role = WholeCase | PredicateNode | StageNode

  function Suffix(role: Role): string {
    match role
    case WholeCase => ""
    case PredicateNode => ".predicate"
    case StageNode => ".stage"
  }

  function CaseId(branch: nat, caseIndex: nat, role: Role): string {
    "branch." + Render(branch) + ".case." + Render(caseIndex) + Suffix(role)
  }

  /** Three texts with two numbers between them. */
  function Composed(first: string, left: nat, middle: string, right: nat, last: string): string {
    first + Render(left) + middle + Render(right) + last
  }

  method FillBuffer(buffer: ConstevalBuffer, first: string, left: nat, middle: string, right: nat, last: string)
    requires buffer.Valid() && buffer.View() == "" && left < SIZE_LIMIT && right < SIZE_LIMIT
    requires buffer.data.Length == |Composed(first, left, middle, right, last)| + 1
    modifies buffer, buffer.data
    ensures buffer.Valid() && buffer.View() == Composed(first, left, middle, right, last)
  {
    buffer.AppendLiteral(first);
    assert buffer.View() == first;
    buffer.AppendDecimal(left);
    buffer.AppendLiteral(middle);
    buffer.AppendDecimal(right);
    buffer.AppendLiteral(last);
  }

  /** The three texts and two numbers are written into a buffer sized by counting digits. */
  method Compose(first: string, left: nat, middle: string, right: nat, last: string) returns (storage: array<char>)
    requires left < SIZE_LIMIT && right < SIZE_LIMIT
    ensures fresh(storage)
    ensures storage[..] == Composed(first, left, middle, right, last) + ['\0']
  {
    var leftDigits := DecimalDigits(left);
    var rightDigits := DecimalDigits(right);
    var total := |first| + leftDigits + |middle| + rightDigits + |last|;
    var buffer := new ConstevalBuffer(total + 1);
    FillBuffer(buffer, first, left, middle, right, last);
    buffer.NullTerminate();
    storage := buffer.data;
    assert storage[..] == buffer.View() + [storage[buffer.pos]];
  }

  /** The storage of an identifier is filled exactly: the text and one terminator. */
  method MakeIdStorage(branch: nat, caseIndex: nat, role: Role) returns (storage: array<char>)
    requires branch < SIZE_LIMIT && caseIndex < SIZE_LIMIT
    ensures fresh(storage) && storage[..] == CaseId(branch, caseIndex, role) + ['\0']
  {
    storage := Compose("branch.", branch, ".case.", caseIndex, Suffix(role));
  }

  /** Two texts that agree up to the first non-digit agree on their leading digits and on what follows. */
  lemma {:induction false} SplitAtNonDigit(a: string, x: string, b: string, y: string)
    requires forall i :: 0 <= i < |a| ==> IsDigit(a[i])
    requires forall i :: 0 <= i < |b| ==> IsDigit(b[i])
    requires x == [] || !IsDigit(x[0])
    requires y == [] || !IsDigit(y[0])
    requires a + x == b + y
    ensures a == b && x == y
  {
    assert forall i :: 0 <= i < |a| ==> (a + x)[i] == a[i];
    assert forall i :: 0 <= i < |b| ==> (b + y)[i] == b[i];
    assert x != [] ==> (a + x)[|a|] == x[0];
    assert y != [] ==> (b + y)[|b|] == y[0];
    assert |a + x| == |b + y|;
    assert |a| == |b|;
    assert a == (a + x)[..|a|] && b == (b + y)[..|b|];
    assert x == (a + x)[|a|..] && y == (b + y)[|b|..];
  }

  lemma SuffixInjective(r1: Role, r2: Role)
    requires Suffix(r1) == Suffix(r2)
    ensures r1 == r2
  {
    assert |Suffix(PredicateNode)| == 10 && |Suffix(StageNode)| == 6;
  }

  function CaseTail(caseIndex: nat, role: Role): string {
    ".case." + (Render(caseIndex) + Suffix(role))
  }

  lemma CaseIdParts(branch: nat, caseIndex: nat, role: Role)
    ensures CaseId(branch, caseIndex, role) == "branch." + (Render(branch) + CaseTail(caseIndex, role))
  {
  }

  lemma CaseTailInjective(c1: nat, r1: Role, c2: nat, r2: Role)
    requires CaseTail(c1, r1) == CaseTail(c2, r2)
    ensures c1 == c2 && r1 == r2
  {
    assert CaseTail(c1, r1)[6..] == Render(c1) + Suffix(r1);
    assert CaseTail(c2, r2)[6..] == Render(c2) + Suffix(r2);
    RenderIsDigits(c1);
    RenderIsDigits(c2);
    SplitAtNonDigit(Render(c1), Suffix(r1), Render(c2), Suffix(r2));
    ReadRender(c1);
    ReadRender(c2);
    SuffixInjective(r1, r2);
  }

  /** Identifiers never collide: not across branches, cases or roles. */
  lemma CaseIdInjective(b1: nat, c1: nat, r1: Role, b2: nat, c2: nat, r2: Role)
    requires CaseId(b1, c1, r1) == CaseId(b2, c2, r2)
    ensures b1 == b2 && c1 == c2 && r1 == r2
  {
    CaseIdParts(b1, c1, r1);
    CaseIdParts(b2, c2, r2);
    var rest1, rest2 := Render(b1) + CaseTail(c1, r1), Render(b2) + CaseTail(c2, r2);
    assert ("branch." + rest1)[7..] == rest1;
    assert ("branch." + rest2)[7..] == rest2;
    RenderIsDigits(b1);
    RenderIsDigits(b2);
    SplitAtNonDigit(Render(b1), CaseTail(c1, r1), Render(b2), CaseTail(c2, r2));
    ReadRender(b1);
    ReadRender(b2);
    CaseTailInjective(c1, r1, c2, r2);
  }
}
