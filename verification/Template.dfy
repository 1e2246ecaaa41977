/** Replacement templates of `re.sub` for a pattern with one group: which texts are templates at all,
    and what they stand for. */
module Template {
  import opened Text

  /** A character, or what group 0 (the whole match) or group 1 took. */
  datatype Part = Char(c: char) | Whole | Group1

  predicate IsOctal(c: char) { '0' <= c <= '7' }

  predicate IsLetter(c: char) { 'a' <= c <= 'z' || 'A' <= c <= 'Z' }

  function OctalOf(digits: string): (n: nat)
    requires forall c :: c in digits ==> IsOctal(c)
  {
    if digits == "" then 0 else 8 * OctalOf(digits[..|digits| - 1]) + DigitValue(digits[|digits| - 1])
  }

  /** A part and how many characters of the template it takes. */
  datatype Token = Token(parts: seq<Part>, length: nat) | Bad

  function OctalChar(digits: string, length: nat): Token
    requires forall c :: c in digits ==> IsOctal(c)
  {
    var n := OctalOf(digits);
    if n > 255 then Bad else Token([Char(n as char)], length)
  }

  /** The pattern has one group. */
  function GroupStep(n: nat, length: nat): Token {
    if n == 0 then Token([Whole], length) else if n == 1 then Token([Group1], length) else Bad
  }

  function IndexOfChar(s: string, c: char): (i: nat)
    ensures i <= |s| && (i < |s| ==> s[i] == c)
  {
    if s == "" || s[0] == c then 0 else 1 + IndexOfChar(s[1..], c)
  }

  /** `\g<n>`; the pattern has no named groups. */
  function NamedStep(t: string): Token
    requires |t| >= 2
  {
    if |t| == 2 || t[2] != '<' then Bad else
      var name := t[3..][..IndexOfChar(t[3..], '>')];
      if 3 + |name| == |t| || name == "" || !(forall c :: c in name ==> IsDigit(c)) then Bad
      else GroupStep(NatOf(name), 4 + |name|)
  }

  predicate DigitAt(t: string, i: nat) { i < |t| && IsDigit(t[i]) }

  predicate OctalAt(t: string, i: nat) { i < |t| && IsOctal(t[i]) }

  /** A backslash and a digit: an octal escape or a group. */
  function DigitStep(t: string): Token
    requires |t| >= 2 && IsDigit(t[1])
  {
    if t[1] == '0' then
      if !OctalAt(t, 2) then OctalChar("0", 2)
      else if !OctalAt(t, 3) then OctalChar([t[2]], 3) else OctalChar([t[2], t[3]], 4)
    else if !DigitAt(t, 2) then GroupStep(DigitValue(t[1]), 2)
    else if OctalAt(t, 1) && OctalAt(t, 2) && OctalAt(t, 3) then OctalChar([t[1], t[2], t[3]], 4)
    else GroupStep(10 * DigitValue(t[1]) + DigitValue(t[2]), 3)
  }

  /** The escapes of a control character or of the backslash itself. */
  function Control(c: char): Option<char> {
    if c == 'a' then Some('\U{07}') else if c == 'b' then Some('\U{08}') else if c == 'f' then Some('\U{0c}')
    else if c == 'n' then Some('\n') else if c == 'r' then Some('\r') else if c == 't' then Some('\t')
    else if c == 'v' then Some('\U{0b}') else if c == '\\' then Some('\\') else None
  }

  /** What the front of a template says. */
  function FrontOf(t: string): (s: Token)
    requires t != ""
    ensures s.Token? ==> 1 <= s.length <= |t|
  {
    if t[0] != '\\' then Token([Char(t[0])], 1)
    else if |t| == 1 then Bad
    else if t[1] == 'g' then NamedStep(t)
    else if IsDigit(t[1]) then DigitStep(t)
    else if Control(t[1]).Some? then Token([Char(Control(t[1]).value)], 2)
    else if IsLetter(t[1]) then Bad
    else Token([Char('\\'), Char(t[1])], 2)
  }

  /** `None` where compiling the template raises. */
  function ParseTemplate(t: string): Option<seq<Part>> {
    if t == "" then Some([]) else
      var s := FrontOf(t);
      if s.Bad? then None else
        var rest := ParseTemplate(t[s.length..]);
        if rest.None? then None else Some(s.parts + rest.value)
  }

  /** What a template becomes at a match. */
  function Fill(parts: seq<Part>, whole: string, group1: string): string {
    if parts == [] then "" else
      (match parts[0]
       case Char(c) => [c]
       case Whole => whole
       case Group1 => group1) + Fill(parts[1..], whole, group1)
  }

  function Chars(t: string): seq<Part> { seq(|t|, i requires 0 <= i < |t| => Char(t[i])) }

  lemma FirstChar(t: string)
    requires t != "" && t[0] != '\\'
    ensures FrontOf(t) == Token([Char(t[0])], 1) && Chars(t) == [Char(t[0])] + Chars(t[1..])
  {
  }

  lemma FillChar(c: char, parts: seq<Part>, whole: string, group1: string)
    ensures Fill([Char(c)] + parts, whole, group1) == [c] + Fill(parts, whole, group1)
  {
    assert ([Char(c)] + parts)[1..] == parts;
  }

  /** A text without a backslash stands for itself. */
  lemma {:induction false} PlainTemplate(t: string, whole: string, group1: string)
    requires '\\' !in t
    ensures ParseTemplate(t) == Some(Chars(t)) && Fill(Chars(t), whole, group1) == t
  {
    if t != "" {
      hide FrontOf, Fill, Chars;
      assert t[0] in t && t == [t[0]] + t[1..];
      PlainTemplate(t[1..], whole, group1);
      FirstChar(t);
      FillChar(t[0], Chars(t[1..]), whole, group1);
    } else {
      assert Chars(t) == [];
    }
  }

  /** The template of a row write: group 1, a blank, the value, a blank and a bar. */
  function RowTemplate(value: string): string { "\\1 " + (value + " |") }

  predicate IsTemplate(value: string) { ParseTemplate(RowTemplate(value)).Some? }

  /** A value that the substitution either writes as it is or raises on. */
  predicate LiteralOrBad(value: string) { '\\' in value ==> !IsTemplate(value) }

  /** For a value without a backslash it is the label, the padded value and a bar. */
  lemma PlainRowTemplate(value: string, whole: string, group1: string)
    requires '\\' !in value
    ensures var parts := ParseTemplate(RowTemplate(value));
            parts.Some? && Fill(parts.value, whole, group1) == group1 + (" " + (value + " |"))
  {
    var t := RowTemplate(value);
    var tail := " " + (value + " |");
    PlainTemplate(tail, whole, group1);
    assert t[0] == '\\' && t[1] == '1' && t[2] == ' ' && t[2..] == tail;
    assert FrontOf(t) == Token([Group1], 2);
    assert ([Group1] + Chars(tail))[1..] == Chars(tail);
  }

  /** Characters without a backslash do not change whether the rest is a template. */
  lemma {:induction false} PlainFront(a: string, t: string)
    requires '\\' !in a
    ensures ParseTemplate(a + t).None? <==> ParseTemplate(t).None?
  {
    if a == "" {
      assert a + t == t;
    } else {
      var s := a + t;
      assert s[0] == a[0] && a[0] in a && s[1..] == a[1..] + t;
      PlainFront(a[1..], t);
      assert FrontOf(s) == Token([Char(a[0])], 1);
    }
  }

  /** A value with an unknown escape is no template, whatever stands around it. */
  lemma BadEscape(a: string, c: char, b: string)
    requires '\\' !in a && IsLetter(c) && Control(c).None? && c != 'g'
    ensures ParseTemplate(RowTemplate(a + ("\\" + ([c] + b)))).None?
  {
    var value := a + ("\\" + ([c] + b));
    var t, tail := RowTemplate(value), "\\" + ([c] + (b + " |"));
    assert t[0] == '\\' && t[1] == '1' && t[2] == ' ';
    assert t[2..] == (" " + a) + tail;
    assert FrontOf(t) == Token([Group1], 2);
    PlainFront(" " + a, tail);
    assert tail[0] == '\\' && tail[1] == c && FrontOf(tail) == Bad;
  }
}
