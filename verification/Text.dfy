/** Strings as the harness's file formats use them: whitespace, trimming,
    splitting on a separator, lines, and decimal numerals. */
module Text {

  datatype Option<+T> = None | Some(value: T)

  /** The characters that `str.strip` removes and `\s` matches. */
  predicate IsSpace(c: char) {
    || '\t' <= c <= '\r' || '\U{1c}' <= c <= ' '
    || c == '\U{85}' || c == '\U{a0}' || c == '\U{1680}' || '\U{2000}' <= c <= '\U{200a}'
    || c == '\U{2028}' || c == '\U{2029}' || c == '\U{202f}' || c == '\U{205f}' || c == '\U{3000}'
  }

  predicate AllSpace(s: string) { forall i :: 0 <= i < |s| ==> IsSpace(s[i]) }

  predicate IsDigit(c: char) { '0' <= c <= '9' }

  predicate IsWordChar(c: char) {
    'a' <= c <= 'z' || 'A' <= c <= 'Z' || IsDigit(c) || c == '_'
  }

  /** Case folding, of ASCII letters. */
  function LowerChar(c: char): char {
    if 'A' <= c <= 'Z' then (c as int - 'A' as int + 'a' as int) as char else c
  }

  function Lower(s: string): string { seq(|s|, i requires 0 <= i < |s| => LowerChar(s[i])) }

  lemma LowerAt(s: string)
    ensures |Lower(s)| == |s| && forall i :: 0 <= i < |s| ==> Lower(s)[i] == LowerChar(s[i])
  {
  }

  predicate Trimmed(s: string) { s == [] || (!IsSpace(s[0]) && !IsSpace(s[|s| - 1])) }

  /** No line ending of a text file stands inside. */
  predicate OneLine(s: string) { '\n' !in s && '\r' !in s }

  function StripLeft(s: string): string { if s == [] || !IsSpace(s[0]) then s else StripLeft(s[1..]) }

  function StripRight(s: string): string { if s == [] || !IsSpace(s[|s| - 1]) then s else StripRight(s[..|s| - 1]) }

  /** `str.strip` */
  function Strip(s: string): string { StripRight(StripLeft(s)) }

  lemma {:induction false} StripLeftIs(s: string)
    ensures var r := StripLeft(s); (r == [] || !IsSpace(r[0])) && forall c :: c in r ==> c in s
  {
    if s != [] && IsSpace(s[0]) { StripLeftIs(s[1..]); }
  }

  lemma {:induction false} StripRightIs(s: string)
    ensures var r := StripRight(s); (r == [] || !IsSpace(r[|r| - 1])) && r <= s
  {
    if s != [] && IsSpace(s[|s| - 1]) { StripRightIs(s[..|s| - 1]); }
  }

  lemma StripIs(s: string)
    ensures Trimmed(Strip(s)) && forall c :: c in Strip(s) ==> c in s
  {
    StripLeftIs(s);
    StripRightIs(StripLeft(s));
  }

  /** A trimmed core between two runs of blanks is what trimming leaves. */
  lemma StripPadded(a: string, x: string, b: string)
    requires AllSpace(a) && AllSpace(b) && Trimmed(x)
    ensures Strip(a + x + b) == x
  {
    if x == [] {
      assert AllSpace(a + x + b);
      StripAllSpace(a + x + b);
    } else {
      StripLeftPadded(a, x + b);
      assert a + (x + b) == a + x + b;
      StripRightPadded(x, b);
    }
  }

  lemma {:induction false} StripLeftPadded(a: string, x: string)
    requires AllSpace(a) && (x == [] || !IsSpace(x[0]))
    ensures StripLeft(a + x) == x
  {
    if a == [] {
      assert a + x == x;
    } else {
      assert (a + x)[1..] == a[1..] + x;
      StripLeftPadded(a[1..], x);
    }
  }

  lemma {:induction false} StripRightPadded(x: string, b: string)
    requires AllSpace(b) && (x == [] || !IsSpace(x[|x| - 1]))
    ensures StripRight(x + b) == x
  {
    if b == [] {
      assert x + b == x;
    } else {
      assert (x + b)[..|x + b| - 1] == x + b[..|b| - 1];
      StripRightPadded(x, b[..|b| - 1]);
    }
  }

  lemma StripAllSpace(s: string)
    requires AllSpace(s)
    ensures Strip(s) == []
  {
    StripLeftPadded(s, []);
    assert s + [] == s;
  }

  lemma StripIdentity(s: string)
    requires Trimmed(s)
    ensures Strip(s) == s
  {
    StripPadded([], s, []);
    assert [] + s + [] == s;
  }

  /** `s.split(sep)` for a one-character separator. */
  function Split(s: string, sep: char): (r: seq<string>)
    ensures |r| >= 1
  {
    if s == [] then [[]]
    else
      var r := Split(s[1..], sep);
      if s[0] == sep then [[]] + r else [[s[0]] + r[0]] + r[1..]
  }

  lemma {:induction false} SplitAppend(a: string, b: string, sep: char)
    ensures Split(a + [sep] + b, sep) == Split(a, sep) + Split(b, sep)
  {
    var s := a + [sep] + b;
    if a == [] {
      assert s[1..] == b;
    } else {
      assert s[1..] == a[1..] + [sep] + b;
      SplitAppend(a[1..], b, sep);
    }
  }

  lemma {:induction false} SplitNone(a: string, sep: char)
    requires sep !in a
    ensures Split(a, sep) == [a]
  {
    if a != [] { SplitNone(a[1..], sep); assert [a[0]] + a[1..] == a; }
  }

  /** Cutting off one piece. */
  lemma SplitCut(a: string, b: string, sep: char)
    requires sep !in a
    ensures Split(a + ([sep] + b), sep) == [a] + Split(b, sep)
  {
    assert a + ([sep] + b) == a + [sep] + b;
    SplitAppend(a, b, sep);
    SplitNone(a, sep);
  }

  lemma {:induction false} SplitPieces(s: string, sep: char, i: nat)
    requires i < |Split(s, sep)|
    ensures sep !in Split(s, sep)[i]
    ensures forall c :: c in Split(s, sep)[i] ==> c in s
  {
    if s != [] {
      var r := Split(s[1..], sep);
      if s[0] == sep {
        if i > 0 { SplitPieces(s[1..], sep, i - 1); }
      } else {
        SplitPieces(s[1..], sep, i);
      }
    }
  }

  /** Every line followed by a newline: `"\n".join(lines) + "\n"` for a non-empty list. */
  function Unlines(lines: seq<string>): string {
    if lines == [] then "" else lines[0] + "\n" + Unlines(lines[1..])
  }

  lemma {:induction false} SplitUnlines(lines: seq<string>)
    requires forall l :: l in lines ==> '\n' !in l
    ensures Split(Unlines(lines), '\n') == lines + [""]
  {
    if lines != [] {
      SplitUnlines(lines[1..]);
      SplitNone(lines[0], '\n');
      SplitAppend(lines[0], Unlines(lines[1..]), '\n');
      assert "\n" == ['\n'];
      assert [lines[0]] + (lines[1..] + [""]) == lines + [""];
    }
  }

  lemma {:induction false} UnlinesChars(lines: seq<string>, c: char)
    requires c != '\n' && forall l :: l in lines ==> c !in l
    ensures c !in Unlines(lines)
  {
    if lines != [] { UnlinesChars(lines[1..], c); }
  }

  predicate StartsWith(s: string, p: string) { p <= s }

  /** Python's `needle in s`. */
  predicate Contains(s: string, needle: string) {
    |needle| <= |s| && (needle <= s || Contains(s[1..], needle))
  }

  // ---- decimal numerals ----

  function DigitChar(d: nat): (c: char)
    requires d < 10
    ensures IsDigit(c)
  {
    "0123456789"[d]
  }

  function NatText(n: nat): string {
    if n < 10 then [DigitChar(n)] else NatText(n / 10) + [DigitChar(n % 10)]
  }

  lemma {:induction false} NatTextDigits(n: nat)
    ensures NatText(n) != "" && forall c :: c in NatText(n) ==> IsDigit(c)
  {
    if n >= 10 { NatTextDigits(n / 10); }
  }

  function IntText(n: int): string { if n < 0 then "-" + NatText(-n) else NatText(n) }

  function DigitValue(c: char): nat { if IsDigit(c) then c as int - '0' as int else 0 }

  /** The value of a run of digits. */
  function NatOf(s: string): nat {
    if s == [] then 0 else NatOf(s[..|s| - 1]) * 10 + DigitValue(s[|s| - 1])
  }

  /** Python's `int` on an optional sign followed by digits. */
  function IntOf(sign: string, digits: string): int {
    if sign == "-" then -(NatOf(digits) as int) else NatOf(digits)
  }

  lemma {:induction false} NatRoundTrip(n: nat)
    ensures NatOf(NatText(n)) == n
  {
    if n >= 10 {
      NatRoundTrip(n / 10);
      var s := NatText(n);
      assert s[..|s| - 1] == NatText(n / 10);
      assert s[|s| - 1] == DigitChar(n % 10);
    }
  }
}
