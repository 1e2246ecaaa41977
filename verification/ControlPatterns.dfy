/** The regular expressions themselves: `re.search` with the row pattern, run by the backtracking
    matcher, finds exactly the row that reading the text as cells finds. */
module ControlPatterns {
  import opened Text
  import opened Regex
  import opened Template
  import opened ControlText
  import opened ControlCells

  // ---- the patterns ----

  /** The letters of `t`, each in either case, then `rest`. */
  function Letters(t: string, rest: Pattern): Pattern {
    if t == "" then rest else Then(One(Fold(t[0])), Letters(t[1..], rest))
  }

  /** The escaped label, or `Artifact\s+ID`. */
  function TitlePattern(p: LabelPattern, rest: Pattern): Pattern {
    match p
    case Exact(title) => Letters(title, rest)
    case ArtifactId => Letters("Artifact", Then(Plus(Space), Letters("ID", rest)))
  }

  function TitleLength(p: LabelPattern): nat { if p.Exact? then |p.title| else 11 }

  function Bar(rest: Pattern): Pattern { Then(One(Lit('|')), rest) }
  function Blanks(rest: Pattern): Pattern { Then(Star(Space), rest) }

  /** `\s*(.*?)\s*\|` */
  function ValuePattern(): Pattern { Blanks(Then(Lazy(Dot), Blanks(Bar(Done)))) }

  /** `\|\s*<title>\s*\|\s*(.*?)\s*\|` */
  function RowPattern(p: LabelPattern): Pattern { Bar(Blanks(TitlePattern(p, Blanks(Bar(ValuePattern()))))) }

  /** A title that a pattern can look for. */
  predicate GoodTitle(p: LabelPattern) {
    p.Exact? ==> p.title != "" && Trimmed(p.title) && BarFree(p.title)
  }

  // ---- parts of a match ----

  function Drop(parts: Parts, k: nat): Parts { if k == 0 then parts else Drop(parts.Next(), k - 1) }
  function Front(parts: Parts, k: nat): string { if k == 0 then "" else parts.Text() + Front(parts.Next(), k - 1) }

  /** A successful match of a piece and a rest leaves the rest's own match behind it. */
  lemma MatchTail(p: Piece, rest: Pattern, s: string)
    requires Match(Then(p, rest), s).Matched?
    ensures var parts := Match(Then(p, rest), s).parts;
            parts.Cons? && |parts.head| <= |s| && parts.head == s[..|parts.head|] && Match(rest, s[|parts.head|..]) == Matched(parts.tail)
  {
    if p.Lazy? { AscendTail(p, rest, s, 0); } else { DescendTail(p, rest, s, Most(p, s)); }
  }

  lemma {:induction false} DescendTail(p: Piece, rest: Pattern, s: string, n: nat)
    requires n <= |s| && Descend(p, rest, s, n).Matched?
    ensures var parts := Descend(p, rest, s, n).parts;
            parts.Cons? && |parts.head| <= |s| && parts.head == s[..|parts.head|] && Match(rest, s[|parts.head|..]) == Matched(parts.tail)
    decreases n
  {
    if Match(rest, s[n..]).NoMatch? { DescendTail(p, rest, s, n - 1); }
  }

  lemma {:induction false} AscendTail(p: Piece, rest: Pattern, s: string, n: nat)
    requires n <= |s| && Ascend(p, rest, s, n).Matched?
    ensures var parts := Ascend(p, rest, s, n).parts;
            parts.Cons? && |parts.head| <= |s| && parts.head == s[..|parts.head|] && Match(rest, s[|parts.head|..]) == Matched(parts.tail)
    decreases |s| - n
  {
    if Match(rest, s[n..]).NoMatch? { AscendTail(p, rest, s, n + 1); }
  }

  // ---- the value: lazily up to the next bar ----

  lemma BlankRunStops(b: string, x: string)
    requires AllSpace(b) && (x == "" || !IsSpace(x[0]))
    ensures AllIn(b, Space) && (x == "" || !In(x[0], Space))
  {
  }

  /** `\s*\|` right before a bar. */
  lemma BlanksThenBar(b: string, after: string)
    requires AllSpace(b)
    ensures Match(Blanks(Bar(Done)), b + ("|" + after)) == Matched(Cons(b, Cons("|", Nil)))
  {
    Take(One(Lit('|')), Done, "|", after, Nil);
    BlankRunStops(b, "|" + after);
    Take(Star(Space), Bar(Done), b, "|" + after, Cons("|", Nil));
  }

  /** A parse of `\s*\|`: blanks up to a bar. */
  lemma BarAfterBlanks(parts: Parts, s: string) returns (n: nat)
    requires Fits(Blanks(Bar(Done)), parts) && Concat(parts) <= s
    ensures n < |s| && s[n] == '|' && forall i :: 0 <= i < n ==> IsSpace(s[i])
  {
    var b, bar := parts.head, parts.tail.head;
    n := |b|;
    assert Concat(parts) == b + (bar + Concat(parts.tail.tail));
    assert In(bar[0], Lit('|')) && s[n] == bar[0];
    assert forall i :: 0 <= i < n ==> s[i] == b[i] && In(b[i], Space);
  }

  /** `\s*\|` fails in front of a word that no bar interrupts. */
  lemma NoBarYet(w: string, after: string)
    requires w != "" && BarFree(w) && !IsSpace(w[|w| - 1])
    ensures Match(Blanks(Bar(Done)), w + after).NoMatch?
  {
    hide Match, Fits;
    var s := w + after;
    MatchSound(Blanks(Bar(Done)), s);
    assert s[|w| - 1] == w[|w| - 1];
    assert forall i :: 0 <= i < |w| ==> s[i] == w[i] && w[i] in w;
    if Match(Blanks(Bar(Done)), s).Matched? {
      var n := BarAfterBlanks(Match(Blanks(Bar(Done)), s).parts, s);
    }
  }

  /** The lazy group runs to the end of the word, and stops there. */
  lemma {:induction false} LazyWord(w: string, b: string, after: string, n: nat)
    requires n <= |w| && BarFree(w) && '\n' !in w && AllSpace(b) && (w == "" || !IsSpace(w[|w| - 1]))
    ensures Ascend(Lazy(Dot), Blanks(Bar(Done)), w + (b + ("|" + after)), n) == Matched(Cons(w, Cons(b, Cons("|", Nil))))
    decreases |w| - n
  {
    hide Match;
    var s := w + (b + ("|" + after));
    if n == |w| {
      assert s[n..] == b + ("|" + after) && s[..n] == w;
      BlanksThenBar(b, after);
    } else {
      assert s[n..] == w[n..] + (b + ("|" + after));
      assert forall c :: c in w[n..] ==> c in w;
      NoBarYet(w[n..], b + ("|" + after));
      WordIsRun(w, b + ("|" + after));
      LazyWord(w, b, after, n + 1);
    }
  }

  lemma WordIsRun(w: string, after: string)
    requires '\n' !in w
    ensures Most(Lazy(Dot), w + after) >= |w|
  {
    assert forall i :: 0 <= i < |w| ==> (w + after)[..|w|][i] == w[i] && w[i] in w;
    RunAtLeast(Dot, w + after, |w|);
  }

  /** A value cell: blanks, the trimmed text, blanks. */
  lemma CellShape(c: string) returns (a: string, b: string)
    ensures c == a + (Strip(c) + b) && AllSpace(a) && AllSpace(b)
    ensures Strip(c) == "" ==> b == ""
  {
    a := Leading(c);
    LeadingIs(c);
    var rest := StripLeft(c);
    TrailingIs(rest);
    b := rest[|StripRight(rest)|..];
    StripLeftIs(c);
    assert StripRight(rest) == "" ==> b == rest;
  }

  function Leading(c: string): string { if c == "" || !IsSpace(c[0]) then "" else [c[0]] + Leading(c[1..]) }

  lemma {:induction false} LeadingIs(c: string)
    ensures c == Leading(c) + StripLeft(c) && AllSpace(Leading(c))
  {
    hide IsSpace;
    if c != "" && IsSpace(c[0]) { LeadingIs(c[1..]); assert c == [c[0]] + c[1..]; }
  }

  lemma {:induction false} TrailingIs(s: string)
    ensures StripRight(s) <= s && AllSpace(s[|StripRight(s)|..]) && s == StripRight(s) + s[|StripRight(s)|..]
  {
    hide IsSpace;
    StripRightIs(s);
    if s != "" && IsSpace(s[|s| - 1]) {
      TrailingIs(s[..|s| - 1]);
      var r := StripRight(s);
      assert s[|r|..] == s[..|s| - 1][|r|..] + [s[|s| - 1]];
    }
  }

  function ValueParts(a: string, w: string, b: string): Parts { Cons(a, Cons(w, Cons(b, Cons("|", Nil)))) }

  lemma ValueStep(a: string, w: string, b: string, after: string)
    requires AllSpace(a) && AllSpace(b) && BarFree(w) && '\n' !in w && Trimmed(w) && (w == "" ==> b == "")
    ensures Match(ValuePattern(), a + (w + (b + ("|" + after)))) == Matched(ValueParts(a, w, b))
  {
    hide Match;
    LazyWord(w, b, after, 0);
    var s := w + (b + ("|" + after));
    var rest := Then(Lazy(Dot), Blanks(Bar(Done)));
    LazyStart(s);
    assert s[0] == if w == "" then '|' else w[0];
    BlankRunStops(a, s);
    Take(Star(Space), rest, a, s, Cons(w, Cons(b, Cons("|", Nil))));
  }

  /** The value pattern in front of a cell and a bar: the trimmed cell, when it is one line. */
  lemma ValueMatches(c: string, after: string)
    requires BarFree(c) && '\n' !in Strip(c)
    ensures var m := Match(ValuePattern(), c + ("|" + after));
            m.Matched? && m.parts.Next().Text() == Strip(c) && Concat(m.parts) == c + "|"
  {
    hide Match;
    var a, b := CellShape(c);
    var w := Strip(c);
    StripIs(c);
    ValueStep(a, w, b, after);
    Regroup4(a, w, b, after);
    ValueText(a, w, b);
  }

  lemma Regroup4(a: string, w: string, b: string, after: string)
    ensures a + (w + (b + ("|" + after))) == (a + (w + b)) + ("|" + after)
  {
  }

  lemma ValueText(a: string, w: string, b: string)
    ensures Concat(ValueParts(a, w, b)) == (a + (w + b)) + "|"
  {
    assert Concat(Cons("|", Nil)) == "|";
    assert Concat(Cons(b, Cons("|", Nil))) == b + "|";
    assert a + (w + (b + "|")) == (a + (w + b)) + "|";
  }

  lemma LazyStart(s: string)
    ensures Match(Then(Lazy(Dot), Blanks(Bar(Done))), s) == Ascend(Lazy(Dot), Blanks(Bar(Done)), s, 0)
  {
  }

  /** A parse of the value pattern over a cell: the trimmed cell is one line. */
  lemma ValueParseOneLine(parts: Parts, c: string, after: string)
    requires Fits(ValuePattern(), parts) && BarFree(c) && Concat(parts) <= c + ("|" + after)
    ensures '\n' !in Strip(c)
  {
    hide IsSpace;
    var a, b := CellShape(c);
    var w, s := Strip(c), c + ("|" + after);
    StripIs(c);
    var x1, x2, x3 := ValueHeads(parts, s);
    assert s[|x1| + |x2| + |x3|] == '|';
    assert forall i :: 0 <= i < |c| ==> s[i] == c[i] && c[i] in c;
    assert |x1| + |x2| + |x3| >= |c|;
    forall k | 0 <= k < |w| ensures w[k] != '\n' {
      assert s[|a|] == w[0] && s[|a| + |w| - 1] == w[|w| - 1] && s[|a| + k] == w[k];
      assert |x1| <= |a|;
      assert |a| + |w| - 1 < |x1| + |x2|;
      assert s[|a| + k] == x2[|a| + k - |x1|];
    }
  }

  lemma ValueHeads(parts: Parts, s: string) returns (x1: string, x2: string, x3: string)
    requires Fits(ValuePattern(), parts) && Concat(parts) <= s
    ensures |x1| + |x2| + |x3| < |s| && s[|x1| + |x2| + |x3|] == '|'
    ensures forall i :: 0 <= i < |x1| ==> s[i] == x1[i] && IsSpace(s[i])
    ensures forall i :: |x1| <= i < |x1| + |x2| ==> s[i] == x2[i - |x1|] && s[i] != '\n'
    ensures forall i :: |x1| + |x2| <= i < |x1| + |x2| + |x3| ==> IsSpace(s[i])
  {
    hide IsSpace;
    assert Fits(Then(Lazy(Dot), Blanks(Bar(Done))), parts.tail);
    assert Fits(Blanks(Bar(Done)), parts.tail.tail);
    assert Fits(Bar(Done), parts.tail.tail.tail);
    x1, x2, x3 := parts.head, parts.tail.head, parts.tail.tail.head;
    var bar := parts.tail.tail.tail.head;
    var t := x1 + (x2 + (x3 + (bar + Concat(parts.tail.tail.tail.tail))));
    assert Concat(parts.tail.tail) == x3 + (bar + Concat(parts.tail.tail.tail.tail));
    assert Concat(parts.tail) == x2 + Concat(parts.tail.tail);
    assert Concat(parts) == t;
    assert In(bar[0], Lit('|')) && t[|x1| + |x2| + |x3|] == bar[0];
    assert forall i :: 0 <= i < |x1| ==> t[i] == x1[i] && In(x1[i], Space);
    assert forall i :: |x1| <= i < |x1| + |x2| ==> t[i] == x2[i - |x1|] && In(x2[i - |x1|], Dot);
    assert forall i :: |x1| + |x2| <= i < |x1| + |x2| + |x3| ==> t[i] == x3[i - |x1| - |x2|] && In(x3[i - |x1| - |x2|], Space);
    assert forall i :: 0 <= i < |t| ==> s[i] == t[i];
  }

  lemma ValueIff(c: string, after: string)
    requires BarFree(c)
    ensures Match(ValuePattern(), c + ("|" + after)).Matched? <==> '\n' !in Strip(c)
  {
    hide Match, Fits;
    var m := Match(ValuePattern(), c + ("|" + after));
    MatchSound(ValuePattern(), c + ("|" + after));
    if m.Matched? { ValueParseOneLine(m.parts, c, after); }
    if '\n' !in Strip(c) { ValueMatches(c, after); }
  }

  lemma ValueNeedsBar(s: string)
    requires BarFree(s)
    ensures Match(ValuePattern(), s).NoMatch?
  {
    hide Match, Fits;
    MatchSound(ValuePattern(), s);
    if Match(ValuePattern(), s).Matched? {
      var x1, x2, x3 := ValueHeads(Match(ValuePattern(), s).parts, s);
    }
  }

  // ---- the title ----

  predicate SameLetters(u: string, t: string) { |u| == |t| && forall i :: 0 <= i < |t| ==> LowerChar(u[i]) == LowerChar(t[i]) }

  lemma SameLettersLower(u: string, t: string)
    ensures SameLetters(u, t) <==> Lower(u) == Lower(t)
  {
    LowerAt(u);
    LowerAt(t);
  }

  /** The text a title pattern takes. */
  predicate TitleText(u: string, p: LabelPattern) {
    match p
    case Exact(t) => SameLetters(u, t)
    case ArtifactId => NamesId(u)
  }

  lemma {:induction false} LettersMatch(t: string, rest: Pattern, u: string, s: string, r: Parts)
    requires SameLetters(u, t) && Match(rest, s) == Matched(r)
    ensures var m := Match(Letters(t, rest), u + s);
            m.Matched? && Drop(m.parts, |t|) == r && Front(m.parts, |t|) == u
  {
    hide Match;
    if t == "" {
      assert u + s == s;
    } else {
      assert SameLetters(u[1..], t[1..]);
      LettersMatch(t[1..], rest, u[1..], s, r);
      var m := Match(Letters(t[1..], rest), u[1..] + s);
      Take(One(Fold(t[0])), Letters(t[1..], rest), [u[0]], u[1..] + s, m.parts);
      assert [u[0]] + (u[1..] + s) == u + s && [u[0]] + u[1..] == u;
    }
  }

  lemma {:induction false} LettersTail(t: string, rest: Pattern, s: string)
    requires Match(Letters(t, rest), s).Matched?
    ensures var parts := Match(Letters(t, rest), s).parts;
            && |t| <= |s| && SameLetters(s[..|t|], t) && Front(parts, |t|) == s[..|t|]
            && Match(rest, s[|t|..]) == Matched(Drop(parts, |t|))
  {
    hide Match;
    if t == "" {
      assert s[0..] == s;
    } else {
      var pat := Then(One(Fold(t[0])), Letters(t[1..], rest));
      MatchTail(One(Fold(t[0])), Letters(t[1..], rest), s);
      OneTaken(Fold(t[0]), Letters(t[1..], rest), s);
      LettersTail(t[1..], rest, s[1..]);
      assert s[1..][..|t| - 1] == s[1..|t|] && s[1..][|t| - 1..] == s[|t|..];
      assert s[..|t|] == [s[0]] + s[1..|t|] && s[..1] == [s[0]];
      forall i | 0 <= i < |t| ensures LowerChar(s[..|t|][i]) == LowerChar(t[i]) {
        if i > 0 { assert s[..|t|][i] == s[1..][..|t| - 1][i - 1] && t[i] == t[1..][i - 1]; }
      }
    }
  }

  lemma OneTaken(k: CharClass, rest: Pattern, s: string)
    requires Match(Then(One(k), rest), s).Matched?
    ensures var parts := Match(Then(One(k), rest), s).parts; parts.Cons? && |parts.head| == 1 && |s| >= 1 && In(s[0], k) && parts.head == s[..1]
  {
    hide Match;
    MatchSound(Then(One(k), rest), s);
    MatchTail(One(k), rest, s);
    var h := Match(Then(One(k), rest), s).parts.head;
    assert In(h[0], k) && h[0] == s[0];
  }

  lemma {:induction false} DropAdd(parts: Parts, j: nat, k: nat)
    ensures Drop(Drop(parts, j), k) == Drop(parts, j + k)
    ensures Front(parts, j + k) == Front(parts, j) + Front(Drop(parts, j), k)
  {
    if j > 0 {
      DropAdd(parts.Next(), j - 1, k);
      var h := parts.Text();
      assert Front(parts, j) == h + Front(parts.Next(), j - 1);
      assert Front(parts, j + k) == h + Front(parts.Next(), j - 1 + k);
      Joined(h, Front(parts.Next(), j - 1), Front(Drop(parts, j), k));
    }
  }

  lemma Joined(a: string, b: string, c: string)
    ensures a + (b + c) == (a + b) + c
  {}

  lemma TitleMatch(p: LabelPattern, rest: Pattern, u: string, s: string, r: Parts)
    requires TitleText(u, p) && Match(rest, s) == Matched(r)
    ensures var m := Match(TitlePattern(p, rest), u + s);
            m.Matched? && Drop(m.parts, TitleLength(p)) == r && Front(m.parts, TitleLength(p)) == u
  {
    hide Match, Letters;
    match p
    case Exact(t) => LettersMatch(t, rest, u, s, r);
    case ArtifactId => IdMatch(rest, u, s, r);
  }

  lemma IdMatch(rest: Pattern, u: string, s: string, r: Parts)
    requires NamesId(u) && Match(rest, s) == Matched(r)
    ensures var m := Match(TitlePattern(ArtifactId, rest), u + s);
            m.Matched? && Drop(m.parts, 11) == r && Front(m.parts, 11) == u
  {
    hide Match, Letters, IsSpace, Drop, Front;
    var a, mid, z := u[..8], u[8..|u| - 2], u[|u| - 2..];
    SameLettersLower(a, "Artifact");
    SameLettersLower(z, "ID");
    LowerOfId();
    LettersMatch("ID", rest, z, s, r);
    var m2 := Match(Letters("ID", rest), z + s).parts;
    var tail := Then(Plus(Space), Letters("ID", rest));
    IdLetters(z, s);
    BlankRunStops(mid, z + s);
    Take(Plus(Space), Letters("ID", rest), mid, z + s, m2);
    LettersMatch("Artifact", tail, a, mid + (z + s), Cons(mid, m2));
    var m := Match(TitlePattern(ArtifactId, rest), u + s);
    assert a + (mid + (z + s)) == u + s;
    var parts := m.parts;
    DropAdd(parts, 8, 3);
    IdParts(mid, m2, r);
    assert a + (mid + z) == u;
  }

  lemma LowerOfId()
    ensures Lower("Artifact") == "artifact" && Lower("ID") == "id"
  {
    hide Lower;
    LowerAt("Artifact");
    LowerAt("ID");
    assert forall i :: 0 <= i < 8 ==> LowerChar("Artifact"[i]) == "artifact"[i];
    assert forall i :: 0 <= i < 2 ==> LowerChar("ID"[i]) == "id"[i];
  }

  lemma IdLetters(z: string, s: string)
    requires SameLetters(z, "ID")
    ensures z + s != "" && !IsSpace((z + s)[0])
  {
    assert (z + s)[0] == z[0] && LowerChar(z[0]) == LowerChar("ID"[0]) == 'i';
  }

  lemma IdParts(mid: string, m2: Parts, r: Parts)
    requires Drop(m2, 2) == r
    ensures Drop(Cons(mid, m2), 3) == r && Front(Cons(mid, m2), 3) == mid + Front(m2, 2)
  {
  }

  lemma TitleTail(p: LabelPattern, rest: Pattern, s: string)
    requires Match(TitlePattern(p, rest), s).Matched?
    ensures var parts := Match(TitlePattern(p, rest), s).parts; var u := Front(parts, TitleLength(p));
            && |u| <= |s| && u == s[..|u|] && TitleText(u, p)
            && Match(rest, s[|u|..]) == Matched(Drop(parts, TitleLength(p)))
  {
    hide Match, Letters;
    match p
    case Exact(t) => LettersTail(t, rest, s);
    case ArtifactId => IdTail(rest, s);
  }

  lemma IdTail(rest: Pattern, s: string)
    requires Match(TitlePattern(ArtifactId, rest), s).Matched?
    ensures var parts := Match(TitlePattern(ArtifactId, rest), s).parts; var u := Front(parts, 11);
            && |u| <= |s| && u == s[..|u|] && NamesId(u)
            && Match(rest, s[|u|..]) == Matched(Drop(parts, 11))
  {
    hide Match, Letters, IsSpace, Drop, Front, Fits, NamesId, SameLetters;
    var parts := Match(TitlePattern(ArtifactId, rest), s).parts;
    var after := Letters("ID", rest);
    LettersTail("Artifact", Then(Plus(Space), after), s);
    var s2, p2 := s[8..], Drop(parts, 8);
    MatchTail(Plus(Space), after, s2);
    BlankTaken(after, s2);
    var mid := p2.head;
    LettersTail("ID", rest, s2[|mid|..]);
    DropAdd(parts, 8, 3);
    IdParts(mid, p2.tail, Drop(p2.tail, 2));
    IdCut(s, |mid|);
    IdNamed(s[..8], mid, s2[|mid|..][..2]);
  }

  lemma IdNamed(a: string, mid: string, z: string)
    requires SameLetters(a, "Artifact") && SameLetters(z, "ID") && AllSpace(mid) && |mid| >= 1
    ensures NamesId(a + (mid + z))
  {
    hide IsSpace, SameLetters;
    var u := a + (mid + z);
    assert |a| == 8 && |z| == 2 by { LetterCounts(a, z); }
    SameLettersLower(a, "Artifact");
    SameLettersLower(z, "ID");
    LowerOfId();
    assert u[..8] == a && u[|u| - 2..] == z && u[8..|u| - 2] == mid;
  }

  lemma LetterCounts(a: string, z: string)
    requires SameLetters(a, "Artifact") && SameLetters(z, "ID")
    ensures |a| == 8 && |z| == 2
  {
  }

  lemma IdCut(s: string, n: nat)
    requires 10 + n <= |s|
    ensures var u, mid, z := s[..10 + n], s[8..][..n], s[8..][n..][..2];
            && u[..8] == s[..8] && u[8..|u| - 2] == mid && u[|u| - 2..] == z
            && u == s[..8] + (mid + z) && s[8..][n..][2..] == s[|u|..]
  {
  }

  lemma BlankTaken(rest: Pattern, s: string)
    requires Match(Then(Plus(Space), rest), s).Matched?
    ensures var parts := Match(Then(Plus(Space), rest), s).parts; parts.Cons? && AllSpace(parts.head) && |parts.head| >= 1
  {
    hide Match, IsSpace;
    MatchSound(Then(Plus(Space), rest), s);
    var h := Match(Then(Plus(Space), rest), s).parts.head;
    assert forall i :: 0 <= i < |h| ==> In(h[i], Space);
  }

  lemma StarTaken(rest: Pattern, s: string)
    requires Match(Blanks(rest), s).Matched?
    ensures var parts := Match(Blanks(rest), s).parts;
            && parts.Cons? && AllSpace(parts.head) && |parts.head| <= |s| && parts.head == s[..|parts.head|]
            && Match(rest, s[|parts.head|..]) == Matched(parts.tail)
  {
    hide Match, IsSpace;
    MatchSound(Blanks(rest), s);
    MatchTail(Star(Space), rest, s);
    var h := Match(Blanks(rest), s).parts.head;
    assert forall i :: 0 <= i < |h| ==> In(h[i], Space);
  }

  // ---- a title cell ----

  lemma TitleIsSolid(u: string, p: LabelPattern)
    requires TitleText(u, p) && GoodTitle(p)
    ensures u != "" && Trimmed(u) && BarFree(u)
  {
    match p
    case Exact(t) => LettersSolid(u, t);
    case ArtifactId => IdSolid(u);
  }

  lemma LettersSolid(u: string, t: string)
    requires SameLetters(u, t) && t != "" && Trimmed(t) && BarFree(t)
    ensures u != "" && Trimmed(u) && BarFree(u)
  {
    assert forall i :: 0 <= i < |t| ==> t[i] in t;
    assert LowerChar(u[0]) == LowerChar(t[0]) && LowerChar(u[|u| - 1]) == LowerChar(t[|t| - 1]);
  }

  lemma IdSolid(u: string)
    requires NamesId(u)
    ensures Trimmed(u) && BarFree(u)
  {
    hide IsSpace;
    var a, mid, z := u[..8], u[8..|u| - 2], u[|u| - 2..];
    LowerOfId();
    SameLettersLower(a, "Artifact");
    SameLettersLower(z, "ID");
    assert Trimmed("Artifact") && Trimmed("ID") by { IdWords(); }
    LettersSolid(a, "Artifact");
    LettersSolid(z, "ID");
    BlankBarFree(mid);
    assert u == a + (mid + z) && u[0] == a[0] && u[|u| - 1] == z[1];
  }

  lemma IdWords()
    ensures Trimmed("Artifact") && Trimmed("ID")
  {
  }

  lemma TitleNamesCell(c: string, p: LabelPattern)
    ensures Names(c, p) <==> TitleText(Strip(c), p)
  {
    if p.Exact? { SameLettersLower(Strip(c), p.title); }
  }

  lemma BarStops(b: string, v: string)
    requires AllSpace(b)
    ensures AllIn(b, Space) && !In(("|" + v)[0], Space)
  {
  }

  function CellPattern(p: LabelPattern, V: Pattern): Pattern { Blanks(TitlePattern(p, Blanks(Bar(V)))) }

  /** A title cell that fits is taken whole. */
  lemma CellTakes(p: LabelPattern, V: Pattern, c: string, v: string, r: Parts)
    requires GoodTitle(p) && Names(c, p) && Match(V, v) == Matched(r)
    ensures var m := Match(CellPattern(p, V), c + ("|" + v));
            m.Matched? && Drop(m.parts, TitleLength(p) + 3) == r && Front(m.parts, TitleLength(p) + 3) == c + "|"
  {
    hide Match, TitlePattern, IsSpace, Drop, Front, Names, TitleText, GoodTitle, TitleLength;
    var a, b := CellShape(c);
    var u := Strip(c);
    TitleNamesCell(c, p);
    TitleIsSolid(u, p);
    Take(One(Lit('|')), V, "|", v, r);
    BarStops(b, v);
    Take(Star(Space), Bar(V), b, "|" + v, Cons("|", r));
    TitleMatch(p, Blanks(Bar(V)), u, b + ("|" + v), Cons(b, Cons("|", r)));
    var m := Match(TitlePattern(p, Blanks(Bar(V))), u + (b + ("|" + v))).parts;
    assert (u + (b + ("|" + v)))[0] == u[0];
    BlankRunStops(a, u + (b + ("|" + v)));
    Take(Star(Space), TitlePattern(p, Blanks(Bar(V))), a, u + (b + ("|" + v)), m);
    assert a + (u + (b + ("|" + v))) == c + ("|" + v);
    CellParts(a, m, TitleLength(p), b, r);
    assert a + (u + (b + "|")) == c + "|";
  }

  lemma TwoParts(x: string, y: string, r: Parts)
    ensures Drop(Cons(x, Cons(y, r)), 2) == r && Front(Cons(x, Cons(y, r)), 2) == x + y
  {
    var one := Cons(y, r);
    assert Cons(x, one).Next() == one && Cons(x, one).Text() == x && one.Next() == r && one.Text() == y;
    assert Front(r, 0) == "" && Front(one, 1) == y + Front(r, 0) && Front(Cons(x, one), 2) == x + Front(one, 1);
    assert Drop(r, 0) == r && Drop(one, 1) == Drop(r, 0) && Drop(Cons(x, one), 2) == Drop(one, 1);
  }

  lemma CellParts(a: string, m: Parts, n: nat, b: string, r: Parts)
    requires Drop(m, n) == Cons(b, Cons("|", r))
    ensures Drop(Cons(a, m), n + 3) == r && Front(Cons(a, m), n + 3) == a + (Front(m, n) + (b + "|"))
  {
    DropAdd(m, n, 2);
    assert Drop(Cons(a, m), n + 3) == Drop(m, n + 2);
    TwoParts(b, "|", r);
  }

  /** A match over a title cell takes the whole cell and its bar, and nothing else. */
  lemma CellTaken(p: LabelPattern, V: Pattern, s: string) returns (c: string, v: string)
    requires GoodTitle(p) && Match(CellPattern(p, V), s).Matched?
    ensures s == c + ("|" + v) && BarFree(c) && Names(c, p) && Match(V, v).Matched?
  {
    hide Match, TitlePattern, IsSpace, Drop, Front, Names, TitleText, GoodTitle, TitleLength;
    var rest := TitlePattern(p, Blanks(Bar(V)));
    StarTaken(rest, s);
    var a := Match(CellPattern(p, V), s).parts.head;
    var s1 := s[|a|..];
    TitleTail(p, Blanks(Bar(V)), s1);
    var u := Front(Match(rest, s1).parts, TitleLength(p));
    var s2 := s1[|u|..];
    StarTaken(Bar(V), s2);
    var b := Match(Blanks(Bar(V)), s2).parts.head;
    var s3 := s2[|b|..];
    MatchTail(One(Lit('|')), V, s3);
    OneTaken(Lit('|'), V, s3);
    c, v := a + (u + b), s3[1..];
    FourParts(s, a, u, b);
    TitleIsSolid(u, p);
    BlankBarFree(a);
    BlankBarFree(b);
    StripPadded(a, u, b);
    assert a + u + b == c;
    TitleNamesCell(c, p);
  }

  lemma FourParts(s: string, a: string, u: string, b: string)
    requires a <= s && u <= s[|a|..] && b <= s[|a|..][|u|..] && |s[|a|..][|u|..][|b|..]| > 0 && s[|a|..][|u|..][|b|..][0] == '|'
    ensures s == a + (u + b) + ("|" + s[|a|..][|u|..][|b|..][1..])
  {
    var s1 := s[|a|..];
    var s2 := s1[|u|..];
    var s3 := s2[|b|..];
    assert s == a + s1 && s1 == u + s2 && s2 == b + s3 && s3 == "|" + s3[1..];
  }

  lemma BlankBarFree(b: string)
    requires AllSpace(b)
    ensures BarFree(b)
  {
    assert !IsSpace('|');
  }

  // ---- a whole row ----

  function RowStart(p: LabelPattern): nat { TitleLength(p) + 4 }

  lemma RowIs(p: LabelPattern)
    ensures RowPattern(p) == Then(One(Lit('|')), CellPattern(p, ValuePattern()))
  {
  }

  lemma RowTakes(p: LabelPattern, c1: string, c2: string, after: string)
    requires GoodTitle(p) && Names(c1, p) && BarFree(c2) && '\n' !in Strip(c2)
    ensures var m := Match(RowPattern(p), "|" + (c1 + ("|" + (c2 + ("|" + after)))));
            m.Matched? && Front(m.parts, RowStart(p)) == "|" + (c1 + "|")
            && Drop(m.parts, RowStart(p)).Next().Text() == Strip(c2) && Concat(Drop(m.parts, RowStart(p))) == c2 + "|"
  {
    hide Match, TitlePattern, ValuePattern, IsSpace, Names, GoodTitle, TitleLength;
    var v := c2 + ("|" + after);
    ValueMatches(c2, after);
    var r := Match(ValuePattern(), v).parts;
    CellTakes(p, ValuePattern(), c1, v, r);
    var m := Match(CellPattern(p, ValuePattern()), c1 + ("|" + v)).parts;
    Take(One(Lit('|')), CellPattern(p, ValuePattern()), "|", c1 + ("|" + v), m);
    assert Drop(Cons("|", m), RowStart(p)) == Drop(m, TitleLength(p) + 3);
  }

  lemma {:induction false} FirstBar(v: string) returns (c: string, after: string)
    requires !BarFree(v)
    ensures v == c + ("|" + after) && BarFree(c)
  {
    if v[0] == '|' {
      c, after := "", v[1..];
      assert v == "|" + v[1..];
    } else {
      assert v == [v[0]] + v[1..];
      var d, rest := FirstBar(v[1..]);
      c, after := [v[0]] + d, rest;
    }
  }

  lemma RowTaken(p: LabelPattern, s: string) returns (c1: string, c2: string, after: string)
    requires GoodTitle(p) && Match(RowPattern(p), s).Matched?
    ensures s == "|" + (c1 + ("|" + (c2 + ("|" + after)))) && BarFree(c1) && BarFree(c2)
    ensures Names(c1, p) && '\n' !in Strip(c2)
  {
    hide Match, CellPattern, ValuePattern, Names, GoodTitle;
    RowIs(p);
    OneTaken(Lit('|'), CellPattern(p, ValuePattern()), s);
    MatchTail(One(Lit('|')), CellPattern(p, ValuePattern()), s);
    var v;
    c1, v := CellTaken(p, ValuePattern(), s[1..]);
    assert s == "|" + s[1..];
    BarInValue(v);
    c2, after := FirstBar(v);
    ValueIff(c2, after);
  }

  lemma BarInValue(v: string)
    ensures Match(ValuePattern(), v).Matched? ==> !BarFree(v)
  {
    if BarFree(v) { ValueNeedsBar(v); }
  }

  /** When the row pattern matches at the start of a text. */
  lemma RowIff(p: LabelPattern, s: string)
    requires GoodTitle(p)
    ensures Match(RowPattern(p), s).Matched? <==>
              (|Cells(s)| >= 4 && Cells(s)[0] == "" && Names(Cells(s)[1], p) && '\n' !in Strip(Cells(s)[2]))
  {
    hide Match, RowPattern, Names, GoodTitle;
    var cs := Cells(s);
    if Match(RowPattern(p), s).Matched? {
      var c1, c2, after := RowTaken(p, s);
      ThreeBars(c1, c2, after);
    }
    if |cs| >= 4 && cs[0] == "" && Names(cs[1], p) && '\n' !in Strip(cs[2]) {
      var after := JoinFour(s);
      CellsBarFree(s);
      assert cs[2] in cs;
      RowTakes(p, cs[1], cs[2], after);
    }
  }

  lemma ThreeBars(c1: string, c2: string, after: string)
    requires BarFree(c1) && BarFree(c2)
    ensures var cs := Cells("|" + (c1 + ("|" + (c2 + ("|" + after)))));
            |cs| >= 4 && cs[0] == "" && cs[1] == c1 && cs[2] == c2
  {
    var v := c2 + (['|'] + after);
    SplitCut(c2, after, '|');
    SplitCut(c1, v, '|');
    SplitCut("", c1 + (['|'] + v), '|');
    assert "" + (['|'] + (c1 + (['|'] + v))) == "|" + (c1 + ("|" + (c2 + ("|" + after))));
  }

  lemma JoinFour(s: string) returns (after: string)
    requires |Cells(s)| >= 4 && Cells(s)[0] == ""
    ensures var cs := Cells(s); s == "|" + (cs[1] + ("|" + (cs[2] + ("|" + after)))) && after == Join(cs[3..])
  {
    hide Cells;
    var cs := Cells(s);
    JoinSplit(s);
    after := Join(cs[3..]);
    JoinCons(cs);
    JoinCons(cs[1..]);
    JoinCons(cs[2..]);
    assert cs[1..][1..] == cs[2..] && cs[2..][1..] == cs[3..];
    assert "" + ("|" + Join(cs[1..])) == "|" + Join(cs[1..]);
  }

  lemma JoinCons(cells: seq<string>)
    requires |cells| >= 2
    ensures Join(cells) == cells[0] + ("|" + Join(cells[1..]))
  {
  }

  // ---- searching ----

  /** `re.search`: the first position where the pattern matches. */
  function Search(pat: Pattern, s: string): Option<nat> {
    if Match(pat, s).Matched? then Some(0)
    else if s == "" then None
    else
      var r := Search(pat, s[1..]);
      if r.Some? then Some(r.value + 1) else None
  }

  function Later(r: Option<nat>, n: nat): Option<nat> { if r.Some? then Some(r.value + n) else None }

  lemma {:induction false} SkipProse(p: LabelPattern, c: string, t: string)
    requires BarFree(c) && GoodTitle(p)
    ensures Search(RowPattern(p), c + t) == Later(Search(RowPattern(p), t), |c|)
  {
    hide Match, RowPattern, GoodTitle, Names;
    if c == "" {
      assert c + t == t;
    } else {
      assert (c + t)[1..] == c[1..] + t && c[0] in c;
      NoRowHere(p, c + t);
      SkipProse(p, c[1..], t);
    }
  }

  lemma NoRowHere(p: LabelPattern, s: string)
    requires GoodTitle(p) && s != "" && s[0] != '|'
    ensures Match(RowPattern(p), s).NoMatch?
  {
    hide Match, GoodTitle, CellPattern;
    RowIs(p);
    if Match(RowPattern(p), s).Matched? {
      OneTaken(Lit('|'), CellPattern(p, ValuePattern()), s);
    }
  }

  lemma EmptyText(p: LabelPattern)
    requires GoodTitle(p)
    ensures Search(RowPattern(p), "") == None
  {
    hide Match, RowPattern, GoodTitle, Names;
    RowIff(p, "");
  }

  /** The first match stands at the bar before the first title cell found. */
  lemma {:induction false} SearchCells(cs: seq<string>, p: LabelPattern)
    requires GoodTitle(p) && |cs| >= 1 && forall c :: c in cs ==> BarFree(c)
    ensures var r := FindFrom(cs, p, 1);
            Search(RowPattern(p), Join(cs)) == if r < |cs| then Some(|Join(cs[..r])|) else None
    decreases |cs|
  {
    hide Match, RowPattern, GoodTitle, Names;
    var c := cs[0];
    assert c in cs;
    if |cs| == 1 {
      EmptyText(p);
      SkipProse(p, c, "");
      assert c + "" == c;
    } else {
      var rest := cs[1..];
      var t := "|" + Join(rest);
      SkipProse(p, c, t);
      TailCells(cs);
      RowIff(p, t);
      var r := FindFrom(cs, p, 1);
      if Match(RowPattern(p), t).Matched? {
        assert r == 1 && cs[..1] == [c];
      } else {
        assert t[1..] == Join(rest);
        SearchCells(rest, p);
        FindTail(cs, p);
        FindIs(rest, p, 1);
        var q := FindFrom(rest, p, 1);
        if q < |rest| {
          assert cs[..q + 1][1..] == rest[..q];
          JoinCons(cs[..q + 1]);
        }
      }
    }
  }

  lemma TailCells(cs: seq<string>)
    requires |cs| >= 2 && forall c :: c in cs ==> BarFree(c)
    ensures Cells("|" + Join(cs[1..])) == [""] + cs[1..]
  {
    SplitJoin(cs[1..]);
    SplitCut("", Join(cs[1..]), '|');
    assert "" + (['|'] + Join(cs[1..])) == "|" + Join(cs[1..]);
  }

  lemma FindTail(cs: seq<string>, p: LabelPattern)
    requires |cs| >= 2 && !(|cs| >= 4 && Names(cs[1], p) && '\n' !in Strip(cs[2])) && FindFrom(cs, p, 1) != 1
    ensures var q, r := FindFrom(cs[1..], p, 1), FindFrom(cs, p, 1);
            if q < |cs| - 1 then r == q + 1 else r >= |cs|
  {
    hide Names;
    FindOffset(cs, p, 1);
  }

  lemma {:induction false} FindOffset(cs: seq<string>, p: LabelPattern, j: nat)
    requires |cs| >= 2 && 1 <= j
    ensures var q, r := FindFrom(cs[1..], p, j), FindFrom(cs, p, j + 1);
            if q < |cs| - 1 then r == q + 1 else r >= |cs|
    decreases |cs| - j
  {
    hide Names;
    if j + 3 < |cs| {
      assert cs[1..][j] == cs[j + 1] && cs[1..][j + 1] == cs[j + 2];
      FindOffset(cs, p, j + 1);
    }
  }

  // ---- the code's read and write, by regular expression ----

  /** `m = re.search(...); m.group(1).strip() if m else None` */
  function SearchValue(text: string, p: LabelPattern): Option<string> {
    var i := Search(RowPattern(p), text);
    if i.None? || i.value > |text| then None else
      var m := Match(RowPattern(p), text[i.value..]);
      if m.Matched? then Some(Strip(Drop(m.parts, RowStart(p)).Next().Text())) else None
  }

  /** `re.sub(..., rf"\1 {value} |", text, count=1)` */
  function SubstituteValue(text: string, p: LabelPattern, value: string): string {
    var i := Search(RowPattern(p), text);
    if i.None? || i.value > |text| then text else
      var m := Match(RowPattern(p), text[i.value..]);
      if m.NoMatch? then text else
        var all := Front(m.parts, RowStart(p)) + Concat(Drop(m.parts, RowStart(p)));
        if i.value + |all| > |text| then text
        else text[..i.value] + (Front(m.parts, RowStart(p)) + (" " + value + " |")) + text[i.value + |all|..]
  }

  /** Where the search stops, and what stands there. */
  lemma SearchStops(text: string, p: LabelPattern) returns (before: string, after: string)
    requires GoodTitle(p) && Found(Cells(text), p)
    ensures var cs := Cells(text); var r := FindFrom(cs, p, 1);
            && r + 2 < |cs| && Names(cs[r], p) && BarFree(cs[r + 1]) && '\n' !in Strip(cs[r + 1])
            && before == Join(cs[..r]) && after == Join(cs[r + 2..])
            && Search(RowPattern(p), text) == Some(|before|)
            && text == before + ("|" + (cs[r] + ("|" + (cs[r + 1] + ("|" + after)))))
  {
    hide Names, Match, RowPattern, GoodTitle, Cells;
    var cs := Cells(text);
    FindIs(cs, p, 1);
    CellsBarFree(text);
    JoinSplit(text);
    SearchCells(cs, p);
    var r := FindFrom(cs, p, 1);
    before, after := Join(cs[..r]), Join(cs[r + 2..]);
    assert cs[..r] + cs[r..] == cs;
    JoinAppend(cs[..r], cs[r..]);
    assert cs[r..][1..] == cs[r + 1..] && cs[r + 1..][1..] == cs[r + 2..];
    JoinCons(cs[r..]);
    JoinCons(cs[r + 1..]);
    assert cs[r + 1] in cs;
  }

  /** Reading with the regular expression is reading the cells. */
  lemma SearchReadsCell(text: string, p: LabelPattern)
    requires GoodTitle(p)
    ensures SearchValue(text, p) == ReadCell(text, p)
  {
    hide Names, Match, RowPattern, GoodTitle, Cells;
    if Found(Cells(text), p) {
      var cs, r := Cells(text), FindFrom(Cells(text), p, 1);
      var before, after := SearchStops(text, p);
      RowTakes(p, cs[r], cs[r + 1], after);
      assert text[|before|..] == "|" + (cs[r] + ("|" + (cs[r + 1] + ("|" + after))));
      StripIs(cs[r + 1]);
      StripIdentity(Strip(cs[r + 1]));
    } else {
      CellsBarFree(text);
      JoinSplit(text);
      SearchCells(Cells(text), p);
    }
  }

  /** Substituting with the regular expression is writing the one cell. */
  lemma SubstituteWritesCell(text: string, p: LabelPattern, value: string)
    requires GoodTitle(p)
    ensures SubstituteValue(text, p, value) == WriteCell(text, p, value)
  {
    hide Names, Match, RowPattern, GoodTitle, Cells, Front, Drop, Join;
    if Found(Cells(text), p) {
      var cs, r := Cells(text), FindFrom(Cells(text), p, 1);
      var before, after := SearchStops(text, p);
      RowTakes(p, cs[r], cs[r + 1], after);
      var row := "|" + (cs[r] + ("|" + (cs[r + 1] + ("|" + after))));
      assert text[|before|..] == row;
      CutText(before, cs[r], cs[r + 1], after, text);
      WrittenText(cs, r, value, before, after);
    } else {
      CellsBarFree(text);
      JoinSplit(text);
      SearchCells(Cells(text), p);
    }
  }

  /** The same with the template compiled first: `None` where that raises, match or no match. */
  function SubstituteTemplate(text: string, p: LabelPattern, value: string): Option<string> {
    var parts := ParseTemplate(RowTemplate(value));
    if parts.None? then None else Some(
      var i := Search(RowPattern(p), text);
      if i.None? || i.value > |text| then text else
        var m := Match(RowPattern(p), text[i.value..]);
        if m.NoMatch? then text else
          var title := Front(m.parts, RowStart(p));
          var all := title + Concat(Drop(m.parts, RowStart(p)));
          if i.value + |all| > |text| then text
          else text[..i.value] + Fill(parts.value, all, title) + text[i.value + |all|..])
  }

  lemma FilledAt(text: string, p: LabelPattern, value: string, i: nat, label': string, all: string)
    requires IsTemplate(value) && Search(RowPattern(p), text) == Some(i) && i + |all| <= |text|
    requires var m := Match(RowPattern(p), text[i..]);
             m.Matched? && label' == Front(m.parts, RowStart(p)) && all == label' + Concat(Drop(m.parts, RowStart(p)))
    ensures SubstituteTemplate(text, p, value)
         == Some(text[..i] + Fill(ParseTemplate(RowTemplate(value)).value, all, label') + text[i + |all|..])
  {
    hide Match, RowPattern, Front, Drop, ParseTemplate, RowTemplate, Fill, Search, Concat;
  }

  lemma NothingFilled(text: string, p: LabelPattern, value: string)
    requires IsTemplate(value) && Search(RowPattern(p), text).None?
    ensures SubstituteTemplate(text, p, value) == Some(text)
  {
    hide Match, RowPattern, Front, Drop, ParseTemplate, RowTemplate, Fill, Search, Concat;
  }

  lemma FilledRow(text: string, p: LabelPattern, value: string)
    requires IsTemplate(value) && Found(Cells(text), p)
    ensures var cs, r := Cells(text), FindFrom(Cells(text), p, 1);
            && r + 2 < |cs|
            && var label' := "|" + (cs[r] + "|");
               WriteRow(text, p, value)
               == Some(Join(cs[..r]) + Fill(ParseTemplate(RowTemplate(value)).value, label' + (cs[r + 1] + "|"), label') + Join(cs[r + 2..]))
  {
    hide Names, Cells, Join, ParseTemplate, RowTemplate, Fill, FindFrom;
    FindIs(Cells(text), p, 1);
  }

  /** On any text and for any value, running the pattern and the template is the write in terms of cells. */
  lemma TemplateWritesRow(text: string, p: LabelPattern, value: string)
    requires GoodTitle(p)
    ensures SubstituteTemplate(text, p, value) == WriteRow(text, p, value)
  {
    hide Names, Match, RowPattern, GoodTitle, Cells, Front, Drop, Join, ParseTemplate, RowTemplate, Fill, Concat, FindFrom, Search, WriteRow, SubstituteTemplate;
    RaisesIsNoTemplate(text, p, value);
    NoTemplateRaises(text, p, value);
    if IsTemplate(value) && Found(Cells(text), p) {
      var cs, r := Cells(text), FindFrom(Cells(text), p, 1);
      var before, after := SearchStops(text, p);
      RowTakes(p, cs[r], cs[r + 1], after);
      assert text[|before|..] == "|" + (cs[r] + ("|" + (cs[r + 1] + ("|" + after))));
      CutText(before, cs[r], cs[r + 1], after, text);
      FilledRow(text, p, value);
      FilledAt(text, p, value, |before|, "|" + (cs[r] + "|"), "|" + (cs[r] + "|") + (cs[r + 1] + "|"));
    } else if IsTemplate(value) {
      CellsBarFree(text);
      JoinSplit(text);
      SearchCells(Cells(text), p);
      NothingFilled(text, p, value);
      NotFoundStays(text, p, value);
    }
  }

  lemma NoTemplateRaises(text: string, p: LabelPattern, value: string)
    ensures SubstituteTemplate(text, p, value).None? <==> !IsTemplate(value)
  {
    hide Match, RowPattern, Front, Drop, ParseTemplate, RowTemplate, Fill, Search, Concat;
  }

  lemma NotFoundStays(text: string, p: LabelPattern, value: string)
    requires IsTemplate(value) && !Found(Cells(text), p)
    ensures WriteRow(text, p, value) == Some(text)
  {
    hide Cells, Join, ParseTemplate, RowTemplate, Fill, FindFrom;
  }

  /** A value without a backslash is no more than itself, so the substitution writes the one cell. */
  lemma TemplateWritesCell(text: string, p: LabelPattern, value: string)
    requires GoodTitle(p) && '\\' !in value
    ensures SubstituteTemplate(text, p, value) == Some(WriteCell(text, p, value))
  {
    hide SubstituteTemplate, GoodTitle, WriteRow, WriteCell;
    TemplateWritesRow(text, p, value);
    PlainWriteRow(text, p, value);
  }

  lemma CutText(before: string, c1: string, c2: string, after: string, text: string)
    requires text == before + ("|" + (c1 + ("|" + (c2 + ("|" + after)))))
    ensures var all := "|" + (c1 + "|") + (c2 + "|");
            |before| + |all| <= |text| && text[..|before|] == before && text[|before| + |all|..] == after
  {
  }
}
