/** A backtracking matcher for the patterns the harness uses: a concatenation of
    repeated character classes, tried in the order Python's `re` tries them.
    Greedy repetitions give characters back one at a time, lazy ones take one more. */
module Regex {
  import opened Text

  datatype CharClass = Lit(c: char) | Fold(c: char) | Space | NonSpace | Word | Digit | NotPipe | Dot

  predicate In(c: char, k: CharClass) {
    match k
    case Lit(d) => c == d
    case Fold(d) => LowerChar(c) == LowerChar(d)
    case Space => IsSpace(c)
    case NonSpace => !IsSpace(c)
    case Word => IsWordChar(c)
    case Digit => IsDigit(c)
    case NotPipe => c != '|'
    case Dot => c != '\n'
  }

  predicate AllIn(s: string, k: CharClass) { forall i :: 0 <= i < |s| ==> In(s[i], k) }

  datatype Piece = One(k: CharClass) | Opt(k: CharClass) | Star(k: CharClass) | Plus(k: CharClass) | Lazy(k: CharClass)

  datatype Pattern = Done | Then(piece: Piece, rest: Pattern)

  /** The text taken by each piece of a successful match, in order. */
  datatype Parts = Nil | Cons(head: string, tail: Parts) {
    function Text(): string { if Cons? then head else "" }
    function Next(): Parts { if Cons? then tail else Nil }
  }

  datatype MatchResult = NoMatch | Matched(parts: Parts)

  function Least(p: Piece): nat { if p.One? || p.Plus? then 1 else 0 }

  predicate AtMostOne(p: Piece) { p.One? || p.Opt? }

  /** Length of the longest prefix of `s` inside class `k`. */
  function Run(k: CharClass, s: string): (n: nat)
    ensures n <= |s|
  {
    if s == [] || !In(s[0], k) then 0 else 1 + Run(k, s[1..])
  }

  function Most(p: Piece, s: string): (n: nat)
    ensures n <= |s|
  {
    var n := Run(p.k, s);
    if AtMostOne(p) && n > 1 then 1 else n
  }

  lemma {:induction false} RunIs(k: CharClass, s: string)
    ensures var n := Run(k, s); AllIn(s[..n], k) && (n < |s| ==> !In(s[n], k))
  {
    if s != [] && In(s[0], k) {
      RunIs(k, s[1..]);
      var n := Run(k, s);
      assert forall i :: 1 <= i < n ==> s[..n][i] == s[1..][..n - 1][i - 1];
      if n < |s| { assert s[n] == s[1..][n - 1]; }
    }
  }

  /** `re.match` of `pat` at the start of `s`. */
  function Match(pat: Pattern, s: string): MatchResult
    decreases pat, |s| + 2
  {
    match pat
    case Done => Matched(Nil)
    case Then(p, rest) =>
      if p.Lazy? then Ascend(p, rest, s, 0) else Descend(p, rest, s, Most(p, s))
  }

  function Descend(p: Piece, rest: Pattern, s: string, n: nat): MatchResult
    requires n <= |s|
    decreases Then(p, rest), n
  {
    if n < Least(p) then NoMatch else
    match Match(rest, s[n..])
    case Matched(r) => Matched(Cons(s[..n], r))
    case NoMatch => if n == 0 then NoMatch else Descend(p, rest, s, n - 1)
  }

  function Ascend(p: Piece, rest: Pattern, s: string, n: nat): MatchResult
    requires n <= |s|
    decreases Then(p, rest), |s| - n
  {
    match Match(rest, s[n..])
    case Matched(r) => Matched(Cons(s[..n], r))
    case NoMatch => if n < Most(p, s) then Ascend(p, rest, s, n + 1) else NoMatch
  }

  // ---- what a match means ----

  predicate PieceFits(p: Piece, t: string) {
    AllIn(t, p.k) && |t| >= Least(p) && (AtMostOne(p) ==> |t| <= 1)
  }

  predicate Fits(pat: Pattern, parts: Parts) {
    match pat
    case Done => parts == Nil
    case Then(p, rest) => parts.Cons? && PieceFits(p, parts.head) && Fits(rest, parts.tail)
  }

  function Concat(parts: Parts): string {
    match parts
    case Nil => ""
    case Cons(h, t) => h + Concat(t)
  }

  /** A match is a parse: every piece takes text it may take, and together they
      are a prefix of the subject. */
  lemma {:induction false} MatchSound(pat: Pattern, s: string)
    ensures Match(pat, s).Matched? ==>
              Fits(pat, Match(pat, s).parts) && Concat(Match(pat, s).parts) <= s
    decreases pat, |s| + 2
  {
    if pat.Then? {
      if pat.piece.Lazy? {
        AscendSound(pat.piece, pat.rest, s, 0);
      } else {
        DescendSound(pat.piece, pat.rest, s, Most(pat.piece, s));
      }
    }
  }

  /** A piece that takes `n` characters it may take, before a parse of what follows. */
  lemma TakenFits(p: Piece, rest: Pattern, s: string, n: nat, r: Parts)
    requires Least(p) <= n <= Most(p, s) && Fits(rest, r) && Concat(r) <= s[n..]
    ensures Fits(Then(p, rest), Cons(s[..n], r)) && Concat(Cons(s[..n], r)) <= s
  {
    hide In;
    RunIs(p.k, s);
    assert forall i :: 0 <= i < n ==> s[..n][i] == s[..Run(p.k, s)][i];
    assert s == s[..n] + s[n..];
  }

  lemma {:induction false} DescendSound(p: Piece, rest: Pattern, s: string, n: nat)
    requires n <= Most(p, s)
    ensures var m := Descend(p, rest, s, n);
            m.Matched? ==> Fits(Then(p, rest), m.parts) && Concat(m.parts) <= s
    decreases Then(p, rest), n
  {
    hide Fits, Concat, Most, Match;
    if n >= Least(p) {
      MatchSound(rest, s[n..]);
      match Match(rest, s[n..])
      case Matched(r) => TakenFits(p, rest, s, n, r);
      case NoMatch => if n > 0 { DescendSound(p, rest, s, n - 1); }
    }
  }

  lemma {:induction false} AscendSound(p: Piece, rest: Pattern, s: string, n: nat)
    requires p.Lazy? && n <= Most(p, s)
    ensures var m := Ascend(p, rest, s, n);
            m.Matched? ==> Fits(Then(p, rest), m.parts) && Concat(m.parts) <= s
    decreases Then(p, rest), |s| - n
  {
    hide Fits, Concat, Most, Match;
    MatchSound(rest, s[n..]);
    match Match(rest, s[n..])
    case Matched(r) => TakenFits(p, rest, s, n, r);
    case NoMatch => if n < Most(p, s) { AscendSound(p, rest, s, n + 1); }
  }

  /** A subject that has a parse is matched: backtracking misses none. */
  lemma {:induction false} MatchComplete(pat: Pattern, s: string, parts: Parts)
    requires Fits(pat, parts) && Concat(parts) <= s
    ensures Match(pat, s).Matched?
    decreases pat, |s| + 2
  {
    match pat
    case Done =>
    case Then(p, rest) =>
      var h := parts.head;
      RunAtLeast(p.k, s, |h|);
      assert s[|h|..] == s[|h|..] && Concat(parts.tail) <= s[|h|..] by {
        assert Concat(parts) == h + Concat(parts.tail);
        assert s[|h|..][..|Concat(parts.tail)|] == Concat(parts)[|h|..];
      }
      MatchComplete(rest, s[|h|..], parts.tail);
      if p.Lazy? {
        AscendFinds(p, rest, s, 0, |h|);
      } else {
        DescendFinds(p, rest, s, Most(p, s), |h|);
      }
  }

  lemma {:induction false} RunAtLeast(k: CharClass, s: string, n: nat)
    requires n <= |s| && AllIn(s[..n], k)
    ensures n <= Run(k, s)
  {
    RunIs(k, s);
    assert forall i :: 0 <= i < n ==> s[..n][i] == s[i];
  }

  lemma {:induction false} DescendFinds(p: Piece, rest: Pattern, s: string, n: nat, want: nat)
    requires Least(p) <= want <= n <= |s| && Match(rest, s[want..]).Matched?
    ensures Descend(p, rest, s, n).Matched?
    decreases n
  {
    if n > want { DescendFinds(p, rest, s, n - 1, want); }
  }

  lemma {:induction false} AscendFinds(p: Piece, rest: Pattern, s: string, n: nat, want: nat)
    requires n <= want <= Most(p, s) && Match(rest, s[want..]).Matched?
    ensures Ascend(p, rest, s, n).Matched?
    decreases want - n
  {
    if n < want { AscendFinds(p, rest, s, n + 1, want); }
  }

  /** When a greedy piece takes all it can and the rest then matches, that is the match. */
  lemma Take(p: Piece, rest: Pattern, a: string, b: string, r: Parts)
    requires !p.Lazy? && PieceFits(p, a)
    requires b == [] || !In(b[0], p.k) || (AtMostOne(p) && |a| == 1)
    requires Match(rest, b) == Matched(r)
    ensures Match(Then(p, rest), a + b) == Matched(Cons(a, r))
  {
    var s := a + b;
    assert s[..|a|] == a && s[|a|..] == b;
    RunAtLeast(p.k, s, |a|);
    RunIs(p.k, s);
    var n := Run(p.k, s);
    if n > |a| {
      assert s[..n][|a|] == b[0];
    }
    assert Most(p, s) == |a|;
  }
}
