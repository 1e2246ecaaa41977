/** Line-ending normalisation: the text a content hash names (src/freeze.py). */
module LineEndings {

  /** `text.replace("\r\n", "\n")` */
  function FoldCrLf(s: string): string {
    if |s| < 2 then s
    else if s[0] == '\r' && s[1] == '\n' then "\n" + FoldCrLf(s[2..])
    else [s[0]] + FoldCrLf(s[1..])
  }

  /** `text.replace("\r", "\n")` */
  function FoldCr(s: string): string {
    if s == "" then "" else [if s[0] == '\r' then '\n' else s[0]] + FoldCr(s[1..])
  }

  function Normalize(s: string): string { FoldCr(FoldCrLf(s)) }

  /** SHA-256, modelled as an injective function of the text. */
  datatype Digest = Sha256(text: string)

  /** `hash_artifact_content` */
  function HashArtifactContent(s: string): Digest { Sha256(Normalize(s)) }

  /** The one-pass translation that text-mode reading applies. */
  function Universal(s: string): string {
    if s == "" then ""
    else if s[0] != '\r' then [s[0]] + Universal(s[1..])
    else "\n" + Universal(if |s| > 1 && s[1] == '\n' then s[2..] else s[1..])
  }

  /** The lines of a text, whatever mixture of endings separates them. */
  function Lines(s: string): (ls: seq<string>)
    ensures |ls| >= 1
  {
    if s == "" then [""]
    else if s[0] == '\n' then [""] + Lines(s[1..])
    else if s[0] == '\r' then [""] + Lines(if |s| > 1 && s[1] == '\n' then s[2..] else s[1..])
    else var ls := Lines(s[1..]); [[s[0]] + ls[0]] + ls[1..]
  }

  lemma {:induction false} TwoPassesAreOne(s: string)
    ensures Normalize(s) == Universal(s)
  {
    if |s| == 1 {
      assert s[1..] == "" && FoldCrLf(s) == s && Universal(s[1..]) == "" && FoldCr(s[1..]) == "";
    } else if |s| >= 2 {
      if s[0] == '\r' && s[1] == '\n' {
        TwoPassesAreOne(s[2..]);
        assert ("\n" + FoldCrLf(s[2..]))[1..] == FoldCrLf(s[2..]);
      } else {
        TwoPassesAreOne(s[1..]);
        assert ([s[0]] + FoldCrLf(s[1..]))[1..] == FoldCrLf(s[1..]);
      }
    }
  }

  lemma {:induction false} UniversalLeavesNoCr(s: string)
    ensures '\r' !in Universal(s)
    decreases |s|
  {
    if s != "" {
      UniversalLeavesNoCr(if s[0] == '\r' && |s| > 1 && s[1] == '\n' then s[2..] else s[1..]);
    }
  }

  lemma {:induction false} UniversalFixesCrFree(s: string)
    requires '\r' !in s
    ensures Universal(s) == s
  {
    if s != "" { UniversalFixesCrFree(s[1..]); assert [s[0]] + s[1..] == s; }
  }

  /** No carriage return is left, a second pass changes nothing, and hashing the text as
      read (line endings already folded) names the same digest as hashing it raw. */
  lemma NormalizeIsCanonical(s: string)
    ensures '\r' !in Normalize(s)
    ensures Normalize(Normalize(s)) == Normalize(s)
    ensures HashArtifactContent(Universal(s)) == HashArtifactContent(s)
  {
    TwoPassesAreOne(s);
    UniversalLeavesNoCr(s);
    TwoPassesAreOne(Normalize(s));
    UniversalFixesCrFree(Normalize(s));
  }

  function JoinLines(ls: seq<string>): string
    requires |ls| >= 1
  {
    if |ls| == 1 then ls[0] else ls[0] + "\n" + JoinLines(ls[1..])
  }

  lemma JoinMore(ls: seq<string>)
    requires |ls| > 1
    ensures JoinLines(ls) == ls[0] + "\n" + JoinLines(ls[1..])
  {
  }

  lemma CharFirst(c: char, a: string, b: string)
    ensures [c] + a + "\n" + b == [c] + (a + "\n" + b)
  {
  }

  lemma JoinHead(c: char, ls: seq<string>)
    requires ls != []
    ensures JoinLines([[c] + ls[0]] + ls[1..]) == [c] + JoinLines(ls)
  {
    var next := [[c] + ls[0]] + ls[1..];
    assert next[0] == [c] + ls[0] && next[1..] == ls[1..];
    if |ls| > 1 {
      hide JoinLines;
      JoinMore(ls);
      JoinMore(next);
      CharFirst(c, ls[0], JoinLines(ls[1..]));
    }
  }

  lemma JoinBlank(ls: seq<string>)
    requires ls != []
    ensures JoinLines([""] + ls) == "\n" + JoinLines(ls)
  {
    assert ([""] + ls)[1..] == ls;
  }

  lemma {:induction false} NormalizeJoinsLines(s: string)
    ensures Universal(s) == JoinLines(Lines(s))
    decreases |s|
  {
    if s != "" {
      hide JoinLines;
      var rest := if s[0] == '\r' && |s| > 1 && s[1] == '\n' then s[2..] else s[1..];
      NormalizeJoinsLines(rest);
      if s[0] != '\r' && s[0] != '\n' { JoinHead(s[0], Lines(rest)); } else { JoinBlank(Lines(rest)); }
    }
  }

  lemma {:induction false} LinesSurviveNormalize(s: string)
    ensures Lines(Universal(s)) == Lines(s)
    decreases |s|
  {
    if s != "" {
      var rest := if s[0] == '\r' && |s| > 1 && s[1] == '\n' then s[2..] else s[1..];
      LinesSurviveNormalize(rest);
      assert Universal(s)[1..] == Universal(rest);
    }
  }

  /** Two texts have the same digest exactly when they have the same lines. */
  lemma SameDigestIffSameLines(a: string, b: string)
    ensures HashArtifactContent(a) == HashArtifactContent(b) <==> Lines(a) == Lines(b)
  {
    TwoPassesAreOne(a);
    TwoPassesAreOne(b);
    NormalizeJoinsLines(a);
    NormalizeJoinsLines(b);
    LinesSurviveNormalize(a);
    LinesSurviveNormalize(b);
  }
}
