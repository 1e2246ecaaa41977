/** Saving a ledger and loading the file back: exactly which ledgers survive. */
module LedgerRoundTrip {
  import opened Text
  import opened Regex
  import opened LedgerText
  import opened Sorting
  import LineEndings

  // ---- what the file can carry ----

  /** Text that a `[^|]*` cell gives back unchanged. */
  predicate CellText(s: string) { Trimmed(s) && '|' !in s && OneLine(s) }

  predicate Solid(s: string) { s != "" && forall c :: c in s ==> !IsSpace(c) }

  predicate WordText(s: string) { s != "" && forall c :: c in s ==> IsWordChar(c) }

  /** A cell printed as `-` reads back as missing. */
  function NormCell(v: Option<string>): Option<string> {
    if v.None? || v.value == "" || v.value == "-" then None else v
  }

  predicate CarriesCell(v: Option<string>) { NormCell(v).Some? ==> CellText(v.value) }

  /** The row without what the table has no column for. */
  function NormPhase(r: ItemPhaseStatus): ItemPhaseStatus {
    r.(agentId := NormCell(r.agentId), started := None, completed := None,
       outputPath := NormCell(r.outputPath), validation := NormCell(r.validation))
  }

  function NormGate(g: GroupGateResult): GroupGateResult { g.(gateFilePath := "") }

  function Norm(L: Ledger): Ledger {
    Ledger(map k | k in L.phases :: NormPhase(L.phases[k]), map g | g in L.gates :: NormGate(L.gates[g]))
  }

  predicate StorablePhase(r: ItemPhaseStatus) {
    && Solid(r.itemId) && WordText(r.phase) && WordText(r.status)
    && CarriesCell(r.agentId) && CarriesCell(r.validation) && CarriesCell(r.outputPath)
    && r.iterations >= 0
  }

  predicate StorableGate(g: GroupGateResult) {
    && CellText(g.groupName) && WordText(g.status)
    && g.testsBefore >= 0 && g.testsAfter >= 0 && g.itemsCompleted >= 0 && g.itemsTotal >= 0
  }

  /** A printed row that the loader takes for neither a heading nor a section title. */
  predicate Visible(line: string) {
    !Contains(line, PHASE_TITLE) && !Contains(line, GATE_TITLE) && !Heading(line)
  }

  predicate Untitled(cell: string) { !Contains(cell, PHASE_TITLE) && !Contains(cell, GATE_TITLE) }

  predicate CarriesPhase(r: ItemPhaseStatus) {
    && StorablePhase(r) && r.phase in PHASES && !StartsWith(r.itemId, "Group")
    && Untitled(Cell(r.agentId)) && Untitled(Cell(r.validation)) && Untitled(Cell(r.outputPath))
  }

  predicate CarriesGate(g: GroupGateResult) {
    && StorableGate(g) && !StartsWith(g.groupName, "Group") && !StartsWith(g.groupName, "Item ID")
    && Untitled(g.groupName)
  }

  ghost predicate Carryable(L: Ledger) {
    && (forall k :: k in L.phases ==> CarriesPhase(L.phases[k]))
    && (forall g :: g in L.gates ==> CarriesGate(L.gates[g]))
  }

  /** `datetime.isoformat()` in UTC. */
  predicate IsoStamp(s: string) { forall c :: c in s ==> IsDigit(c) || c in "-:.+T" }

  // ---- one printed cell, read back ----

  lemma TokenStep(k: CharClass, rest: Pattern, w: string, tail: string, r: Parts)
    requires Solid(w) && AllIn(w, k) && !In(' ', k)
    requires Match(rest, tail) == Matched(r)
    ensures Match(TokenCell(k, rest), " " + (w + (" |" + tail)))
         == Matched(Cons(" ", Cons(w, Cons(" ", Cons("|", r)))))
  {
    Take(One(Lit('|')), rest, "|", tail, r);
    Take(Star(Space), Then(One(Lit('|')), rest), " ", "|" + tail, Cons("|", r));
    assert " |" + tail == " " + ("|" + tail);
    Take(Plus(k), Then(Star(Space), Then(One(Lit('|')), rest)), w, " |" + tail, Cons(" ", Cons("|", r)));
    Take(Star(Space), Then(Plus(k), Then(Star(Space), Then(One(Lit('|')), rest))), " ", w + (" |" + tail),
         Cons(w, Cons(" ", Cons("|", r))));
  }

  lemma FreeStep(rest: Pattern, x: string, tail: string, r: Parts)
    requires x != "" && CellText(x)
    requires Match(rest, tail) == Matched(r)
    ensures Match(FreeCell(rest), " " + (x + (" |" + tail))) == Matched(Cons(" ", Cons(x + " ", Cons("|", r))))
  {
    Take(One(Lit('|')), rest, "|", tail, r);
    assert x + (" |" + tail) == (x + " ") + ("|" + tail);
    Take(Star(NotPipe), Then(One(Lit('|')), rest), x + " ", "|" + tail, Cons("|", r));
    Take(Star(Space), Then(Star(NotPipe), Then(One(Lit('|')), rest)), " ", x + (" |" + tail),
         Cons(x + " ", Cons("|", r)));
  }

  lemma BlankBar(rest: Pattern, tail: string, r: Parts)
    requires Match(rest, tail) == Matched(r)
    ensures Match(Then(Star(Space), Then(One(Lit('|')), rest)), " |" + tail) == Matched(Cons(" ", Cons("|", r)))
  {
    Take(One(Lit('|')), rest, "|", tail, r);
    Take(Star(Space), Then(One(Lit('|')), rest), " ", "|" + tail, Cons("|", r));
    assert " |" + tail == " " + ("|" + tail);
  }

  function SignText(n: int): string { if n < 0 then "-" else "" }
  function Magnitude(n: int): nat { if n < 0 then -n else n }

  lemma SignedDigits(rest: Pattern, sign: string, d: string, tail: string, r: Parts)
    requires (sign == "" || sign == "-") && d != "" && AllIn(d, Digit)
    requires tail != "" && !In(tail[0], Digit) && Match(rest, tail) == Matched(r)
    ensures Match(Then(Opt(Lit('-')), Then(Plus(Digit), rest)), sign + (d + tail)) == Matched(Cons(sign, Cons(d, r)))
  {
    Take(Plus(Digit), rest, d, tail, r);
    Take(Opt(Lit('-')), Then(Plus(Digit), rest), sign, d + tail, Cons(d, r));
  }

  lemma SignedText(rest: Pattern, sign: string, d: string, tail: string, r: Parts)
    requires (sign == "" || sign == "-") && d != "" && AllIn(d, Digit) && Match(rest, tail) == Matched(r)
    ensures Match(SignedCell(rest), " " + (sign + (d + (" |" + tail))))
         == Matched(Cons(" ", Cons(sign, Cons(d, Cons(" ", Cons("|", r))))))
  {
    var p := Then(Star(Space), Then(One(Lit('|')), rest));
    BlankBar(rest, tail, r);
    SignedDigits(p, sign, d, " |" + tail, Cons(" ", Cons("|", r)));
    var s := sign + (d + (" |" + tail));
    assert s[0] == (if sign == "" then d[0] else '-');
    assert In(d[0], Digit);
    Take(Star(Space), Then(Opt(Lit('-')), Then(Plus(Digit), p)), " ", s,
         Cons(sign, Cons(d, Cons(" ", Cons("|", r)))));
  }

  lemma SignedStep(rest: Pattern, n: int, tail: string, r: Parts)
    requires Match(rest, tail) == Matched(r)
    ensures Match(SignedCell(rest), " " + (IntText(n) + (" |" + tail)))
         == Matched(Cons(" ", Cons(SignText(n), Cons(NatText(Magnitude(n)), Cons(" ", Cons("|", r))))))
  {
    NatTextDigits(Magnitude(n));
    SignedText(rest, SignText(n), NatText(Magnitude(n)), tail, r);
    assert IntText(n) + (" |" + tail) == SignText(n) + (NatText(Magnitude(n)) + (" |" + tail));
  }

  predicate TokenOf(w: string, k: CharClass) { Solid(w) && AllIn(w, k) && !In(' ', k) }

  lemma RatioText(rest: Pattern, a: string, b: string, tail: string, r: Parts)
    requires TokenOf(a, Digit) && TokenOf(b, Digit) && Match(rest, tail) == Matched(r)
    ensures Match(RatioCell(rest), " " + (a + ("/" + (b + (" |" + tail)))))
         == Matched(Cons(" ", Cons(a, Cons("/", Cons(b, Cons(" ", Cons("|", r)))))))
  {
    BlankBar(rest, tail, r);
    var p3 := Then(Star(Space), Then(One(Lit('|')), rest));
    var s3 := " |" + tail;
    var m3 := Cons(" ", Cons("|", r));
    Take(Plus(Digit), p3, b, s3, m3);
    var p2 := Then(Plus(Digit), p3);
    Take(One(Lit('/')), p2, "/", b + s3, Cons(b, m3));
    var p1 := Then(One(Lit('/')), p2);
    Take(Plus(Digit), p1, a, "/" + (b + s3), Cons("/", Cons(b, m3)));
    Take(Star(Space), Then(Plus(Digit), p1), " ", a + ("/" + (b + s3)), Cons(a, Cons("/", Cons(b, m3))));
  }

  lemma RatioStep(rest: Pattern, a: nat, b: nat, tail: string, r: Parts)
    requires Match(rest, tail) == Matched(r)
    ensures Match(RatioCell(rest), " " + (NatText(a) + ("/" + (NatText(b) + (" |" + tail)))))
         == Matched(Cons(" ", Cons(NatText(a), Cons("/", Cons(NatText(b), Cons(" ", Cons("|", r)))))))
  {
    DigitsAreSolid(a);
    DigitsAreSolid(b);
    RatioText(rest, NatText(a), NatText(b), tail, r);
  }

  /** A group name may be empty: the pattern then gives one blank back to the name. */
  lemma EmptyNameStep(name: Pattern, s: string, t: string, r: Parts)
    requires s == "  " + t && t != "" && !IsSpace(t[0])
    requires Match(name, t) == NoMatch && Match(name, " " + t) == Matched(r)
    ensures Match(Then(Star(Space), name), s) == Matched(Cons(" ", r))
  {
    assert s[..2] == "  " && s[2] == t[0];
    RunAtLeast(Space, s, 2);
    RunAtMost(Space, s, 2);
    assert s[2..] == t && s[1..] == " " + t && s[..1] == " ";
    assert Descend(Star(Space), name, s, 1) == Matched(Cons(" ", r));
    assert Descend(Star(Space), name, s, 2) == Descend(Star(Space), name, s, 1);
  }

  lemma NameText(rest: Pattern, x: string, tail: string, r: Parts)
    requires CellText(x) && Match(rest, tail) == Matched(r)
    ensures Match(Then(Plus(NotPipe), Then(One(Lit('|')), rest)), (x + " ") + ("|" + tail))
         == Matched(Cons(x + " ", Cons("|", r)))
  {
    Take(One(Lit('|')), rest, "|", tail, r);
    Take(Plus(NotPipe), Then(One(Lit('|')), rest), x + " ", "|" + tail, Cons("|", r));
  }

  lemma NameStep(rest: Pattern, x: string, tail: string, r: Parts)
    requires CellText(x) && Match(rest, tail) == Matched(r)
    ensures Match(NameCell(rest), " " + (x + (" |" + tail))) == Matched(Cons(" ", Cons(x + " ", Cons("|", r))))
  {
    var name := Then(Plus(NotPipe), Then(One(Lit('|')), rest));
    NameText(rest, x, tail, r);
    var s := x + (" |" + tail);
    assert s == (x + " ") + ("|" + tail);
    if x != "" {
      Take(Star(Space), name, " ", s, Cons(x + " ", Cons("|", r)));
    } else {
      var t := "|" + tail;
      NothingToTake(NotPipe, Then(One(Lit('|')), rest), t);
      assert s == " " + t && x + " " == " ";
      EmptyNameStep(name, " " + s, t, Cons(x + " ", Cons("|", r)));
    }
  }

  lemma RunAtMost(k: CharClass, s: string, n: nat)
    requires n < |s| && !In(s[n], k)
    ensures Run(k, s) <= n
  {
    RunIs(k, s);
    var r := Run(k, s);
    assert forall i :: 0 <= i < r ==> s[..r][i] == s[i];
  }

  lemma NothingToTake(k: CharClass, rest: Pattern, s: string)
    requires s != "" && !In(s[0], k)
    ensures Match(Then(Plus(k), rest), s) == NoMatch
  {
  }

  // ---- one printed row, read back ----

  lemma PipeFree(s: string)
    requires '|' !in s
    ensures Escape(s) == s && Unescape(s) == s
  {
    if s != "" {
      PipeFree(s[1..]);
      assert [s[0]] + s[1..] == s;
    }
  }

  lemma CellIsText(v: Option<string>)
    requires CarriesCell(v)
    ensures Cell(v) != "" && CellText(Cell(v))
    ensures ReadCell(Strip(Cell(v) + " ")) == NormCell(v)
  {
    PaddedReads(Cell(v));
  }

  lemma SolidStrips(w: string)
    requires Solid(w)
    ensures Strip(w) == w
  {
    StripIdentity(w);
  }

  lemma WordIsSolid(w: string)
    requires WordText(w)
    ensures Solid(w) && AllIn(w, Word)
  {
  }

  lemma DigitsAreSolid(n: nat)
    ensures Solid(NatText(n)) && AllIn(NatText(n), Digit) && NatOf(NatText(n)) == n
  {
    NatTextDigits(n);
    NatRoundTrip(n);
  }

  lemma ThreeTokens(k1: CharClass, k2: CharClass, k3: CharClass, rest: Pattern,
                    a: string, b: string, c: string, tail: string, r: Parts)
    requires TokenOf(a, k1) && TokenOf(b, k2) && TokenOf(c, k3)
    requires Match(rest, tail) == Matched(r)
    ensures Match(TokenCell(k1, TokenCell(k2, TokenCell(k3, rest))),
                  " " + (a + (" |" + (" " + (b + (" |" + (" " + (c + (" |" + tail)))))))))
         == Matched(Cons(" ", Cons(a, Cons(" ", Cons("|", Cons(" ", Cons(b, Cons(" ", Cons("|",
                    Cons(" ", Cons(c, Cons(" ", Cons("|", r)))))))))))))
  {
    var m3 := Cons(" ", Cons(c, Cons(" ", Cons("|", r))));
    TokenStep(k3, rest, c, tail, r);
    var s3 := " " + (c + (" |" + tail));
    var m2 := Cons(" ", Cons(b, Cons(" ", Cons("|", m3))));
    TokenStep(k2, TokenCell(k3, rest), b, s3, m3);
    TokenStep(k1, TokenCell(k2, TokenCell(k3, rest)), a, " " + (b + (" |" + s3)), m2);
  }

  function PhaseTailParts(agent: string, val: string, n: string, out: string): Parts {
    Cons(" ", Cons(agent + " ", Cons("|", Cons(" ", Cons(val + " ", Cons("|",
    Cons(" ", Cons(n, Cons(" ", Cons("|", Cons(" ", Cons(out + " ", Cons("|", Nil)))))))))))))
  }

  lemma PhaseTail(agent: string, val: string, n: string, out: string)
    requires CellText(agent) && CellText(val) && CellText(out) && agent != "" && val != "" && out != ""
    requires Solid(n) && AllIn(n, Digit)
    ensures Match(FreeCell(FreeCell(TokenCell(Digit, FreeCell(Done)))),
                  " " + (agent + (" |" + (" " + (val + (" |" + (" " + (n + (" |" + (" " + (out + (" |" + ""))))))))))))
         == Matched(PhaseTailParts(agent, val, n, out))
  {
    FreeStep(Done, out, "", Nil);
    var s4, m4 := " " + (out + (" |" + "")), Cons(" ", Cons(out + " ", Cons("|", Nil)));
    TokenStep(Digit, FreeCell(Done), n, s4, m4);
    var s3, m3 := " " + (n + (" |" + s4)), Cons(" ", Cons(n, Cons(" ", Cons("|", m4))));
    FreeStep(TokenCell(Digit, FreeCell(Done)), val, s3, m3);
    FreeStep(FreeCell(TokenCell(Digit, FreeCell(Done))), agent, " " + (val + (" |" + s3)),
             Cons(" ", Cons(val + " ", Cons("|", m3))));
  }

  function PhaseParts(r: ItemPhaseStatus): Parts
    requires r.iterations >= 0
  {
    Cons("|", Cons(" ", Cons(r.itemId, Cons(" ", Cons("|", Cons(" ", Cons(r.phase, Cons(" ", Cons("|",
    Cons(" ", Cons(r.status, Cons(" ", Cons("|",
    PhaseTailParts(Cell(r.agentId), Cell(r.validation), NatText(r.iterations), Cell(r.outputPath)))))))))))))))
  }

  lemma PhaseLineMatches(r: ItemPhaseStatus)
    requires StorablePhase(r)
    ensures Match(PhasePattern(), PhaseLine(r)) == Matched(PhaseParts(r))
  {
    var agent, val, out, n := Cell(r.agentId), Cell(r.validation), Cell(r.outputPath), NatText(r.iterations);
    CellIsText(r.agentId); CellIsText(r.validation); CellIsText(r.outputPath);
    PipeFree(val);
    DigitsAreSolid(r.iterations);
    PhaseTail(agent, val, n, out);
    var tail := " " + (agent + (" |" + (" " + (val + (" |" + (" " + (n + (" |" + (" " + (out + (" |" + "")))))))))));
    var rest := FreeCell(FreeCell(TokenCell(Digit, FreeCell(Done))));
    var m := PhaseTailParts(agent, val, n, out);
    PhaseLineCells(r, val);
    OpenRow(rest, r.itemId, r.phase, r.status, tail, m);
  }

  lemma OpenRow(rest: Pattern, a: string, b: string, c: string, tail: string, r: Parts)
    requires Solid(a) && WordText(b) && WordText(c) && Match(rest, tail) == Matched(r)
    ensures Match(Then(One(Lit('|')), TokenCell(NonSpace, TokenCell(Word, TokenCell(Word, rest)))),
                  "|" + (" " + (a + (" |" + (" " + (b + (" |" + (" " + (c + (" |" + tail))))))))))
         == Matched(Cons("|", Cons(" ", Cons(a, Cons(" ", Cons("|", Cons(" ", Cons(b, Cons(" ", Cons("|",
                    Cons(" ", Cons(c, Cons(" ", Cons("|", r))))))))))))))
  {
    ThreeTokens(NonSpace, Word, Word, rest, a, b, c, tail, r);
    Take(One(Lit('|')), TokenCell(NonSpace, TokenCell(Word, TokenCell(Word, rest))), "|",
         " " + (a + (" |" + (" " + (b + (" |" + (" " + (c + (" |" + tail)))))))),
         Cons(" ", Cons(a, Cons(" ", Cons("|", Cons(" ", Cons(b, Cons(" ", Cons("|",
              Cons(" ", Cons(c, Cons(" ", Cons("|", r)))))))))))));
  }

  lemma PhasePartsFields(r: ItemPhaseStatus)
    requires r.iterations >= 0
    ensures ParsedPhase(PhaseParts(r)) == ItemPhaseStatus(
              Strip(r.itemId), Strip(r.phase), Strip(r.status), ReadCell(Strip(Cell(r.agentId) + " ")), None, None,
              ReadCell(Strip(Cell(r.outputPath) + " ")), ReadCell(Unescape(Strip(Cell(r.validation) + " "))),
              NatOf(NatText(r.iterations)))
  {
  }

  lemma PaddedReads(x: string)
    requires CellText(x)
    ensures Strip(x + " ") == x
    ensures Unescape(Strip(x + " ")) == x
  {
    StripPadded("", x, " ");
    assert "" + x + " " == x + " ";
    PipeFree(x);
  }

  lemma PhasePartsRead(r: ItemPhaseStatus)
    requires StorablePhase(r)
    ensures ParsedPhase(PhaseParts(r)) == NormPhase(r)
  {
    PhasePartsFields(r);
    CellIsText(r.agentId); CellIsText(r.validation); CellIsText(r.outputPath);
    PaddedReads(Cell(r.validation));
    WordIsSolid(r.phase); WordIsSolid(r.status); DigitsAreSolid(r.iterations);
    SolidStrips(r.itemId); SolidStrips(r.phase); SolidStrips(r.status);
  }

  lemma PhaseLineReads(r: ItemPhaseStatus)
    requires StorablePhase(r)
    ensures ReadPhase(PhaseLine(r)) == Some(NormPhase(r))
  {
    PhaseLineMatches(r);
    PhasePartsRead(r);
  }

  lemma Glue(x: string, t: string)
    ensures " | " + (x + t) == " |" + (" " + (x + t))
    ensures "| " + (x + t) == "|" + (" " + (x + t))
  {
  }

  lemma PhaseLineCells(r: ItemPhaseStatus, val: string)
    requires val == Escape(Cell(r.validation)) && r.iterations >= 0
    ensures PhaseLine(r) ==
      "|" + (" " + (r.itemId + (" |" + (" " + (r.phase + (" |" + (" " + (r.status + (" |" + (" " + (Cell(r.agentId) +
      (" |" + (" " + (val + (" |" + (" " + (NatText(r.iterations) + (" |" + (" " + (Cell(r.outputPath) + (" |" + "")))))))))))))))))))))
  {
    var e7 := " |" + "";
    assert e7 == " |";
    Glue(Cell(r.outputPath), e7);
    var e6 := " | " + (Cell(r.outputPath) + e7);
    Glue(NatText(r.iterations), e6);
    var e5 := " | " + (NatText(r.iterations) + e6);
    Glue(val, e5);
    var e4 := " | " + (val + e5);
    Glue(Cell(r.agentId), e4);
    var e3 := " | " + (Cell(r.agentId) + e4);
    Glue(r.status, e3);
    var e2 := " | " + (r.status + e3);
    Glue(r.phase, e2);
    Glue(r.itemId, " | " + (r.phase + e2));
  }

  // ---- gate rows ----

  function GateTailParts(d: int, lint: string, done: nat, total: nat): Parts {
    Cons(" ", Cons(SignText(d), Cons(NatText(Magnitude(d)), Cons(" ", Cons("|",
    Cons(" ", Cons(lint, Cons(" ", Cons("|",
    Cons(" ", Cons(NatText(done), Cons("/", Cons(NatText(total), Cons(" ", Cons("|", Nil)))))))))))))))
  }

  function GateTailCells(d: int, lint: string, done: nat, total: nat): string {
    " " + (IntText(d) + (" |" + (" " + (lint + (" |" +
    (" " + (NatText(done) + ("/" + (NatText(total) + (" |" + ""))))))))))
  }

  lemma GateTail(d: int, lint: string, done: nat, total: nat)
    requires WordText(lint)
    ensures Match(SignedCell(TokenCell(Word, RatioCell(Done))), GateTailCells(d, lint, done, total))
         == Matched(GateTailParts(d, lint, done, total))
  {
    RatioStep(Done, done, total, "", Nil);
    var s3 := " " + (NatText(done) + ("/" + (NatText(total) + (" |" + ""))));
    var m3 := Cons(" ", Cons(NatText(done), Cons("/", Cons(NatText(total), Cons(" ", Cons("|", Nil))))));
    TokenStep(Word, RatioCell(Done), lint, s3, m3);
    SignedStep(TokenCell(Word, RatioCell(Done)), d, " " + (lint + (" |" + s3)), Cons(" ", Cons(lint, Cons(" ", Cons("|", m3)))));
  }

  function GateParts(g: GroupGateResult): Parts
    requires g.testsBefore >= 0 && g.testsAfter >= 0 && g.itemsCompleted >= 0 && g.itemsTotal >= 0
  {
    Cons("|", Cons(" ", Cons(g.groupName + " ", Cons("|", Cons(" ", Cons(g.status, Cons(" ", Cons("|",
    Cons(" ", Cons(NatText(g.testsBefore), Cons(" ", Cons("|", Cons(" ", Cons(NatText(g.testsAfter), Cons(" ", Cons("|",
    GateTailParts(g.testsDelta, LintText(g.lintClean), g.itemsCompleted, g.itemsTotal)))))))))))))))))
  }

  function GateCells(name: string, a: string, b: string, c: string, tail: string): string {
    "|" + (" " + (name + (" |" + (" " + (a + (" |" + (" " + (b + (" |" + (" " + (c + (" |" + tail))))))))))))
  }

  lemma OpenGate(rest: Pattern, name: string, a: string, b: string, c: string, tail: string, r: Parts)
    requires CellText(name) && TokenOf(a, Word) && TokenOf(b, Digit) && TokenOf(c, Digit)
    requires Match(rest, tail) == Matched(r)
    ensures Match(Then(One(Lit('|')), NameCell(TokenCell(Word, TokenCell(Digit, TokenCell(Digit, rest))))),
                  GateCells(name, a, b, c, tail))
         == Matched(Cons("|", Cons(" ", Cons(name + " ", Cons("|", Cons(" ", Cons(a, Cons(" ", Cons("|",
                    Cons(" ", Cons(b, Cons(" ", Cons("|", Cons(" ", Cons(c, Cons(" ", Cons("|", r)))))))))))))))))
  {
    ThreeTokens(Word, Digit, Digit, rest, a, b, c, tail, r);
    var s2 := " " + (a + (" |" + (" " + (b + (" |" + (" " + (c + (" |" + tail))))))));
    var m2 := Cons(" ", Cons(a, Cons(" ", Cons("|", Cons(" ", Cons(b, Cons(" ", Cons("|",
              Cons(" ", Cons(c, Cons(" ", Cons("|", r))))))))))));
    NameStep(TokenCell(Word, TokenCell(Digit, TokenCell(Digit, rest))), name, s2, m2);
    Take(One(Lit('|')), NameCell(TokenCell(Word, TokenCell(Digit, TokenCell(Digit, rest)))), "|",
         " " + (name + (" |" + s2)), Cons(" ", Cons(name + " ", Cons("|", m2))));
  }

  lemma GateLineCells(g: GroupGateResult)
    requires StorableGate(g)
    ensures GateLine(g) == GateCells(g.groupName, g.status, NatText(g.testsBefore), NatText(g.testsAfter),
              GateTailCells(g.testsDelta, LintText(g.lintClean), g.itemsCompleted, g.itemsTotal))
  {
    var tail := "/" + (IntText(g.itemsTotal) + " |");
    assert " |" + "" == " |";
    Glue(IntText(g.itemsCompleted), tail);
    var e6 := " | " + (IntText(g.itemsCompleted) + tail);
    Glue(LintText(g.lintClean), e6);
    var e5 := " | " + (LintText(g.lintClean) + e6);
    Glue(IntText(g.testsDelta), e5);
    var e4 := " | " + (IntText(g.testsDelta) + e5);
    Glue(IntText(g.testsAfter), e4);
    var e3 := " | " + (IntText(g.testsAfter) + e4);
    Glue(IntText(g.testsBefore), e3);
    var e2 := " | " + (IntText(g.testsBefore) + e3);
    Glue(g.status, e2);
    Glue(g.groupName, " | " + (g.status + e2));
  }

  lemma NatIsToken(n: nat)
    ensures TokenOf(NatText(n), Digit)
  {
    DigitsAreSolid(n);
  }

  lemma WordIsToken(w: string)
    requires WordText(w)
    ensures TokenOf(w, Word)
  {
    WordIsSolid(w);
  }

  lemma GateLineMatches(g: GroupGateResult)
    requires StorableGate(g)
    ensures Match(GatePattern(), GateLine(g)) == Matched(GateParts(g))
  {
    GateLineCells(g);
    LintIsWord(g.lintClean);
    GateTail(g.testsDelta, LintText(g.lintClean), g.itemsCompleted, g.itemsTotal);
    WordIsToken(g.status);
    NatIsToken(g.testsBefore);
    NatIsToken(g.testsAfter);
    OpenGate(SignedCell(TokenCell(Word, RatioCell(Done))), g.groupName, g.status,
             NatText(g.testsBefore), NatText(g.testsAfter), GateTailCells(g.testsDelta, LintText(g.lintClean), g.itemsCompleted, g.itemsTotal),
             GateTailParts(g.testsDelta, LintText(g.lintClean), g.itemsCompleted, g.itemsTotal));
  }

  lemma GatePartsFields(g: GroupGateResult)
    requires g.testsBefore >= 0 && g.testsAfter >= 0 && g.itemsCompleted >= 0 && g.itemsTotal >= 0
    ensures ParsedGate(GateParts(g)) == GroupGateResult(
              Strip(g.groupName + " "), Strip(g.status), NatOf(NatText(g.testsBefore)), NatOf(NatText(g.testsAfter)),
              IntOf(SignText(g.testsDelta), NatText(Magnitude(g.testsDelta))), Strip(LintText(g.lintClean)) == "clean",
              NatOf(NatText(g.itemsCompleted)), NatOf(NatText(g.itemsTotal)), "")
  {
  }

  lemma IntRoundTrip(n: int)
    ensures IntOf(SignText(n), NatText(Magnitude(n))) == n
  {
    NatRoundTrip(Magnitude(n));
  }

  lemma WordStrips(w: string)
    requires WordText(w)
    ensures Strip(w) == w
  {
    WordIsSolid(w);
    SolidStrips(w);
  }

  lemma LintIsWord(clean: bool)
    ensures WordText(LintText(clean)) && Strip(LintText(clean)) == LintText(clean)
  {
    WordStrips(LintText(clean));
  }

  lemma GateTextsRead(g: GroupGateResult)
    requires StorableGate(g)
    ensures Strip(g.groupName + " ") == g.groupName
    ensures Strip(g.status) == g.status
    ensures Strip(LintText(g.lintClean)) == LintText(g.lintClean)
  {
    PaddedReads(g.groupName);
    WordStrips(g.status);
    LintIsWord(g.lintClean);
  }

  lemma GateCountsRead(g: GroupGateResult)
    requires StorableGate(g)
    ensures IntOf(SignText(g.testsDelta), NatText(Magnitude(g.testsDelta))) == g.testsDelta
    ensures NatOf(NatText(g.testsBefore)) == g.testsBefore && NatOf(NatText(g.testsAfter)) == g.testsAfter
    ensures NatOf(NatText(g.itemsCompleted)) == g.itemsCompleted && NatOf(NatText(g.itemsTotal)) == g.itemsTotal
  {
    IntRoundTrip(g.testsDelta);
    NatRoundTrip(g.testsBefore); NatRoundTrip(g.testsAfter);
    NatRoundTrip(g.itemsCompleted); NatRoundTrip(g.itemsTotal);
  }

  lemma GatePartsRead(g: GroupGateResult)
    requires StorableGate(g)
    ensures ParsedGate(GateParts(g)) == NormGate(g)
  {
    GatePartsFields(g);
    GateTextsRead(g);
    GateCountsRead(g);
  }

  lemma GateLineReads(g: GroupGateResult)
    requires StorableGate(g)
    ensures ReadGate(GateLine(g)) == Some(NormGate(g))
  {
    GateLineMatches(g);
    GatePartsRead(g);
  }
}
