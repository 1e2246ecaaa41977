/** The laws of the ledger file: what loading can ever produce, which ledgers a
    save followed by a load gives back, and what a damaged row can and cannot do. */
module LedgerLaws {
  import opened Text
  import opened Regex
  import opened LedgerText
  import opened LedgerRoundTrip
  import opened LedgerVisible
  import opened Sorting
  import opened LineEndings

  // ---- everything the loader produces is storable ----

  predicate PartsOneLine(parts: Parts) { parts.Nil? || (OneLine(parts.head) && PartsOneLine(parts.tail)) }

  lemma {:induction false} PartsOfOneLine(parts: Parts, line: string)
    requires OneLine(line) && Concat(parts) <= line
    ensures PartsOneLine(parts)
  {
    if parts.Cons? {
      assert Concat(parts) == parts.head + Concat(parts.tail);
      assert forall i :: 0 <= i < |parts.head| ==> parts.head[i] == line[i];
      var rest := line[|parts.head|..];
      assert Concat(parts.tail) <= rest by {
        assert rest[..|Concat(parts.tail)|] == Concat(parts)[|parts.head|..];
      }
      assert forall c :: c in rest ==> c in line;
      PartsOfOneLine(parts.tail, rest);
    }
  }

  lemma Peel(p: Piece, rest: Pattern, parts: Parts)
    requires Fits(Then(p, rest), parts) && PartsOneLine(parts)
    ensures parts.Cons? && PieceFits(p, parts.head) && OneLine(parts.head)
    ensures Fits(rest, parts.tail) && PartsOneLine(parts.tail)
  {
  }

  lemma TokenFits(k: CharClass, rest: Pattern, parts: Parts)
    requires Fits(TokenCell(k, rest), parts) && PartsOneLine(parts)
    ensures var t := parts.Next().Text(); t != "" && AllIn(t, k) && OneLine(t)
    ensures Fits(rest, AfterToken(parts)) && PartsOneLine(AfterToken(parts))
  {
    var bar := Then(One(Lit('|')), rest);
    Peel(Star(Space), Then(Plus(k), Then(Star(Space), bar)), parts);
    Peel(Plus(k), Then(Star(Space), bar), parts.tail);
    Peel(Star(Space), bar, parts.tail.tail);
    Peel(One(Lit('|')), rest, parts.tail.tail.tail);
  }

  lemma FreeFits(rest: Pattern, parts: Parts)
    requires Fits(FreeCell(rest), parts) && PartsOneLine(parts)
    ensures var t := parts.Next().Text(); '|' !in t && OneLine(t)
    ensures Fits(rest, AfterFree(parts)) && PartsOneLine(AfterFree(parts))
  {
    var bar := Then(One(Lit('|')), rest);
    Peel(Star(Space), Then(Star(NotPipe), bar), parts);
    Peel(Star(NotPipe), bar, parts.tail);
    Peel(One(Lit('|')), rest, parts.tail.tail);
    var t := parts.Next().Text();
    assert forall c :: c in t ==> In(c, NotPipe);
  }

  lemma NameFits(rest: Pattern, parts: Parts)
    requires Fits(NameCell(rest), parts) && PartsOneLine(parts)
    ensures var t := parts.Next().Text(); '|' !in t && OneLine(t)
    ensures Fits(rest, AfterFree(parts)) && PartsOneLine(AfterFree(parts))
  {
    var bar := Then(One(Lit('|')), rest);
    Peel(Star(Space), Then(Plus(NotPipe), bar), parts);
    Peel(Plus(NotPipe), bar, parts.tail);
    Peel(One(Lit('|')), rest, parts.tail.tail);
    var t := parts.Next().Text();
    assert forall c :: c in t ==> In(c, NotPipe);
  }

  lemma WordPart(t: string)
    requires t != "" && AllIn(t, Word)
    ensures WordText(Strip(t))
  {
    assert forall c :: c in t ==> In(c, Word);
    WordStrips(t);
  }

  lemma SolidPart(t: string)
    requires t != "" && AllIn(t, NonSpace)
    ensures Solid(Strip(t))
  {
    assert forall c :: c in t ==> In(c, NonSpace);
    SolidStrips(t);
  }

  lemma FreePart(t: string)
    requires '|' !in t && OneLine(t)
    ensures CellText(Strip(t))
    ensures CarriesCell(ReadCell(Strip(t)))
    ensures CarriesCell(ReadCell(Unescape(Strip(t))))
  {
    StripIs(t);
    PipeFree(Strip(t));
  }

  lemma ReadPhaseIsStorable(line: string)
    requires OneLine(line)
    ensures ReadPhase(line).Some? ==> StorablePhase(ReadPhase(line).value)
  {
    MatchSound(PhasePattern(), line);
    var m := Match(PhasePattern(), line);
    if m.Matched? {
      PartsOfOneLine(m.parts, line);
      PhasePartsStorable(m.parts);
    }
  }

  lemma PhasePartsStorable(parts: Parts)
    requires Fits(PhasePattern(), parts) && PartsOneLine(parts)
    ensures StorablePhase(ParsedPhase(parts))
  {
    var c7 := FreeCell(Done);
    var c6 := TokenCell(Digit, c7);
    var c5 := FreeCell(c6);
    var c4 := FreeCell(c5);
    var c3 := TokenCell(Word, c4);
    var c2 := TokenCell(Word, c3);
    var item := parts.Next();
    TokenFits(NonSpace, c2, item);
    var phase := AfterToken(item);
    TokenFits(Word, c3, phase);
    var status := AfterToken(phase);
    TokenFits(Word, c4, status);
    var agent := AfterToken(status);
    FreeFits(c5, agent);
    var validation := AfterFree(agent);
    FreeFits(c6, validation);
    var iterations := AfterFree(validation);
    TokenFits(Digit, c7, iterations);
    var output := AfterToken(iterations);
    FreeFits(Done, output);
    SolidPart(item.Next().Text());
    WordPart(phase.Next().Text());
    WordPart(status.Next().Text());
    FreePart(agent.Next().Text());
    FreePart(validation.Next().Text());
    FreePart(output.Next().Text());
  }

  lemma ReadGateIsStorable(line: string)
    requires OneLine(line)
    ensures ReadGate(line).Some? ==> StorableGate(ReadGate(line).value)
  {
    MatchSound(GatePattern(), line);
    var m := Match(GatePattern(), line);
    if m.Matched? {
      PartsOfOneLine(m.parts, line);
      var name := m.parts.Next();
      NameFits(TokenCell(Word, TokenCell(Digit, TokenCell(Digit, SignedCell(TokenCell(Word, RatioCell(Done)))))), name);
      TokenFits(Word, TokenCell(Digit, TokenCell(Digit, SignedCell(TokenCell(Word, RatioCell(Done))))), AfterFree(name));
      FreePart(name.Next().Text());
      WordPart(AfterFree(name).Next().Text());
    }
  }

  ghost predicate AllStorable(L: Ledger) {
    && (forall k :: k in L.phases ==> StorablePhase(L.phases[k]))
    && (forall g :: g in L.gates ==> StorableGate(L.gates[g]))
  }

  lemma StripOneLine(line: string)
    requires OneLine(line)
    ensures OneLine(Strip(line))
  {
    StripIs(line);
  }

  predicate StorableToken(t: Token) {
    t.Row? ==> (t.phase.Some? ==> StorablePhase(t.phase.value)) && (t.gate.Some? ==> StorableGate(t.gate.value))
  }

  lemma ScanRowIsStorable(stripped: string)
    requires OneLine(stripped)
    ensures StorableToken(ScanRow(stripped))
  {
    ReadPhaseIsStorable(stripped);
    ReadGateIsStorable(stripped);
  }

  lemma ScanIsStorable(line: string)
    requires OneLine(line)
    ensures StorableToken(Scan(line))
  {
    StripOneLine(line);
    ScanRowIsStorable(Strip(line));
  }

  lemma AddPhaseStorable(L: Ledger, r: Option<ItemPhaseStatus>)
    requires AllStorable(L) && (r.Some? ==> StorablePhase(r.value))
    ensures AllStorable(AddPhase(L, r))
  {
  }

  lemma AddGateStorable(L: Ledger, g: Option<GroupGateResult>)
    requires AllStorable(L) && (g.Some? ==> StorableGate(g.value))
    ensures AllStorable(AddGate(L, g))
  {
  }

  lemma {:induction false} ReadTokensStorable(r: Reader, ts: seq<Token>)
    requires AllStorable(r.ledger) && forall t :: t in ts ==> StorableToken(t)
    ensures AllStorable(ReadTokens(r, ts).ledger)
    decreases |ts|
  {
    if ts != [] {
      var t := ts[0];
      assert t in ts;
      if t.Row? {
        AddPhaseStorable(r.ledger, t.phase);
        AddGateStorable(r.ledger, t.gate);
      }
      ReadTokensStorable(Step(r, t), ts[1..]);
    }
  }

  /** Whatever the file holds, every row that `load` returns fits the table syntax. */
  lemma LoadIsStorable(text: string)
    ensures AllStorable(Load(text))
  {
    var u := Universal(text);
    UniversalLeavesNoCr(text);
    var lines := Split(u, '\n');
    forall i | 0 <= i < |lines| ensures StorableToken(Scan(lines[i])) {
      SplitPieces(u, '\n', i);
      ScanIsStorable(lines[i]);
    }
    ReadTokensStorable(Reader(EMPTY, NoTable), ScanAll(lines));
  }

  // ---- a gate row is never taken for a phase row ----

  lemma BlankHasNoBar(s: string)
    requires AllIn(s, Space)
    ensures '|' !in s
  {
    assert forall c :: c in s ==> In(c, Space);
  }

  lemma TokenHasNoBar(s: string, k: CharClass)
    requires AllIn(s, k) && (k.Word? || k.Digit? || k.NotPipe?)
    ensures '|' !in s
  {
    assert forall c :: c in s ==> In(c, k);
  }

  /** Cutting off one bar-terminated stretch of text cuts off its cells. */
  lemma CutCell(a: string, b: string)
    ensures Split(a + ("|" + b), '|') == Split(a, '|') + Split(b, '|')
    ensures '|' !in a ==> Split(a + ("|" + b), '|') == [a] + Split(b, '|')
  {
    assert a + ("|" + b) == a + ['|'] + b;
    SplitAppend(a, b, '|');
    if '|' !in a { SplitNone(a, '|'); }
  }

  lemma BarPiece(t: string)
    requires PieceFits(One(Lit('|')), t)
    ensures t == "|"
  {
    assert |t| == 1 && In(t[0], Lit('|'));
  }

  function TokenText(p: Parts): string { p.Text() + p.Next().Text() + p.Next().Next().Text() }
  function FreeText(p: Parts): string { p.Text() + p.Next().Text() }

  lemma TokenCut(k: CharClass, rest: Pattern, p: Parts, after: string)
    requires Fits(TokenCell(k, rest), p) && PartsOneLine(p)
    ensures Split(Concat(p) + after, '|') == Split(TokenText(p), '|') + Split(Concat(AfterToken(p)) + after, '|')
    ensures k.Word? || k.Digit? ==> '|' !in TokenText(p) && Split(TokenText(p), '|') == [TokenText(p)]
    ensures k.Digit? ==> forall c :: c in TokenText(p) ==> IsSpace(c) || IsDigit(c)
    ensures Fits(rest, AfterToken(p)) && PartsOneLine(AfterToken(p))
  {
    TokenFits(k, rest, p);
    var bar := Then(One(Lit('|')), rest);
    Peel(Star(Space), Then(Plus(k), Then(Star(Space), bar)), p);
    Peel(Plus(k), Then(Star(Space), bar), p.tail);
    Peel(Star(Space), bar, p.tail.tail);
    Peel(One(Lit('|')), rest, p.tail.tail.tail);
    BarPiece(p.tail.tail.tail.head);
    assert Concat(p.tail.tail) == p.tail.tail.head + ("|" + Concat(AfterToken(p)));
    assert Concat(p) == p.head + (p.tail.head + (p.tail.tail.head + ("|" + Concat(AfterToken(p)))));
    assert Concat(p) + after == TokenText(p) + ("|" + (Concat(AfterToken(p)) + after));
    CutCell(TokenText(p), Concat(AfterToken(p)) + after);
    if k.Word? || k.Digit? {
      BlankHasNoBar(p.head);
      TokenHasNoBar(p.tail.head, k);
      BlankHasNoBar(p.tail.tail.head);
      SplitNone(TokenText(p), '|');
    }
    if k.Digit? {
      assert forall c :: c in p.tail.head ==> In(c, Digit);
      assert forall c :: c in p.head ==> In(c, Space);
      assert forall c :: c in p.tail.tail.head ==> In(c, Space);
    }
  }

  lemma FreeCut(rest: Pattern, p: Parts, after: string)
    requires Fits(FreeCell(rest), p) && PartsOneLine(p)
    ensures Split(Concat(p) + after, '|') == [FreeText(p)] + Split(Concat(AfterFree(p)) + after, '|')
    ensures Fits(rest, AfterFree(p)) && PartsOneLine(AfterFree(p))
  {
    FreeFits(rest, p);
    var bar := Then(One(Lit('|')), rest);
    Peel(Star(Space), Then(Star(NotPipe), bar), p);
    Peel(Star(NotPipe), bar, p.tail);
    Peel(One(Lit('|')), rest, p.tail.tail);
    BarPiece(p.tail.tail.head);
    assert Concat(p.tail.tail) == "|" + Concat(AfterFree(p));
    assert Concat(p.tail) == p.tail.head + ("|" + Concat(AfterFree(p)));
    assert Concat(p) == p.head + (p.tail.head + ("|" + Concat(AfterFree(p))));
    assert Concat(p) + after == FreeText(p) + ("|" + (Concat(AfterFree(p)) + after));
    BlankHasNoBar(p.head);
    CutCell(FreeText(p), Concat(AfterFree(p)) + after);
  }

  lemma PhaseTailCells(p4: Parts, after: string)
    returns (count: string, front: seq<string>, back: seq<string>)
    requires Fits(FreeCell(FreeCell(TokenCell(Digit, FreeCell(Done)))), p4) && PartsOneLine(p4)
    ensures |front| == 2 && |back| >= 2
    ensures Split(Concat(p4) + after, '|') == front + ([count] + back)
    ensures forall c :: c in count ==> IsSpace(c) || IsDigit(c)
  {
    FreeCut(FreeCell(TokenCell(Digit, FreeCell(Done))), p4, after);
    var p5 := AfterFree(p4);
    FreeCut(TokenCell(Digit, FreeCell(Done)), p5, after);
    front := [FreeText(p4), FreeText(p5)];
    count, back := CountCells(AfterFree(p5), after);
    Pair(FreeText(p4), FreeText(p5), [count] + back);
  }

  lemma Pair(a: string, b: string, t: seq<string>)
    ensures [a] + ([b] + t) == [a, b] + t
  {
  }

  lemma CountCells(p6: Parts, after: string) returns (count: string, back: seq<string>)
    requires Fits(TokenCell(Digit, FreeCell(Done)), p6) && PartsOneLine(p6)
    ensures |back| >= 2 && Split(Concat(p6) + after, '|') == [count] + back
    ensures forall c :: c in count ==> IsSpace(c) || IsDigit(c)
  {
    TokenCut(Digit, FreeCell(Done), p6, after);
    var p7 := AfterToken(p6);
    FreeCut(Done, p7, after);
    count := TokenText(p6);
    back := [FreeText(p7)] + Split(Concat(AfterFree(p7)) + after, '|');
  }

  lemma PhaseHeadCells(rest: Pattern, p1: Parts, after: string) returns (p4: Parts)
    requires Fits(TokenCell(NonSpace, TokenCell(Word, TokenCell(Word, rest))), p1) && PartsOneLine(p1)
    ensures p4 == AfterToken(AfterToken(AfterToken(p1))) && Fits(rest, p4) && PartsOneLine(p4)
    ensures '|' !in TokenText(AfterToken(p1)) && '|' !in TokenText(AfterToken(AfterToken(p1)))
    ensures Split(Concat(p1) + after, '|') == Split(TokenText(p1), '|') +
              ([TokenText(AfterToken(p1))] + ([TokenText(AfterToken(AfterToken(p1)))] + Split(Concat(p4) + after, '|')))
  {
    TokenCut(NonSpace, TokenCell(Word, TokenCell(Word, rest)), p1, after);
    var p2 := AfterToken(p1);
    TokenCut(Word, TokenCell(Word, rest), p2, after);
    var p3 := AfterToken(p2);
    TokenCut(Word, rest, p3, after);
    p4 := AfterToken(p3);
  }

  /** The cells of a line that matches the phase pattern: whatever bars the item id holds, the
      iterations cell is the fifth after it and two more cells follow. */
  lemma PhaseCells(parts: Parts, line: string)
    returns (count: string, front: seq<string>, back: seq<string>)
    requires Fits(PhasePattern(), parts) && PartsOneLine(parts) && Concat(parts) <= line
    ensures |front| == 2 && |back| >= 2
    ensures var p1 := parts.Next(); var p2 := AfterToken(p1); var p3 := AfterToken(p2);
            && '|' !in TokenText(p2) && '|' !in TokenText(p3)
            && Split(line, '|') == [""] + (Split(TokenText(p1), '|') + ([TokenText(p2)] + ([TokenText(p3)] + (front + ([count] + back)))))
    ensures forall c :: c in count ==> IsSpace(c) || IsDigit(c)
  {
    var after := line[|Concat(parts)|..];
    var rest := FreeCell(FreeCell(TokenCell(Digit, FreeCell(Done))));
    Peel(One(Lit('|')), TokenCell(NonSpace, TokenCell(Word, TokenCell(Word, rest))), parts);
    BarPiece(parts.head);
    var p1 := parts.tail;
    assert line == "" + ("|" + (Concat(p1) + after)) by {
      assert line == Concat(parts) + after;
    }
    CutCell("", Concat(p1) + after);
    var p4 := PhaseHeadCells(rest, p1, after);
    count, front, back := PhaseTailCells(p4, after);
  }

  lemma PaddedCut(x: string, tail: string)
    requires '|' !in x
    ensures Split(" " + (x + (" |" + tail)), '|') == [" " + x + " "] + Split(tail, '|')
  {
    assert " " + (x + (" |" + tail)) == (" " + x + " ") + ("|" + tail);
    CutCell(" " + x + " ", tail);
  }

  lemma TokenIsBarFree(w: string, k: CharClass)
    requires TokenOf(w, k) && (k.Word? || k.Digit?)
    ensures '|' !in w
  {
    TokenHasNoBar(w, k);
  }

  lemma GateTailSplit(d: int, lint: string, done: nat, total: nat)
    requires WordText(lint)
    ensures |Split(GateTailCells(d, lint, done, total), '|')| == 4
    ensures Split(GateTailCells(d, lint, done, total), '|')[1] == " " + lint + " "
  {
    NatIsToken(done); NatIsToken(total); NatIsToken(Magnitude(d));
    TokenIsBarFree(NatText(done), Digit); TokenIsBarFree(NatText(total), Digit); TokenIsBarFree(NatText(Magnitude(d)), Digit);
    WordIsToken(lint);
    TokenIsBarFree(lint, Word);
    var ratio := NatText(done) + "/" + NatText(total);
    var s3 := " " + (NatText(done) + ("/" + (NatText(total) + (" |" + ""))));
    assert s3 == " " + (ratio + (" |" + ""));
    PaddedCut(ratio, "");
    PaddedCut(lint, s3);
    PaddedCut(IntText(d), " " + (lint + (" |" + s3)));
  }

  /** The lint cell is the sixth cell of a gate row, and it is not a number. */
  lemma GateLineSplit(g: GroupGateResult)
    requires StorableGate(g)
    ensures |Split(GateLine(g), '|')| == 9
    ensures Split(GateLine(g), '|')[6] == " " + LintText(g.lintClean) + " "
  {
    hide NatText, Split, GateTailCells, LintText, GateLine;
    GateLineCells(g);
    LintIsWord(g.lintClean);
    var b, a := NatText(g.testsBefore), NatText(g.testsAfter);
    var tail := GateTailCells(g.testsDelta, LintText(g.lintClean), g.itemsCompleted, g.itemsTotal);
    GateTailSplit(g.testsDelta, LintText(g.lintClean), g.itemsCompleted, g.itemsTotal);
    NatIsToken(g.testsBefore); NatIsToken(g.testsAfter); WordIsToken(g.status);
    TokenIsBarFree(b, Digit); TokenIsBarFree(a, Digit); TokenIsBarFree(g.status, Word);
    var s4 := " " + (a + (" |" + tail));
    PaddedCut(a, tail);
    var s3 := " " + (b + (" |" + s4));
    PaddedCut(b, s4);
    var s2 := " " + (g.status + (" |" + s3));
    PaddedCut(g.status, s3);
    PaddedCut(g.groupName, s2);
    assert GateLine(g) == "" + ("|" + (" " + (g.groupName + (" |" + s2))));
    CutCell("", " " + (g.groupName + (" |" + s2)));
  }

  lemma CellIndex(item: seq<string>, phase: string, status: string, front: seq<string>, count: string, back: seq<string>)
    requires |front| == 2
    ensures var cells := [""] + (item + ([phase] + ([status] + (front + ([count] + back)))));
            |cells| == |item| + 6 + |back| && cells[|item| + 5] == count
  {
  }

  lemma NineCells(parts: Parts, line: string)
    requires Fits(PhasePattern(), parts) && Concat(parts) <= line && OneLine(line)
    requires |Split(line, '|')| == 9
    ensures forall c :: c in Split(line, '|')[6] ==> IsSpace(c) || IsDigit(c)
  {
    PartsOfOneLine(parts, line);
    var count, front, back := PhaseCells(parts, line);
    var p2 := AfterToken(parts.Next());
    CellIndex(Split(TokenText(parts.Next()), '|'), TokenText(p2), TokenText(AfterToken(p2)), front, count, back);
  }

  lemma LintCell(clean: bool)
    ensures exists c :: c in " " + LintText(clean) + " " && !IsSpace(c) && !IsDigit(c)
  {
    var s := " " + LintText(clean) + " ";
    assert s[1] == (if clean then 'c' else 'D');
    assert s[1] in s;
  }

  lemma GateLineIsNoPhase(g: GroupGateResult)
    requires StorableGate(g)
    ensures ReadPhase(GateLine(g)) == None
  {
    var line := GateLine(g);
    GateLineOneLine(g);
    GateLineSplit(g);
    LintCell(g.lintClean);
    MatchSound(PhasePattern(), line);
    if Match(PhasePattern(), line).Matched? {
      NineCells(Match(PhasePattern(), line).parts, line);
    }
  }

  lemma OneLineTail(a: string, b: string)
    requires OneLine(a) && OneLine(b)
    ensures OneLine(" | " + (a + b))
  {
  }

  lemma OneLineRow(a: string, b: string, c: string, tail: string)
    requires OneLine(a) && OneLine(b) && OneLine(c) && OneLine(tail)
    ensures OneLine(a + (" | " + (b + (" | " + (c + tail)))))
  {
    OneLineTail(c, tail);
    OneLineTail(b, " | " + (c + tail));
  }

  lemma WordOneLine(w: string)
    requires Solid(w)
    ensures OneLine(w)
  {
  }

  lemma IntOneLine(n: int)
    ensures OneLine(IntText(n))
  {
    DigitsAreSolid(Magnitude(n));
    WordOneLine(NatText(Magnitude(n)));
  }

  lemma OneLineBar(t: string)
    requires OneLine(t)
    ensures OneLine(" | " + t) && OneLine("| " + t) && OneLine(t + " |")
  {
  }

  lemma OneLineRatio(a: string, b: string)
    requires OneLine(a) && OneLine(b)
    ensures OneLine(" | " + (a + ("/" + (b + " |"))))
  {
  }

  lemma GateLineOneLine(g: GroupGateResult)
    requires StorableGate(g)
    ensures OneLine(GateLine(g))
  {
    IntOneLine(g.testsBefore); IntOneLine(g.testsAfter); IntOneLine(g.testsDelta);
    IntOneLine(g.itemsCompleted); IntOneLine(g.itemsTotal);
    WordIsSolid(g.status); WordOneLine(g.status);
    LintIsWord(g.lintClean); WordIsSolid(LintText(g.lintClean)); WordOneLine(LintText(g.lintClean));
    GateTextsOneLine(g.groupName, g.status, IntText(g.testsBefore), IntText(g.testsAfter), IntText(g.testsDelta),
                     LintText(g.lintClean), IntText(g.itemsCompleted), IntText(g.itemsTotal));
  }

  lemma GateTextsOneLine(n: string, s: string, b: string, a: string, d: string, l: string, c: string, t: string)
    requires OneLine(n) && OneLine(s) && OneLine(b) && OneLine(a) && OneLine(d) && OneLine(l) && OneLine(c) && OneLine(t)
    ensures OneLine("| " + (n + (" | " + (s + (" | " + (b + (" | " + (a + (" | " + (d + (" | " + (l + (" | " +
                    (c + ("/" + (t + " |"))))))))))))))))
  {
    OneLineRatio(c, t);
    var r2 := " | " + (c + ("/" + (t + " |")));
    OneLineRow(a, d, l, r2);
    var r1 := a + (" | " + (d + (" | " + (l + r2))));
    OneLineBar(r1);
    OneLineRow(n, s, b, " | " + r1);
    OneLineBar(n + (" | " + (s + (" | " + (b + (" | " + r1))))));
  }

  lemma PhaseTextsOneLine(i: string, p: string, s: string, a: string, v: string, n: string, o: string)
    requires OneLine(i) && OneLine(p) && OneLine(s) && OneLine(a) && OneLine(v) && OneLine(n) && OneLine(o)
    ensures OneLine("| " + (i + (" | " + (p + (" | " + (s + (" | " + (a + (" | " + (v + (" | " + (n + (" | " +
                    (o + " |"))))))))))))))
  {
    OneLineBar(o);
    OneLineBar(o + " |");
    var r2 := " | " + (o + " |");
    OneLineRow(a, v, n, r2);
    var r1 := a + (" | " + (v + (" | " + (n + r2))));
    OneLineBar(r1);
    OneLineRow(i, p, s, " | " + r1);
    OneLineBar(i + (" | " + (p + (" | " + (s + (" | " + r1))))));
  }

  lemma PhaseLineOneLine(r: ItemPhaseStatus)
    requires StorablePhase(r)
    ensures OneLine(PhaseLine(r))
  {
    CellIsText(r.agentId); CellIsText(r.validation); CellIsText(r.outputPath);
    PipeFree(Cell(r.validation));
    IntOneLine(r.iterations);
    WordIsSolid(r.phase); WordIsSolid(r.status);
    WordOneLine(r.itemId); WordOneLine(r.phase); WordOneLine(r.status);
    PhaseTextsOneLine(r.itemId, r.phase, r.status, Cell(r.agentId), Cell(r.validation), IntText(r.iterations), Cell(r.outputPath));
  }

  // ---- reading a whole saved file ----

  /** A line with no `#` never opens a section. */
  lemma NoTitle(line: string)
    requires '#' !in line
    ensures !Contains(line, PHASE_TITLE) && !Contains(line, GATE_TITLE)
  {
    ContainsHead(line, PHASE_TITLE);
    ContainsHead(line, GATE_TITLE);
  }

  lemma {:induction false} ReadAppend(r: Reader, a: seq<Token>, b: seq<Token>)
    ensures ReadTokens(r, a + b) == ReadTokens(ReadTokens(r, a), b)
    decreases |a|
  {
    if a == [] {
      assert a + b == b;
    } else {
      assert (a + b)[1..] == a[1..] + b;
      ReadAppend(Step(r, a[0]), a[1..], b);
    }
  }

  lemma HeadingLine(line: string)
    requires '#' !in line && Trimmed(line) && (Heading(line) || !StartsWith(line, "|"))
    ensures Scan(line) == Ignored
  {
    NoTitle(line);
    StripIdentity(line);
  }

  /** A table heading is bars, blanks and its column names. */
  lemma {:induction false} HeaderShape(cells: seq<string>, c: char)
    requires c != '|' && c != ' ' && forall s :: s in cells ==> c !in s
    ensures var h := HeaderRow(cells); c !in h && h != "" && h[0] == '|' && h[|h| - 1] == '|'
  {
    if cells != [] { HeaderShape(cells[1..], c); }
  }

  lemma {:induction false} DashesOnly(n: nat, c: char)
    requires c != '-'
    ensures c !in Dashes(n)
  {
    if n > 0 { DashesOnly(n - 1, c); }
  }

  lemma {:induction false} RuleShape(widths: seq<nat>, c: char)
    requires c != '|' && c != '-'
    ensures var h := RuleRow(widths); c !in h && h != "" && h[0] == '|' && h[|h| - 1] == '|'
  {
    if widths != [] { DashesOnly(widths[0], c); RuleShape(widths[1..], c); }
  }

  lemma HeaderIsHeading(cells: seq<string>)
    requires |cells| > 0 && (cells[0] == "Item ID" || cells[0] == "Group")
    ensures Heading(HeaderRow(cells))
  {
    HeaderOpens(cells);
    hide HeaderRow;
    assert "| " + "Item ID" == "| Item ID" && "| " + "Group" == "| Group";
  }

  lemma HeaderOpens(cells: seq<string>)
    requires |cells| > 0
    ensures StartsWith(HeaderRow(cells), "| " + cells[0])
  {
    OpensWith("| ", cells[0], " " + HeaderRow(cells[1..]));
  }

  lemma OpensWith(a: string, b: string, c: string)
    ensures a + b <= a + (b + c)
  {
    assert a + (b + c) == (a + b) + c;
  }

  lemma ThreeDashes(n: nat)
    requires n >= 3
    ensures Dashes(n) == "---" + Dashes(n - 3)
  {
    assert Dashes(n) == "-" + Dashes(n - 1);
    assert Dashes(n - 1) == "-" + Dashes(n - 2);
    assert Dashes(n - 2) == "-" + Dashes(n - 3);
  }

  lemma RuleIsHeading(widths: seq<nat>)
    requires |widths| > 0 && widths[0] >= 3
    ensures Heading(RuleRow(widths))
  {
    var n := widths[0];
    ThreeDashes(n);
    RuleOpens(widths);
    hide RuleRow, Dashes;
    OpensWith("|", "---", Dashes(n - 3) + RuleRow(widths[1..]));
    Regrouped("---", Dashes(n - 3), RuleRow(widths[1..]));
    assert "|" + "---" == "|---";
  }

  lemma RuleOpens(widths: seq<nat>)
    requires |widths| > 0
    ensures RuleRow(widths) == "|" + (Dashes(widths[0]) + RuleRow(widths[1..]))
  {
  }

  lemma Regrouped(a: string, b: string, c: string)
    ensures a + b + c == a + (b + c)
  {
  }

  lemma TableHeadings(cells: seq<string>, widths: seq<nat>)
    requires |cells| > 0 && (cells[0] == "Item ID" || cells[0] == "Group")
    requires forall s :: s in cells ==> Plain(s)
    requires |widths| > 0 && widths[0] >= 3
    ensures Scan(HeaderRow(cells)) == Ignored && Scan(RuleRow(widths)) == Ignored
    ensures OneLine(HeaderRow(cells)) && OneLine(RuleRow(widths))
  {
    hide Scan, HeaderRow, RuleRow, Heading;
    HeaderShape(cells, '#'); HeaderShape(cells, '\n'); HeaderShape(cells, '\r');
    RuleShape(widths, '#'); RuleShape(widths, '\n'); RuleShape(widths, '\r');
    HeaderIsHeading(cells);
    HeadingLine(HeaderRow(cells));
    RuleIsHeading(widths);
    HeadingLine(RuleRow(widths));
  }

  predicate Plain(s: string) { '#' !in s && OneLine(s) }

  lemma PlainWords()
    ensures Plain("Phase") && Plain("Status") && Plain("Agent") && Plain("Output")
  {
  }

  lemma PlainGateWords()
    ensures Plain("Group") && Plain("Delta") && Plain("Lint") && Plain("Items")
  {
  }

  lemma PlainPhrases()
    ensures Plain("Validation") && Plain("Iterations") && Plain("Item ID")
  {
  }

  lemma PlainCounts()
    ensures Plain("Tests Before") && Plain("Tests After")
  {
  }

  lemma PhaseColumns()
    ensures forall s :: s in PHASE_COLUMNS ==> Plain(s)
  {
    hide Plain;
    PlainWords();
    PlainPhrases();
  }

  lemma GateColumns()
    ensures forall s :: s in GATE_COLUMNS ==> Plain(s)
  {
    hide Plain;
    PlainWords();
    PlainGateWords();
    PlainCounts();
  }

  lemma Titles()
    ensures Scan(PHASE_TITLE) == PhaseSection && Scan(GATE_TITLE) == GateSection && Scan("") == Ignored
    ensures OneLine(PHASE_TITLE) && OneLine(GATE_TITLE)
  {
    HeadingLine("");
  }

  lemma HashOnce(x: string, title: string)
    requires '#' !in x && |title| > 1 && title[0] == '#' && title[1] == '#'
    ensures !Contains("#" + x, title)
  {
    var s := "#" + x;
    assert s[1..] == x;
    ContainsHead(x, title);
    if x != "" { assert s[1] == x[0] && x[0] in x; }
  }

  lemma FirstLine(x: string)
    requires '#' !in x && x != "" && !IsSpace(x[|x| - 1])
    ensures Scan("#" + x) == Ignored
  {
    HashOnce(x, PHASE_TITLE);
    HashOnce(x, GATE_TITLE);
    PlainRow("#" + x);
  }

  lemma LedgerHeading()
    ensures Scan("#" + " Execution Ledger") == Ignored && OneLine("#" + " Execution Ledger")
  {
    FirstLine(" Execution Ledger");
  }

  lemma PlainRow(s: string)
    requires Trimmed(s) && !StartsWith(s, "|")
    ensures ScanRow(Strip(s)) == Ignored
  {
    StripIdentity(s);
  }

  lemma StampLine(stamp: string)
    requires IsoStamp(stamp)
    ensures Scan("Last updated: " + stamp) == Ignored
    ensures OneLine("Last updated: " + stamp)
  {
    assert forall c :: c in stamp ==> c != '#' && c != '\n' && c != '\r';
    Labelled("Last updated: ", stamp);
  }

  lemma Labelled(head: string, stamp: string)
    requires head != "" && '#' !in head && '#' !in stamp && !IsSpace(head[0]) && head[0] != '|'
    ensures Scan(head + stamp) == Ignored
  {
    var line := head + stamp;
    NoTitle(line);
    StripLeftPadded("", line);
    assert "" + line == line;
    StripRightIs(line);
  }

  lemma ScanRowLine(line: string)
    requires |line| >= 2 && line[0] == '|' && line[|line| - 1] == '|'
    ensures Visible(line) ==> Scan(line) == Row(ReadPhase(line), ReadGate(line))
    ensures !Visible(line) ==> !Scan(line).Row?
  {
    StripIdentity(line);
  }

  lemma ScanPhaseLine(r: ItemPhaseStatus)
    requires StorablePhase(r)
    ensures Scan(PhaseLine(r)).Row? <==> Visible(PhaseLine(r))
    ensures Scan(PhaseLine(r)).Row? ==> Scan(PhaseLine(r)).phase == Some(NormPhase(r))
  {
    ScanRowLine(PhaseLine(r));
    PhaseLineReads(r);
  }

  lemma ScanGateLine(g: GroupGateResult)
    requires StorableGate(g)
    ensures Scan(GateLine(g)).Row? <==> Visible(GateLine(g))
    ensures Scan(GateLine(g)).Row? ==> Scan(GateLine(g)) == Row(None, Some(NormGate(g)))
  {
    ScanRowLine(GateLine(g));
    GateLineReads(g);
    GateLineIsNoPhase(g);
  }

  function RowKey(r: ItemPhaseStatus): Key { Key(r.itemId, r.phase) }

  /** Tokens of printed phase rows: each is its own row, or no row at all. */
  ghost predicate PhaseTokens(ts: seq<Token>, rows: seq<ItemPhaseStatus>) {
    && |ts| == |rows|
    && forall i :: 0 <= i < |rows| ==> ts[i].Row? ==> ts[i].phase == Some(NormPhase(rows[i]))
  }

  ghost predicate GateTokens(ts: seq<Token>, gates: seq<GroupGateResult>) {
    && |ts| == |gates|
    && forall i :: 0 <= i < |gates| ==> ts[i].Row? ==> ts[i] == Row(None, Some(NormGate(gates[i])))
  }

  /** Reading phase rows files only visible rows, under their own keys. */
  lemma {:induction false} PhaseTokenKeys(rd: Reader, ts: seq<Token>, rows: seq<ItemPhaseStatus>, k: Key)
    requires PhaseTokens(ts, rows)
    requires k in ReadTokens(rd, ts).ledger.phases && k !in rd.ledger.phases
    ensures exists i :: 0 <= i < |rows| && RowKey(rows[i]) == k && ts[i].Row?
    decreases |ts|
  {
    if ts != [] {
      var next := Step(rd, ts[0]);
      if k !in next.ledger.phases {
        PhaseTokenKeys(next, ts[1..], rows[1..], k);
        var i :| 0 <= i < |rows[1..]| && RowKey(rows[1..][i]) == k && ts[1..][i].Row?;
        assert RowKey(rows[i + 1]) == k && ts[i + 1].Row?;
      } else {
        assert RowKey(rows[0]) == k;
      }
    }
  }

  /** Filing a list of entries into a dictionary, later entries over earlier ones. */
  function FileAll<K, V>(m: map<K, V>, entries: seq<(K, V)>): map<K, V>
    decreases |entries|
  {
    if entries == [] then m else FileAll(m[entries[0].0 := entries[0].1], entries[1..])
  }

  /** Entries taken from a dictionary, filed into a part of it, give a part that holds them all. */
  lemma {:induction false} FileAllAgrees<K(!new), V>(m: map<K, V>, entries: seq<(K, V)>, src: map<K, V>)
    requires forall k :: k in m ==> k in src && m[k] == src[k]
    requires forall e :: e in entries ==> e.0 in src && src[e.0] == e.1
    ensures var out := FileAll(m, entries);
            && (forall k :: k in out ==> k in src && out[k] == src[k])
            && (forall k :: k in m ==> k in out)
            && (forall e :: e in entries ==> e.0 in out)
    decreases |entries|
  {
    if entries != [] {
      var e := entries[0];
      assert e in entries;
      FileAllAgrees(m[e.0 := e.1], entries[1..], src);
      forall x | x in entries ensures x.0 in FileAll(m, entries) {
        if x != e { assert x in entries[1..]; }
      }
    }
  }

  function PhaseEntries(rows: seq<ItemPhaseStatus>): seq<(Key, ItemPhaseStatus)> {
    if rows == [] then [] else [(RowKey(rows[0]), NormPhase(rows[0]))] + PhaseEntries(rows[1..])
  }

  function GateEntries(gates: seq<GroupGateResult>): seq<(string, GroupGateResult)> {
    if gates == [] then [] else [(gates[0].groupName, NormGate(gates[0]))] + GateEntries(gates[1..])
  }

  lemma {:induction false} PhaseEntriesAre(rows: seq<ItemPhaseStatus>)
    ensures forall e :: e in PhaseEntries(rows) <==> exists r :: r in rows && e == (RowKey(r), NormPhase(r))
  {
    if rows != [] {
      PhaseEntriesAre(rows[1..]);
      assert forall r :: r in rows <==> r == rows[0] || r in rows[1..];
    }
  }

  lemma {:induction false} GateEntriesAre(gates: seq<GroupGateResult>)
    ensures forall e :: e in GateEntries(gates) <==> exists g :: g in gates && e == (g.groupName, NormGate(g))
  {
    if gates != [] {
      GateEntriesAre(gates[1..]);
      assert forall g :: g in gates <==> g == gates[0] || g in gates[1..];
    }
  }

  /** When every row is visible, reading them with the phase table open files exactly them. */
  lemma {:induction false} ReadPhaseTokens(L: Ledger, ts: seq<Token>, rows: seq<ItemPhaseStatus>)
    requires PhaseTokens(ts, rows) && forall t :: t in ts ==> t.Row?
    ensures ReadTokens(Reader(L, PhaseTable), ts)
         == Reader(Ledger(FileAll(L.phases, PhaseEntries(rows)), L.gates), PhaseTable)
    decreases |ts|
  {
    if ts != [] {
      assert ts[0] in ts;
      var n := NormPhase(rows[0]);
      ReadPhaseTokens(Ledger(L.phases[RowKey(n) := n], L.gates), ts[1..], rows[1..]);
    }
  }

  lemma {:induction false} ReadGateTokens(L: Ledger, ts: seq<Token>, gates: seq<GroupGateResult>)
    requires GateTokens(ts, gates) && forall t :: t in ts ==> t.Row?
    ensures ReadTokens(Reader(L, GateTable), ts)
         == Reader(Ledger(L.phases, FileAll(L.gates, GateEntries(gates))), GateTable)
    decreases |ts|
  {
    if ts != [] {
      assert ts[0] in ts;
      var n := NormGate(gates[0]);
      ReadGateTokens(Ledger(L.phases, L.gates[n.groupName := n]), ts[1..], gates[1..]);
    }
  }

  /** Reading gate rows never touches the phases, and files only visible gates. */
  lemma {:induction false} GateTokenKeys(rd: Reader, ts: seq<Token>, gates: seq<GroupGateResult>)
    requires GateTokens(ts, gates)
    ensures ReadTokens(rd, ts).ledger.phases == rd.ledger.phases
    ensures forall n :: n in ReadTokens(rd, ts).ledger.gates && n !in rd.ledger.gates ==>
              exists i :: 0 <= i < |gates| && gates[i].groupName == n && ts[i].Row?
    decreases |ts|
  {
    if ts != [] {
      var next := Step(rd, ts[0]);
      GateTokenKeys(next, ts[1..], gates[1..]);
      forall n | n in ReadTokens(rd, ts).ledger.gates && n !in rd.ledger.gates
        ensures exists i :: 0 <= i < |gates| && gates[i].groupName == n && ts[i].Row?
      {
        if n in next.ledger.gates {
          assert gates[0].groupName == n && ts[0].Row?;
        } else {
          var i :| 0 <= i < |gates[1..]| && gates[1..][i].groupName == n && ts[1..][i].Row?;
          assert gates[i + 1].groupName == n && ts[i + 1].Row?;
        }
      }
    }
  }

  // ---- the whole file ----

  lemma {:induction false} PhaseLinesAt(rows: seq<ItemPhaseStatus>)
    ensures |PhaseLines(rows)| == |rows| && forall i :: 0 <= i < |rows| ==> PhaseLines(rows)[i] == PhaseLine(rows[i])
  {
    hide PhaseLine;
    if rows != [] { PhaseLinesAt(rows[1..]); }
  }

  lemma ScanPhaseLines(rows: seq<ItemPhaseStatus>)
    requires forall r :: r in rows ==> StorablePhase(r)
    ensures PhaseTokens(ScanAll(PhaseLines(rows)), rows)
    ensures forall i :: 0 <= i < |rows| ==> (ScanAll(PhaseLines(rows))[i].Row? <==> Visible(PhaseLine(rows[i])))
    ensures forall l :: l in PhaseLines(rows) ==> OneLine(l)
  {
    hide Scan, Visible, PhaseLine, StorablePhase, NormPhase, OneLine, ScanAll;
    PhaseLinesAt(rows);
    forall i | 0 <= i < |rows|
      ensures OneLine(PhaseLine(rows[i])) && (Scan(PhaseLine(rows[i])).Row? <==> Visible(PhaseLine(rows[i])))
      ensures Scan(PhaseLine(rows[i])).Row? ==> Scan(PhaseLine(rows[i])).phase == Some(NormPhase(rows[i]))
    {
      assert rows[i] in rows;
      ScanPhaseLine(rows[i]);
      PhaseLineOneLine(rows[i]);
    }
  }

  lemma {:induction false} GateLinesAt(gates: seq<GroupGateResult>)
    ensures |GateLines(gates)| == |gates| && forall i :: 0 <= i < |gates| ==> GateLines(gates)[i] == GateLine(gates[i])
  {
    hide GateLine;
    if gates != [] { GateLinesAt(gates[1..]); }
  }

  lemma ScanGateLines(gates: seq<GroupGateResult>)
    requires forall g :: g in gates ==> StorableGate(g)
    ensures GateTokens(ScanAll(GateLines(gates)), gates)
    ensures forall i :: 0 <= i < |gates| ==> (ScanAll(GateLines(gates))[i].Row? <==> Visible(GateLine(gates[i])))
    ensures forall l :: l in GateLines(gates) ==> OneLine(l)
  {
    hide Scan, Visible, GateLine, StorableGate, NormGate, OneLine, ScanAll;
    GateLinesAt(gates);
    forall i | 0 <= i < |gates|
      ensures OneLine(GateLine(gates[i])) && (Scan(GateLine(gates[i])).Row? <==> Visible(GateLine(gates[i])))
      ensures Scan(GateLine(gates[i])).Row? ==> Scan(GateLine(gates[i])) == Row(None, Some(NormGate(gates[i])))
    {
      assert gates[i] in gates;
      ScanGateLine(gates[i]);
      GateLineOneLine(gates[i]);
    }
  }

  lemma PhaseHeadings()
    ensures Scan(HeaderRow(PHASE_COLUMNS)) == Ignored && Scan(RuleRow(PHASE_WIDTHS)) == Ignored
    ensures OneLine(HeaderRow(PHASE_COLUMNS)) && OneLine(RuleRow(PHASE_WIDTHS))
  {
    PhaseColumns();
    TableHeadings(PHASE_COLUMNS, PHASE_WIDTHS);
  }

  lemma GateHeadings()
    ensures Scan(HeaderRow(GATE_COLUMNS)) == Ignored && Scan(RuleRow(GATE_WIDTHS)) == Ignored
    ensures OneLine(HeaderRow(GATE_COLUMNS)) && OneLine(RuleRow(GATE_WIDTHS))
  {
    GateColumns();
    TableHeadings(GATE_COLUMNS, GATE_WIDTHS);
  }

  lemma PreambleTokens(stamp: string)
    requires IsoStamp(stamp)
    ensures ReadTokens(Reader(EMPTY, NoTable), ScanAll(Preamble(stamp))) == Reader(EMPTY, PhaseTable)
    ensures forall t :: t in ScanAll(Preamble(stamp)) ==> !t.Row?
    ensures forall l :: l in Preamble(stamp) ==> OneLine(l)
  {
    LedgerHeading();
    StampLine(stamp);
    Titles();
    PhaseHeadings();
    PreambleOf("#" + " Execution Ledger", "Last updated: " + stamp, PHASE_TITLE,
               HeaderRow(PHASE_COLUMNS), RuleRow(PHASE_WIDTHS));
  }

  lemma PreambleOf(h: string, l: string, title: string, header: string, rule: string)
    requires Scan(h) == Ignored && Scan(l) == Ignored && Scan(header) == Ignored && Scan(rule) == Ignored
    requires Scan("") == Ignored && Scan(title) == PhaseSection
    requires OneLine(h) && OneLine(l) && OneLine(header) && OneLine(rule) && OneLine(title)
    ensures var lines := [h, "", l, "", title, "", header, rule];
            && ReadTokens(Reader(EMPTY, NoTable), ScanAll(lines)) == Reader(EMPTY, PhaseTable)
            && (forall t :: t in ScanAll(lines) ==> !t.Row?)
            && forall x :: x in lines ==> OneLine(x)
  {
    SevenIgnored(ScanAll([h, "", l, "", title, "", header, rule]));
  }

  lemma SevenIgnored(ts: seq<Token>)
    requires |ts| == 8 && ts[4] == PhaseSection && forall i :: 0 <= i < 8 && i != 4 ==> ts[i] == Ignored
    ensures ReadTokens(Reader(EMPTY, NoTable), ts) == Reader(EMPTY, PhaseTable)
    ensures forall t :: t in ts ==> !t.Row?
  {
    SkipTokens(Reader(EMPTY, NoTable), ts[..4]);
    SkipTokens(Reader(EMPTY, PhaseTable), ts[5..]);
    ReadAppend(Reader(EMPTY, NoTable), ts[..4], ts[4..]);
    assert ts == ts[..4] + ts[4..] && ts[4..][1..] == ts[5..];
  }

  lemma {:induction false} SkipTokens(r: Reader, ts: seq<Token>)
    requires forall i :: 0 <= i < |ts| ==> ts[i] == Ignored
    ensures ReadTokens(r, ts) == r
    decreases |ts|
  {
    if ts != [] { SkipTokens(r, ts[1..]); }
  }

  lemma MiddleTokens(r: Reader)
    ensures ReadTokens(r, ScanAll(MIDDLE)) == r.(table := GateTable)
    ensures forall t :: t in ScanAll(MIDDLE) ==> !t.Row?
    ensures forall l :: l in MIDDLE ==> OneLine(l)
  {
    Titles();
    GateHeadings();
    MiddleOf(r, GATE_TITLE, HeaderRow(GATE_COLUMNS), RuleRow(GATE_WIDTHS));
  }

  lemma MiddleOf(r: Reader, title: string, header: string, rule: string)
    requires Scan("") == Ignored && Scan(title) == GateSection && Scan(header) == Ignored && Scan(rule) == Ignored
    requires OneLine(header) && OneLine(rule) && OneLine(title)
    ensures var lines := ["", title, "", header, rule];
            && ReadTokens(r, ScanAll(lines)) == r.(table := GateTable)
            && (forall t :: t in ScanAll(lines) ==> !t.Row?)
            && forall x :: x in lines ==> OneLine(x)
  {
    FourIgnored(r, ScanAll(["", title, "", header, rule]));
  }

  lemma FourIgnored(r: Reader, ts: seq<Token>)
    requires |ts| == 5 && ts[1] == GateSection && forall i :: 0 <= i < 5 && i != 1 ==> ts[i] == Ignored
    ensures ReadTokens(r, ts) == r.(table := GateTable)
    ensures forall t :: t in ts ==> !t.Row?
  {
    SkipTokens(r.(table := GateTable), ts[2..]);
    assert ts[1..][1..] == ts[2..];
    assert Step(r, ts[0]) == r;
  }

  lemma {:induction false} ScanAppend(a: seq<string>, b: seq<string>)
    ensures ScanAll(a + b) == ScanAll(a) + ScanAll(b)
  {
    if a == [] {
      assert a + b == b;
    } else {
      assert (a + b)[1..] == a[1..] + b;
      ScanAppend(a[1..], b);
    }
  }

  /** What loading a saved file reads: the phase rows, then the gate rows. */
  function AfterPhases(rows: seq<ItemPhaseStatus>): Reader {
    ReadTokens(Reader(EMPTY, PhaseTable), ScanAll(PhaseLines(rows)))
  }

  lemma SavedText(rows: seq<ItemPhaseStatus>, gates: seq<GroupGateResult>, stamp: string)
    requires IsoStamp(stamp)
    requires (forall r :: r in rows ==> StorablePhase(r)) && (forall g :: g in gates ==> StorableGate(g))
    ensures Load(Unlines(LedgerLines(rows, gates, stamp)))
         == ReadTokens(AfterPhases(rows).(table := GateTable), ScanAll(GateLines(gates))).ledger
  {
    var pre, ps, gs := Preamble(stamp), PhaseLines(rows), GateLines(gates);
    PreambleTokens(stamp);
    MiddleTokens(AfterPhases(rows));
    ScanPhaseLines(rows);
    ScanGateLines(gates);
    JoinedText(pre, ps, MIDDLE, gs);
    var r1 := AfterPhases(rows);
    var r2 := r1.(table := GateTable);
    ReadJoined(Reader(EMPTY, NoTable), ScanAll(pre), ScanAll(ps), ScanAll(MIDDLE), ScanAll(gs));
  }

  lemma ReadJoined(r: Reader, a: seq<Token>, b: seq<Token>, c: seq<Token>, d: seq<Token>)
    ensures ReadTokens(r, a + b + c + d + [Ignored]) == ReadTokens(ReadTokens(ReadTokens(ReadTokens(r, a), b), c), d)
  {
    ReadAppend(r, a + b + c + d, [Ignored]);
    ReadAppend(r, a + b + c, d);
    ReadAppend(r, a + b, c);
    ReadAppend(r, a, b);
    SkipTokens(ReadTokens(r, a + b + c + d), [Ignored]);
  }

  lemma SplitText(lines: seq<string>)
    requires forall l :: l in lines ==> OneLine(l)
    ensures Split(Universal(Unlines(lines)), '\n') == lines + [""]
  {
    UnlinesChars(lines, '\r');
    UniversalFixesCrFree(Unlines(lines));
    SplitUnlines(lines);
  }

  lemma ScanJoined(a: seq<string>, b: seq<string>, c: seq<string>, d: seq<string>, e: seq<string>)
    ensures ScanAll(a + b + c + d + e) == ScanAll(a) + ScanAll(b) + ScanAll(c) + ScanAll(d) + ScanAll(e)
  {
    hide Scan;
    ScanAppend(a + b + c + d, e);
    ScanAppend(a + b + c, d);
    ScanAppend(a + b, c);
    ScanAppend(a, b);
  }

  lemma LastLine()
    ensures ScanAll([""]) == [Ignored]
  {
    Titles();
  }

  lemma JoinedText(a: seq<string>, b: seq<string>, c: seq<string>, d: seq<string>)
    requires forall l :: l in a || l in b || l in c || l in d ==> OneLine(l)
    ensures Load(Unlines(a + b + c + d))
         == ReadTokens(Reader(EMPTY, NoTable), ScanAll(a) + ScanAll(b) + ScanAll(c) + ScanAll(d) + [Ignored]).ledger
  {
    hide Scan, ReadTokens, Split, Unlines, Universal;
    SplitText(a + b + c + d);
    ScanJoined(a, b, c, d, [""]);
    LastLine();
  }

  // ---- what a save lists ----

  lemma {:induction false} ItemRowsAre(m: map<Key, ItemPhaseStatus>, item: string, phases: seq<string>)
    ensures forall r :: r in ItemRows(m, item, phases) <==>
              exists p :: p in phases && Key(item, p) in m && r == m[Key(item, p)]
  {
    if phases != [] {
      ItemRowsAre(m, item, phases[1..]);
      assert forall p :: p in phases <==> p == phases[0] || p in phases[1..];
    }
  }

  lemma {:induction false} RowsAre(m: map<Key, ItemPhaseStatus>, items: seq<string>)
    ensures forall r: ItemPhaseStatus :: r in Rows(m, items) <==>
              exists k: Key :: k.item in items && k.phase in PHASES && k in m && r == m[k]
  {
    if items != [] {
      RowsAre(m, items[1..]);
      ItemRowsAre(m, items[0], PHASES);
      forall r: ItemPhaseStatus ensures r in Rows(m, items) <==> exists k: Key :: k.item in items && k.phase in PHASES && k in m && r == m[k] {
        if r in ItemRows(m, items[0], PHASES) {
          var p :| p in PHASES && Key(items[0], p) in m && r == m[Key(items[0], p)];
          assert Key(items[0], p).item in items;
        }
        if k: Key :| k.item in items && k.phase in PHASES && k in m && r == m[k] {
          if k.item == items[0] {
            assert k == Key(items[0], k.phase);
          } else {
            assert k.item in items[1..];
          }
        }
      }
    }
  }

  lemma SavedRowsAre(L: Ledger)
    ensures forall r :: r in SavedRows(L) <==> exists k :: k in L.phases && k.phase in PHASES && r == L.phases[k]
  {
    var items := set k | k in L.phases :: k.item;
    SortedElements(items);
    RowsAre(L.phases, Sorted(items));
    assert forall k :: k in L.phases ==> k.item in Sorted(items);
  }

  lemma {:induction false} GateRowsAre(m: map<string, GroupGateResult>, names: seq<string>)
    requires forall n :: n in names ==> n in m
    ensures forall g :: g in GateRows(m, names) <==> exists n :: n in names && g == m[n]
  {
    if names != [] {
      GateRowsAre(m, names[1..]);
      assert forall n :: n in names <==> n == names[0] || n in names[1..];
    }
  }

  lemma SavedGatesAre(L: Ledger)
    ensures forall g :: g in SavedGates(L) <==> exists n :: n in L.gates && g == L.gates[n]
  {
    SortedElements(L.gates.Keys);
    GateRowsAre(L.gates, Sorted(L.gates.Keys));
  }

  // ---- the round trip ----

  lemma AllRows(ts: seq<Token>, n: nat)
    requires |ts| == n && forall i :: 0 <= i < n ==> ts[i].Row?
    ensures forall t :: t in ts ==> t.Row?
  {
  }

  lemma SavedPhasesRead(rows: seq<ItemPhaseStatus>)
    requires forall r :: r in rows ==> StorablePhase(r) && Visible(PhaseLine(r))
    ensures AfterPhases(rows) == Reader(Ledger(FileAll(map[], PhaseEntries(rows)), map[]), PhaseTable)
  {
    hide Scan, PhaseLine, StorablePhase, Visible, ReadTokens, FileAll;
    ScanPhaseLines(rows);
    assert forall i :: 0 <= i < |rows| ==> rows[i] in rows;
    AllRows(ScanAll(PhaseLines(rows)), |rows|);
    ReadPhaseTokens(EMPTY, ScanAll(PhaseLines(rows)), rows);
  }

  lemma SavedGatesRead(L: Ledger, gates: seq<GroupGateResult>)
    requires forall g :: g in gates ==> StorableGate(g) && Visible(GateLine(g))
    ensures ReadTokens(Reader(L, GateTable), ScanAll(GateLines(gates)))
         == Reader(Ledger(L.phases, FileAll(L.gates, GateEntries(gates))), GateTable)
  {
    hide Scan, GateLine, StorableGate, Visible, ReadTokens, FileAll;
    ScanGateLines(gates);
    assert forall i :: 0 <= i < |gates| ==> gates[i] in gates;
    AllRows(ScanAll(GateLines(gates)), |gates|);
    ReadGateTokens(L, ScanAll(GateLines(gates)), gates);
  }

  lemma SavedAreCarried(L: Ledger)
    requires Carryable(L)
    ensures forall r :: r in SavedRows(L) ==> StorablePhase(r) && Visible(PhaseLine(r))
    ensures forall g :: g in SavedGates(L) ==> StorableGate(g) && Visible(GateLine(g))
  {
    hide StorablePhase, StorableGate, Visible, PhaseLine, GateLine, Untitled, SavedRows, SavedGates;
    SavedRowsAre(L);
    SavedGatesAre(L);
    forall r | r in SavedRows(L) ensures StorablePhase(r) && Visible(PhaseLine(r)) {
      PhaseVisibleIff(r);
    }
    forall g | g in SavedGates(L) ensures StorableGate(g) && Visible(GateLine(g)) {
      GateVisibleIff(g);
    }
  }

  /** A ledger whose every row the file can carry comes back whole. */
  lemma RoundTrip(L: Ledger, stamp: string)
    requires L.Keyed() && IsoStamp(stamp) && Carryable(L)
    ensures Load(Save(L, stamp)) == Norm(L)
  {
    hide ReadTokens, Load, LedgerLines, Unlines, Visible, StorablePhase, StorableGate, AfterPhases;
    var rows, gates := SavedRows(L), SavedGates(L);
    SavedAreCarried(L);
    SavedText(rows, gates, stamp);
    SavedPhasesRead(rows);
    var P := FileAll(map[], PhaseEntries(rows));
    SavedGatesRead(Ledger(P, map[]), gates);
    FiledPhases(L, rows);
    FiledGates(L, gates);
  }

  /** Every phase row is one the file can carry. */
  ghost predicate CarriesPhases(L: Ledger) { forall k :: k in L.phases ==> CarriesPhase(L.phases[k]) }

  /** Every gate row fits the row syntax, whatever its group is called. */
  ghost predicate StorableGates(L: Ledger) { forall g :: g in L.gates ==> StorableGate(L.gates[g]) }

  /** The phases come back whole even where gates do not: a gate that opens like a heading is lost alone. */
  lemma PhasesSurvive(L: Ledger, stamp: string)
    requires L.Keyed() && IsoStamp(stamp) && CarriesPhases(L) && StorableGates(L)
    ensures Load(Save(L, stamp)).phases == Norm(L).phases
  {
    hide ReadTokens, Load, LedgerLines, Unlines, Visible, StorablePhase, StorableGate, AfterPhases, PhaseLine, Untitled, SavedRows, SavedGates;
    var rows, gates := SavedRows(L), SavedGates(L);
    SavedRowsAre(L);
    SavedGatesAre(L);
    forall r | r in rows ensures StorablePhase(r) && Visible(PhaseLine(r)) {
      PhaseVisibleIff(r);
    }
    SavedText(rows, gates, stamp);
    SavedPhasesRead(rows);
    GatePhases(AfterPhases(rows).(table := GateTable), gates);
    FiledPhases(L, rows);
  }

  lemma FiledPhases(L: Ledger, rows: seq<ItemPhaseStatus>)
    requires L.Keyed() && rows == SavedRows(L) && forall k :: k in L.phases ==> k.phase in PHASES
    ensures FileAll(map[], PhaseEntries(rows)) == Norm(L).phases
  {
    hide SavedRows, PhaseEntries, FileAll, NormPhase;
    SavedRowsAre(L);
    PhaseEntriesAre(rows);
    var src := Norm(L).phases;
    var entries := PhaseEntries(rows);
    forall e | e in entries ensures e.0 in src && src[e.0] == e.1 {
      var r :| r in rows && e == (RowKey(r), NormPhase(r));
      var k :| k in L.phases && k.phase in PHASES && r == L.phases[k];
    }
    FileAllAgrees(map[], entries, src);
    forall k | k in src ensures k in FileAll(map[], entries) {
      var r := L.phases[k];
      assert r in rows;
      assert (RowKey(r), NormPhase(r)) in entries;
    }
  }

  lemma FiledGates(L: Ledger, gates: seq<GroupGateResult>)
    requires L.Keyed() && gates == SavedGates(L)
    ensures FileAll(map[], GateEntries(gates)) == Norm(L).gates
  {
    SavedGatesAre(L);
    GateEntriesAre(gates);
    var src := Norm(L).gates;
    var entries := GateEntries(gates);
    forall e | e in entries ensures e.0 in src && src[e.0] == e.1 {
      var g :| g in gates && e == (g.groupName, NormGate(g));
      var n :| n in L.gates && g == L.gates[n];
    }
    FileAllAgrees(map[], entries, src);
    forall n | n in src ensures n in FileAll(map[], entries) {
      var g := L.gates[n];
      assert g in gates;
      assert (g.groupName, NormGate(g)) in entries;
    }
  }

  lemma SavedAreStorable(L: Ledger)
    requires AllStorable(L)
    ensures forall r :: r in SavedRows(L) ==> StorablePhase(r)
    ensures forall g :: g in SavedGates(L) ==> StorableGate(g)
  {
    hide StorablePhase, StorableGate, SavedRows, SavedGates;
    SavedRowsAre(L);
    SavedGatesAre(L);
  }

  /** A phase that a saved file gives back had a visible row of a canonical phase. */
  lemma ReturnedPhase(L: Ledger, rows: seq<ItemPhaseStatus>, k: Key)
    requires L.Keyed() && rows == SavedRows(L) && AllStorable(L)
    requires k in AfterPhases(rows).ledger.phases
    ensures k in L.phases && CarriesPhase(L.phases[k])
  {
    hide StorablePhase, Visible, PhaseLine, Scan, SavedRows, ReadTokens, Untitled;
    SavedAreStorable(L);
    SavedRowsAre(L);
    ScanPhaseLines(rows);
    var ps := ScanAll(PhaseLines(rows));
    PhaseTokenKeys(Reader(EMPTY, PhaseTable), ps, rows, k);
    var i :| 0 <= i < |rows| && RowKey(rows[i]) == k && ps[i].Row?;
    assert rows[i] in rows;
    PhaseVisibleIff(rows[i]);
  }

  lemma ReturnedGate(L: Ledger, gates: seq<GroupGateResult>, rd: Reader, n: string)
    requires L.Keyed() && gates == SavedGates(L) && AllStorable(L) && n !in rd.ledger.gates
    requires n in ReadTokens(rd, ScanAll(GateLines(gates))).ledger.gates
    ensures n in L.gates && CarriesGate(L.gates[n])
  {
    hide StorableGate, Visible, GateLine, Scan, SavedGates, ReadTokens, Untitled;
    SavedAreStorable(L);
    SavedGatesAre(L);
    ScanGateLines(gates);
    var gs := ScanAll(GateLines(gates));
    GateTokenKeys(rd, gs, gates);
    var i :| 0 <= i < |gates| && gates[i].groupName == n && gs[i].Row?;
    assert gates[i] in gates;
    GateVisibleIff(gates[i]);
  }

  lemma NoGatesYet(L: Ledger)
    requires forall k :: k in L.phases ==> CarriesPhase(L.phases[k])
    ensures AfterPhases(SavedRows(L)).ledger.gates == map[]
  {
    hide StorablePhase, Visible, PhaseLine, AfterPhases, SavedRows, Untitled;
    SavedRowsAre(L);
    forall r | r in SavedRows(L) ensures StorablePhase(r) && Visible(PhaseLine(r)) {
      PhaseVisibleIff(r);
    }
    SavedPhasesRead(SavedRows(L));
  }

  lemma GatePhases(rd: Reader, gates: seq<GroupGateResult>)
    requires forall g :: g in gates ==> StorableGate(g)
    ensures ReadTokens(rd, ScanAll(GateLines(gates))).ledger.phases == rd.ledger.phases
  {
    hide StorableGate, Visible, GateLine, Scan, ReadTokens;
    ScanGateLines(gates);
    GateTokenKeys(rd, ScanAll(GateLines(gates)), gates);
  }

  /** A row that comes back must be one that the file can carry. */
  lemma OnlyCarryable(L: Ledger, stamp: string)
    requires L.Keyed() && IsoStamp(stamp) && Load(Save(L, stamp)) == Norm(L)
    ensures Carryable(L)
  {
    hide StorablePhase, StorableGate, CarriesPhase, CarriesGate, SavedRows, SavedGates, ReadTokens, AfterPhases, LedgerLines, Unlines, Load;
    AllReturnedAreStorable(L, stamp);
    var rows, gates := SavedRows(L), SavedGates(L);
    SavedAreStorable(L);
    SavedText(rows, gates, stamp);
    var r2 := AfterPhases(rows).(table := GateTable);
    GatePhases(r2, gates);
    forall k | k in L.phases ensures CarriesPhase(L.phases[k]) {
      assert k in Norm(L).phases;
      ReturnedPhase(L, rows, k);
    }
    NoGatesYet(L);
    forall n | n in L.gates ensures CarriesGate(L.gates[n]) {
      assert n in Norm(L).gates;
      ReturnedGate(L, gates, r2, n);
    }
  }

  lemma AllReturnedAreStorable(L: Ledger, stamp: string)
    requires Load(Save(L, stamp)) == Norm(L)
    ensures AllStorable(L)
  {
    LoadIsStorable(Save(L, stamp));
    forall k | k in L.phases ensures StorablePhase(L.phases[k]) {
      assert k in Norm(L).phases;
      assert StorablePhase(NormPhase(L.phases[k]));
    }
    forall n | n in L.gates ensures StorableGate(L.gates[n]) {
      assert n in Norm(L).gates;
      assert StorableGate(NormGate(L.gates[n]));
    }
  }

  /** Loading the saved file gives the ledger back (times, gate paths and blank cells aside)
      exactly when every row fits the table syntax, belongs to a canonical phase, and prints
      as neither a heading nor a section title. */
  lemma RoundTripIff(L: Ledger, stamp: string)
    requires L.Keyed() && IsoStamp(stamp)
    ensures Load(Save(L, stamp)) == Norm(L) <==> Carryable(L)
  {
    if Carryable(L) {
      RoundTrip(L, stamp);
    } else if Load(Save(L, stamp)) == Norm(L) {
      OnlyCarryable(L, stamp);
    }
  }
}
