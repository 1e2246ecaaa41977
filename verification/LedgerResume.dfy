/** What a resumed session may rely on: saving again changes nothing, and text that the file
    cannot carry may lose a row but never gives a phase a status it did not have. */
module LedgerResume {
  import opened Text
  import opened Regex
  import opened LedgerText
  import opened LedgerRoundTrip
  import opened LedgerLaws
  import opened Sorting

  // ---- saving what was loaded ----

  lemma NormPrintsSame(r: ItemPhaseStatus)
    ensures PhaseLine(NormPhase(r)) == PhaseLine(r)
  {
    assert Cell(NormCell(r.agentId)) == Cell(r.agentId);
    assert Cell(NormCell(r.validation)) == Cell(r.validation);
    assert Cell(NormCell(r.outputPath)) == Cell(r.outputPath);
  }

  lemma {:induction false} ItemRowsPrintSame(L: Ledger, item: string, phases: seq<string>)
    ensures PhaseLines(ItemRows(Norm(L).phases, item, phases)) == PhaseLines(ItemRows(L.phases, item, phases))
  {
    hide PhaseLine;
    if phases != [] {
      ItemRowsPrintSame(L, item, phases[1..]);
      var k := Key(item, phases[0]);
      if k in L.phases {
        var r := L.phases[k];
        NormPrintsSame(r);
        PhaseLinesGrow([r], ItemRows(L.phases, item, phases[1..]));
        PhaseLinesGrow([NormPhase(r)], ItemRows(Norm(L).phases, item, phases[1..]));
        assert PhaseLines([r]) == [PhaseLine(r)] && PhaseLines([NormPhase(r)]) == [PhaseLine(r)];
        assert Norm(L).phases[k] == NormPhase(r);
      } else {
        assert [] + ItemRows(L.phases, item, phases[1..]) == ItemRows(L.phases, item, phases[1..]);
        assert [] + ItemRows(Norm(L).phases, item, phases[1..]) == ItemRows(Norm(L).phases, item, phases[1..]);
      }
    }
  }

  lemma {:induction false} RowsPrintSame(L: Ledger, items: seq<string>)
    ensures PhaseLines(Rows(Norm(L).phases, items)) == PhaseLines(Rows(L.phases, items))
  {
    if items != [] {
      var n, m := Norm(L).phases, L.phases;
      ItemRowsPrintSame(L, items[0], PHASES);
      RowsPrintSame(L, items[1..]);
      PhaseLinesGrow(ItemRows(n, items[0], PHASES), Rows(n, items[1..]));
      PhaseLinesGrow(ItemRows(m, items[0], PHASES), Rows(m, items[1..]));
    }
  }

  lemma {:induction false} GateRowsPrintSame(L: Ledger, names: seq<string>)
    requires forall n :: n in names ==> n in L.gates
    ensures GateLines(GateRows(Norm(L).gates, names)) == GateLines(GateRows(L.gates, names))
  {
    hide GateLine;
    if names != [] {
      GateRowsPrintSame(L, names[1..]);
      assert names[0] in names;
      GatePrintsSame(L.gates[names[0]]);
    }
  }

  lemma GatePrintsSame(g: GroupGateResult)
    ensures GateLine(NormGate(g)) == GateLine(g)
  {
  }

  /** What the file leaves out of a ledger was never printed. */
  lemma NormSavesSame(L: Ledger, stamp: string)
    ensures Save(Norm(L), stamp) == Save(L, stamp)
  {
    hide PhaseLine, GateLine;
    var items := set k | k in L.phases :: k.item;
    assert items == set k | k in Norm(L).phases :: k.item;
    RowsPrintSame(L, Sorted(items));
    SortedElements(L.gates.Keys);
    assert Norm(L).gates.Keys == L.gates.Keys;
    GateRowsPrintSame(L, Sorted(L.gates.Keys));
  }

  /** Load a saved file and save it again: the same text, apart from the timestamp. */
  lemma SaveAgain(L: Ledger, before: string, after: string)
    requires L.Keyed() && IsoStamp(before) && Carryable(L)
    ensures Save(Load(Save(L, before)), after) == Save(L, after)
  {
    RoundTrip(L, before);
    NormSavesSame(L, after);
  }

  // ---- rows with bars in them ----

  /** A phase row whose keys are plain; its text cells may hold anything but a line ending. */
  predicate Writable(r: ItemPhaseStatus) {
    && Solid(r.itemId) && '|' !in r.itemId && WordText(r.phase) && WordText(r.status)
    && OneLine(Cell(r.agentId)) && OneLine(Cell(r.validation)) && OneLine(Cell(r.outputPath))
  }

  lemma BlankRun(b: string, x: string, y: string)
    requires AllIn(b, Space) && x != "" && !IsSpace(x[0]) && y != "" && !IsSpace(y[0])
    requires b + x <= " " + y
    ensures b == " " && x <= y
  {
    var s, z := b + x, " " + y;
    assert forall i :: 0 <= i < |b| ==> s[i] == b[i] && In(b[i], Space);
    assert forall i :: 0 <= i < |s| ==> s[i] == z[i];
    assert s[|b|] == x[0] && z[1] == y[0];
    assert |b| == 1;
    assert forall i :: 0 <= i < |x| ==> x[i] == s[i + 1] == z[i + 1] == y[i];
  }

  lemma WordRun(t: string, u: string, w: string, v: string)
    requires AllIn(t, NonSpace) && Solid(w) && '|' !in w
    requires u != "" && (IsSpace(u[0]) || u[0] == '|') && v != "" && IsSpace(v[0])
    requires t + u <= w + v
    ensures t == w && u <= v
  {
    var s, z := t + u, w + v;
    assert forall i :: 0 <= i < |t| ==> s[i] == t[i] && In(t[i], NonSpace);
    assert forall i :: 0 <= i < |w| ==> z[i] == w[i] && w[i] in w;
    assert forall i :: 0 <= i < |s| ==> s[i] == z[i];
    assert z[|w|] == v[0] && s[|t|] == u[0];
    assert |t| == |w|;
    assert forall i :: 0 <= i < |t| ==> t[i] == s[i] == z[i] == w[i];
    assert forall i :: 0 <= i < |u| ==> u[i] == s[i + |t|] == z[i + |w|] == v[i];
  }

  lemma BarPrefix(a: string, b: string)
    requires "|" + a <= "|" + b
    ensures a <= b
  {
    var s, z := "|" + a, "|" + b;
    assert forall i :: 0 <= i < |a| ==> a[i] == s[i + 1] == z[i + 1] == b[i];
  }

  lemma WordClassIsNonSpace(t: string, k: CharClass)
    requires AllIn(t, k) && (k.Word? || k.NonSpace?)
    ensures AllIn(t, NonSpace)
  {
    assert forall i :: 0 <= i < |t| ==> In(t[i], k) ==> In(t[i], NonSpace);
  }

  /** Wherever a padded bar-free word stands, a token cell can only read that word. */
  lemma ExactToken(k: CharClass, rest: Pattern, p: Parts, w: string, tail: string)
    requires Fits(TokenCell(k, rest), p) && (k.Word? || k.NonSpace?)
    requires Solid(w) && '|' !in w && Concat(p) <= " " + (w + (" |" + tail))
    ensures p.Next().Text() == w
    ensures Fits(rest, AfterToken(p)) && Concat(AfterToken(p)) <= tail
  {
    var bar := Then(One(Lit('|')), rest);
    var R := Concat(AfterToken(p));
    TokenPieces(k, rest, p);
    var b, t, c := p.head, p.tail.head, p.tail.tail.head;
    WordClassIsNonSpace(t, k);
    assert w[0] in w;
    BlankRun(b, t + (c + ("|" + R)), w + (" |" + tail));
    if c != "" { assert In(c[0], Space); }
    WordRun(t, c + ("|" + R), w, " |" + tail);
    assert " |" + tail == " " + ("|" + tail);
    BlankRun(c, "|" + R, "|" + tail);
    BarPrefix(R, tail);
  }

  lemma TokenPieces(k: CharClass, rest: Pattern, p: Parts)
    requires Fits(TokenCell(k, rest), p) && (k.Word? || k.NonSpace?)
    ensures p.Cons? && p.tail.Cons? && p.tail.tail.Cons?
    ensures AllIn(p.head, Space) && AllIn(p.tail.head, k) && p.tail.head != "" && AllIn(p.tail.tail.head, Space)
    ensures In(p.tail.head[0], k) && !IsSpace(p.tail.head[0])
    ensures Fits(rest, AfterToken(p))
    ensures Concat(p) == p.head + (p.tail.head + (p.tail.tail.head + ("|" + Concat(AfterToken(p)))))
  {
    var bar := Then(One(Lit('|')), rest);
    PeelOne(Star(Space), Then(Plus(k), Then(Star(Space), bar)), p);
    PeelOne(Plus(k), Then(Star(Space), bar), p.tail);
    PeelOne(Star(Space), bar, p.tail.tail);
    PeelOne(One(Lit('|')), rest, p.tail.tail.tail);
    BarPiece(p.tail.tail.tail.head);
  }

  lemma PeelOne(p: Piece, rest: Pattern, parts: Parts)
    requires Fits(Then(p, rest), parts)
    ensures parts.Cons? && PieceFits(p, parts.head) && Fits(rest, parts.tail)
    ensures Concat(parts) == parts.head + Concat(parts.tail)
  {
  }

  function PhaseRestText(r: ItemPhaseStatus): string {
    " " + (Cell(r.agentId) + (" | " + (Escape(Cell(r.validation)) + (" | " + (IntText(r.iterations) +
    (" | " + (Cell(r.outputPath) + " |")))))))
  }

  lemma PhaseLineOpens(r: ItemPhaseStatus)
    ensures PhaseLine(r) == "|" + (" " + (r.itemId + (" |" + (" " + (r.phase + (" |" + (" " + (r.status + (" |" + PhaseRestText(r))))))))))
  {
    var e4 := Cell(r.agentId) + (" | " + (Escape(Cell(r.validation)) + (" | " + (IntText(r.iterations) +
              (" | " + (Cell(r.outputPath) + " |"))))));
    assert " | " + e4 == " |" + (" " + e4);
    var e3 := " | " + e4;
    Glue(r.status, e3);
    var e2 := " | " + (r.status + e3);
    Glue(r.phase, e2);
    Glue(r.itemId, " | " + (r.phase + e2));
  }

  /** Any reading of a printed row gives its own item, phase and status. */
  lemma OwnReading(rest: Pattern, parts: Parts, a: string, b: string, c: string, tail: string)
    requires Fits(Then(One(Lit('|')), TokenCell(NonSpace, TokenCell(Word, TokenCell(Word, rest)))), parts)
    requires Solid(a) && '|' !in a && WordText(b) && WordText(c)
    requires Concat(parts) <= "|" + (" " + (a + (" |" + (" " + (b + (" |" + (" " + (c + (" |" + tail)))))))))
    ensures var p1 := parts.Next(); var p2 := AfterToken(p1);
            p1.Next().Text() == a && p2.Next().Text() == b && AfterToken(p2).Next().Text() == c
  {
    PeelOne(One(Lit('|')), TokenCell(NonSpace, TokenCell(Word, TokenCell(Word, rest))), parts);
    BarPiece(parts.head);
    var p1 := parts.tail;
    WordIsSolid(b); WordIsSolid(c);
    assert forall x :: x in b || x in c ==> IsWordChar(x);
    var s3 := " " + (c + (" |" + tail));
    var s2 := " " + (b + (" |" + s3));
    BarPrefix(Concat(p1), " " + (a + (" |" + s2)));
    ExactToken(NonSpace, TokenCell(Word, TokenCell(Word, rest)), p1, a, s2);
    var p2 := AfterToken(p1);
    ExactToken(Word, TokenCell(Word, rest), p2, b, s3);
    ExactToken(Word, rest, AfterToken(p2), c, tail);
  }

  lemma ReadPhaseIsOwn(r: ItemPhaseStatus)
    requires Writable(r)
    ensures var v := ReadPhase(PhaseLine(r));
            v.Some? ==> v.value.itemId == r.itemId && v.value.phase == r.phase && v.value.status == r.status
  {
    var m := Match(PhasePattern(), PhaseLine(r));
    MatchSound(PhasePattern(), PhaseLine(r));
    PhaseLineOpens(r);
    if m.Matched? {
      OwnReading(FreeCell(FreeCell(TokenCell(Digit, FreeCell(Done)))), m.parts, r.itemId, r.phase, r.status, PhaseRestText(r));
      WordIsSolid(r.phase); WordIsSolid(r.status);
      SolidStrips(r.itemId); SolidStrips(r.phase); SolidStrips(r.status);
      OwnFields(m.parts, r);
    }
  }

  lemma OwnFields(parts: Parts, r: ItemPhaseStatus)
    requires var p1 := parts.Next(); var p2 := AfterToken(p1);
             Strip(p1.Next().Text()) == r.itemId && Strip(p2.Next().Text()) == r.phase
             && Strip(AfterToken(p2).Next().Text()) == r.status
    ensures var v := ParsedPhase(parts); v.itemId == r.itemId && v.phase == r.phase && v.status == r.status
  {
  }

  lemma {:induction false} EscapeOneLine(s: string)
    requires OneLine(s)
    ensures OneLine(Escape(s))
  {
    if s != "" {
      assert s[0] in s && OneLine(s[1..]);
      EscapeOneLine(s[1..]);
    }
  }

  lemma WritableOneLine(r: ItemPhaseStatus)
    requires Writable(r)
    ensures OneLine(PhaseLine(r))
  {
    EscapeOneLine(Cell(r.validation));
    IntOneLine(r.iterations);
    WordIsSolid(r.phase); WordIsSolid(r.status);
    WordOneLine(r.itemId); WordOneLine(r.phase); WordOneLine(r.status);
    PhaseTextsOneLine(r.itemId, r.phase, r.status, Cell(r.agentId), Escape(Cell(r.validation)), IntText(r.iterations), Cell(r.outputPath));
  }

  /** A token that could only file a phase with the status that `src` gives it. */
  ghost predicate Honest(t: Token, src: map<Key, ItemPhaseStatus>) {
    t.Row? && t.phase.Some? ==>
      var k := RowKey(t.phase.value);
      k in src && t.phase.value.status == src[k].status
  }

  ghost predicate SameStatus(m: map<Key, ItemPhaseStatus>, src: map<Key, ItemPhaseStatus>) {
    forall k :: k in m ==> k in src && m[k].status == src[k].status
  }

  lemma {:induction false} ReadHonest(rd: Reader, ts: seq<Token>, src: map<Key, ItemPhaseStatus>)
    requires SameStatus(rd.ledger.phases, src) && forall t :: t in ts ==> Honest(t, src)
    ensures SameStatus(ReadTokens(rd, ts).ledger.phases, src)
    decreases |ts|
  {
    if ts != [] {
      assert ts[0] in ts;
      ReadHonest(Step(rd, ts[0]), ts[1..], src);
    }
  }

  lemma PhaseLineHonest(r: ItemPhaseStatus, src: map<Key, ItemPhaseStatus>)
    requires Writable(r) && RowKey(r) in src && src[RowKey(r)] == r
    ensures Honest(Scan(PhaseLine(r)), src)
  {
    ScanRowLine(PhaseLine(r));
    ReadPhaseIsOwn(r);
  }

  lemma {:induction false} PhaseLinesHonest(rows: seq<ItemPhaseStatus>, src: map<Key, ItemPhaseStatus>)
    requires forall r :: r in rows ==> Writable(r) && RowKey(r) in src && src[RowKey(r)] == r
    ensures forall t :: t in ScanAll(PhaseLines(rows)) ==> Honest(t, src)
    ensures forall l :: l in PhaseLines(rows) ==> OneLine(l)
  {
    hide Scan, Honest, PhaseLine, Writable;
    if rows != [] {
      assert rows[0] in rows;
      PhaseLineHonest(rows[0], src);
      WritableOneLine(rows[0]);
      PhaseLinesHonest(rows[1..], src);
    }
  }

  lemma {:induction false} GateLinesHonest(gates: seq<GroupGateResult>, src: map<Key, ItemPhaseStatus>)
    requires forall g :: g in gates ==> StorableGate(g)
    ensures forall t :: t in ScanAll(GateLines(gates)) ==> Honest(t, src)
    ensures forall l :: l in GateLines(gates) ==> OneLine(l)
  {
    hide Scan, GateLine, StorableGate;
    if gates != [] {
      assert gates[0] in gates;
      ScanGateLine(gates[0]);
      GateLineOneLine(gates[0]);
      GateLinesHonest(gates[1..], src);
    }
  }

  /** Text with bars in it can make a row unreadable, but no resumed phase has a status it did not
      have: a phase that did not pass is never taken for one that did. */
  lemma NoStatusInvented(L: Ledger, stamp: string)
    requires L.Keyed() && IsoStamp(stamp)
    requires forall k :: k in L.phases ==> Writable(L.phases[k])
    requires forall g :: g in L.gates ==> StorableGate(L.gates[g])
    ensures SameStatus(Load(Save(L, stamp)).phases, L.phases)
  {
    hide Writable, StorableGate, PhaseLine, GateLine, Scan, ReadTokens, Honest, Load, Unlines;
    var rows, gates := SavedRows(L), SavedGates(L);
    SavedRowsAre(L);
    SavedGatesAre(L);
    PhaseLinesHonest(rows, L.phases);
    GateLinesHonest(gates, L.phases);
    FileHonest(rows, gates, stamp, L.phases);
  }

  lemma FileHonest(rows: seq<ItemPhaseStatus>, gates: seq<GroupGateResult>, stamp: string, src: map<Key, ItemPhaseStatus>)
    requires IsoStamp(stamp)
    requires (forall t :: t in ScanAll(PhaseLines(rows)) ==> Honest(t, src)) && (forall l :: l in PhaseLines(rows) ==> OneLine(l))
    requires (forall t :: t in ScanAll(GateLines(gates)) ==> Honest(t, src)) && (forall l :: l in GateLines(gates) ==> OneLine(l))
    ensures SameStatus(Load(Unlines(LedgerLines(rows, gates, stamp))).phases, src)
  {
    hide Scan, ReadTokens, Load, Unlines, Preamble, PhaseLines, GateLines;
    var a, b, c, d := ScanAll(Preamble(stamp)), ScanAll(PhaseLines(rows)), ScanAll(MIDDLE), ScanAll(GateLines(gates));
    PreambleTokens(stamp);
    MiddleTokens(Reader(EMPTY, NoTable));
    JoinedText(Preamble(stamp), PhaseLines(rows), MIDDLE, GateLines(gates));
    ReadHonest(Reader(EMPTY, NoTable), a + b + c + d + [Ignored], src);
  }
}
