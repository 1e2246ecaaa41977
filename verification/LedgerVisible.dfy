/** When the loader passes over a printed row: exactly when a cell of that row holds a section
    title, or its first cell opens like a column heading. */
module LedgerVisible {
  import opened Text
  import opened Regex
  import opened LedgerText
  import opened LedgerRoundTrip

  // ---- searching a row for a title is searching its cells ----

  lemma {:induction false} ContainsHead(s: string, needle: string)
    requires needle != "" && needle[0] !in s
    ensures !Contains(s, needle)
  {
    if |needle| <= |s| {
      assert s[0] in s;
      ContainsHead(s[1..], needle);
    }
  }

  lemma PrefixChars(s: string, p: string)
    ensures p <= s ==> forall c :: c in p ==> c in s
  {
    if p <= s {
      assert forall i :: 0 <= i < |p| ==> p[i] == s[i] && s[i] in s;
    }
  }

  lemma {:induction false} ContainsChars(s: string, needle: string, c: char)
    requires c in needle && c !in s
    ensures !Contains(s, needle)
  {
    if |needle| <= |s| {
      PrefixChars(s, needle);
      ContainsChars(s[1..], needle, c);
    }
  }

  /** A needle without the separator is found in a joined text just when it is in one of the sides. */
  lemma {:induction false} ContainsJoin(a: string, c: char, b: string, needle: string)
    requires needle != "" && c !in needle
    ensures Contains(a + [c] + b, needle) <==> Contains(a, needle) || Contains(b, needle)
  {
    var s := a + [c] + b;
    if a == "" {
      assert s[1..] == b;
      assert s[0] == c && needle[0] in needle;
      ShortIsFree(b, needle);
    } else {
      assert s[1..] == a[1..] + [c] + b;
      ContainsJoin(a[1..], c, b, needle);
      JoinPrefix(a, c, b, needle);
      ShortIsFree(b, needle);
      ShortIsFree(a[1..], needle);
    }
  }

  lemma ShortIsFree(s: string, needle: string)
    ensures |s| < |needle| ==> !Contains(s, needle)
  {
  }

  lemma JoinPrefix(a: string, c: char, b: string, needle: string)
    requires c !in needle
    ensures needle <= a + [c] + b <==> needle <= a
  {
    var s := a + [c] + b;
    assert s[|a|] == c;
    assert |needle| > |a| ==> needle[|a|] in needle;
    if needle <= a {
      assert s[..|needle|] == a[..|needle|];
    }
    if needle <= s && |needle| <= |a| {
      assert a[..|needle|] == s[..|needle|];
    }
  }

  lemma {:induction false} ContainsPadRight(x: string, c: char, needle: string)
    requires needle != "" && needle[|needle| - 1] != c
    ensures Contains(x + [c], needle) <==> Contains(x, needle)
  {
    var s := x + [c];
    if |needle| == |s| {
      assert s[|s| - 1] == c;
      ShortIsFree(s[1..], needle);
    } else if |needle| < |s| {
      assert s[1..] == x[1..] + [c];
      assert s[..|needle|] == x[..|needle|];
      ContainsPadRight(x[1..], c, needle);
    }
  }

  lemma ContainsPadLeft(c: char, x: string, needle: string)
    requires needle != "" && needle[0] != c
    ensures Contains([c] + x, needle) <==> Contains(x, needle)
  {
    var s := [c] + x;
    assert s[1..] == x;
  }

  predicate Marker(t: string) {
    t != "" && '|' !in t && t[0] == '#' && t[|t| - 1] != ' ' && ' ' in t
  }

  lemma TitlesAreMarkers()
    ensures Marker(PHASE_TITLE) && Marker(GATE_TITLE)
  {
    assert PHASE_TITLE[2] == ' ' && GATE_TITLE[2] == ' ';
  }

  lemma CellContains(x: string, tail: string, t: string)
    requires Marker(t)
    ensures Contains(" " + (x + (" |" + tail)), t) <==> Contains(x, t) || Contains(tail, t)
  {
    assert " " + (x + (" |" + tail)) == (" " + (x + " ")) + ['|'] + tail;
    ContainsJoin(" " + (x + " "), '|', tail, t);
    ContainsPadLeft(' ', x + " ", t);
    ContainsPadRight(x, ' ', t);
  }

  lemma ThreeContain(a: string, b: string, c: string, tail: string, t: string)
    requires Marker(t)
    ensures Contains(" " + (a + (" |" + (" " + (b + (" |" + (" " + (c + (" |" + tail)))))))), t)
       <==> Contains(a, t) || Contains(b, t) || Contains(c, t) || Contains(tail, t)
  {
    hide Contains, Marker;
    var s3 := " " + (c + (" |" + tail));
    CellContains(c, tail, t);
    var s2 := " " + (b + (" |" + s3));
    CellContains(b, s3, t);
    CellContains(a, s2, t);
  }

  lemma FourContain(a: string, b: string, c: string, d: string, t: string)
    requires Marker(t)
    ensures Contains(" " + (a + (" |" + (" " + (b + (" |" + (" " + (c + (" |" + (" " + (d + (" |" + ""))))))))))), t)
       <==> Contains(a, t) || Contains(b, t) || Contains(c, t) || Contains(d, t)
  {
    hide Contains, Marker;
    CellContains(d, "", t);
    assert !Contains("", t) by { EmptyHasNone(t); }
    ThreeContain(a, b, c, " " + (d + (" |" + "")), t);
  }

  lemma EmptyHasNone(t: string)
    requires Marker(t)
    ensures !Contains("", t)
  {
  }

  lemma PhaseCellsContain(i: string, p: string, s: string, a: string, v: string, n: string, o: string, t: string)
    requires Marker(t) && Solid(i) && WordText(p) && WordText(s) && AllIn(n, Digit)
    ensures Contains("|" + (" " + (i + (" |" + (" " + (p + (" |" + (" " + (s + (" |" + (" " + (a +
              (" |" + (" " + (v + (" |" + (" " + (n + (" |" + (" " + (o + (" |" + ""))))))))))))))))))))), t)
       <==> Contains(a, t) || Contains(v, t) || Contains(o, t)
  {
    hide Contains;
    ContainsChars(i, t, ' ');
    ContainsHead(p, t);
    ContainsHead(s, t);
    assert forall c :: c in n ==> In(c, Digit);
    ContainsHead(n, t);
    var tail := " " + (a + (" |" + (" " + (v + (" |" + (" " + (n + (" |" + (" " + (o + (" |" + "")))))))))));
    FourContain(a, v, n, o, t);
    var row := " " + (i + (" |" + (" " + (p + (" |" + (" " + (s + (" |" + tail))))))));
    ThreeContain(i, p, s, tail, t);
    ContainsPadLeft('|', row, t);
    assert "|" == ['|'];
  }

  lemma PhaseLineContains(r: ItemPhaseStatus, t: string)
    requires StorablePhase(r) && Marker(t)
    ensures Contains(PhaseLine(r), t)
       <==> Contains(Cell(r.agentId), t) || Contains(Cell(r.validation), t) || Contains(Cell(r.outputPath), t)
  {
    hide Contains, PhaseLine, Marker;
    CellIsText(r.validation);
    PipeFree(Cell(r.validation));
    DigitsAreSolid(r.iterations);
    PhaseLineCells(r, Cell(r.validation));
    PhaseCellsContain(r.itemId, r.phase, r.status, Cell(r.agentId), Cell(r.validation), NatText(r.iterations), Cell(r.outputPath), t);
  }

  lemma GateLineContains(g: GroupGateResult, t: string)
    requires StorableGate(g) && Marker(t)
    ensures Contains(GateLine(g), t) <==> Contains(g.groupName, t)
  {
    hide Contains, GateLine, NoHash, NatText, IntText, LintText, Marker, GateCells;
    GateLineCells(g);
    GateFieldsPlain(g);
    var c, n := NatText(g.itemsCompleted), NatText(g.itemsTotal);
    CountsPlain(c, n);
    GateCellsContain(g.groupName, g.status, NatText(g.testsBefore), NatText(g.testsAfter), IntText(g.testsDelta),
                     LintText(g.lintClean), c + ("/" + (n + (" |" + ""))), t);
  }

  predicate NoHash(s: string) { '#' !in s }

  lemma GateFieldsPlain(g: GroupGateResult)
    requires StorableGate(g)
    ensures NoHash(g.status) && NoHash(NatText(g.testsBefore)) && NoHash(NatText(g.testsAfter)) && NoHash(IntText(g.testsDelta))
    ensures NoHash(LintText(g.lintClean)) && NoHash(NatText(g.itemsCompleted)) && NoHash(NatText(g.itemsTotal))
  {
    hide NatText;
    NatPlain(g.testsBefore); NatPlain(g.testsAfter); NatPlain(Magnitude(g.testsDelta));
    NatPlain(g.itemsCompleted); NatPlain(g.itemsTotal);
  }

  lemma NatPlain(n: nat)
    ensures NoHash(NatText(n))
  {
    hide NatText;
    NatTextDigits(n);
  }

  lemma CountsPlain(c: string, n: string)
    requires NoHash(c) && NoHash(n)
    ensures NoHash(c + ("/" + (n + (" |" + ""))))
  {
  }

  lemma GateCellsContain(name: string, s: string, b: string, a: string, d: string, l: string, rest: string, t: string)
    requires Marker(t) && NoHash(s) && NoHash(b) && NoHash(a) && NoHash(d) && NoHash(l) && NoHash(rest)
    ensures Contains(GateCells(name, s, b, a, " " + (d + (" |" + (" " + (l + (" |" + (" " + rest))))))), t)
       <==> Contains(name, t)
  {
    hide Contains;
    var tail := " " + (d + (" |" + (" " + (l + (" |" + (" " + rest))))));
    assert NoHash(tail);
    var cells := " " + (s + (" |" + (" " + (b + (" |" + (" " + (a + (" |" + tail))))))));
    assert NoHash(cells);
    ContainsHead(cells, t);
    CellContains(name, cells, t);
    ContainsPadLeft('|', " " + (name + (" |" + cells)), t);
    assert "|" == ['|'];
  }

  // ---- column headings ----

  lemma PrefixOfCell(word: string, cell: string, tail: string)
    requires word != "" && '|' !in word && word[|word| - 1] != ' '
    ensures word <= cell + (" | " + tail) <==> word <= cell
  {
    var s := cell + (" | " + tail);
    assert s[|cell|] == ' ' && s[|cell| + 1] == '|';
    assert |word| > |cell| + 1 ==> word[|cell| + 1] in word;
    if |word| <= |cell| { JoinTake(word, cell, " | " + tail); }
  }

  lemma JoinTake(word: string, a: string, b: string)
    requires |word| <= |a|
    ensures word <= a + b <==> word <= a
  {
    assert (a + b)[..|word|] == a[..|word|];
  }

  lemma BarPrefix(word: string, s: string)
    ensures "| " + word <= "| " + s <==> word <= s
  {
    var a, b := "| " + word, "| " + s;
    if a <= b {
      assert forall i :: 0 <= i < |word| ==> word[i] == a[i + 2] == b[i + 2] == s[i];
    }
    if word <= s {
      assert forall i :: 0 <= i < |word| ==> a[i + 2] == word[i] == s[i] == b[i + 2];
    }
  }

  lemma CellHeading(cell: string, tail: string)
    ensures Heading("| " + (cell + (" | " + tail))) <==> StartsWith(cell, "Group") || StartsWith(cell, "Item ID")
  {
    var s := cell + (" | " + tail);
    BarPrefix("Item ID", s);
    BarPrefix("Group", s);
    PrefixOfCell("Item ID", cell, tail);
    PrefixOfCell("Group", cell, tail);
    assert "| " + "Item ID" == "| Item ID" && "| " + "Group" == "| Group";
    assert "|---"[1] == '-' && ("| " + s)[1] == ' ';
  }

  /** A phase row is read unless its item id opens with "Group" or a text cell holds a section title. */
  lemma PhaseVisibleIff(r: ItemPhaseStatus)
    requires StorablePhase(r)
    ensures Visible(PhaseLine(r)) <==>
              !StartsWith(r.itemId, "Group") && Untitled(Cell(r.agentId)) && Untitled(Cell(r.validation)) && Untitled(Cell(r.outputPath))
  {
    hide Marker;
    TitlesAreMarkers();
    PhaseLineContains(r, PHASE_TITLE);
    PhaseLineContains(r, GATE_TITLE);
    CellHeading(r.itemId, PhaseRest(r));
    assert PhaseLine(r) == "| " + (r.itemId + (" | " + PhaseRest(r)));
    SolidIsNoHeading(r);
  }

  function PhaseRest(r: ItemPhaseStatus): string {
    r.phase + (" | " + (r.status + (" | " + (Cell(r.agentId) + (" | " +
    (Escape(Cell(r.validation)) + (" | " + (IntText(r.iterations) + (" | " + (Cell(r.outputPath) + " |"))))))))))
  }

  lemma SolidIsNoHeading(r: ItemPhaseStatus)
    requires StorablePhase(r)
    ensures !StartsWith(r.itemId, "Item ID")
  {
    var heading := "Item ID";
    assert heading[4] == ' ' && ' ' in heading;
    PrefixChars(r.itemId, heading);
    assert IsSpace(' ');
  }

  /** A gate row is read unless its group name opens like a column heading or holds a section title. */
  lemma GateVisibleIff(g: GroupGateResult)
    requires StorableGate(g)
    ensures Visible(GateLine(g)) <==>
              !StartsWith(g.groupName, "Group") && !StartsWith(g.groupName, "Item ID") && Untitled(g.groupName)
  {
    hide Marker;
    TitlesAreMarkers();
    GateLineContains(g, PHASE_TITLE);
    GateLineContains(g, GATE_TITLE);
    CellHeading(g.groupName, GateRest(g));
    assert GateLine(g) == "| " + (g.groupName + (" | " + GateRest(g)));
  }

  function GateRest(g: GroupGateResult): string {
    g.status + (" | " + (IntText(g.testsBefore) + (" | " +
    (IntText(g.testsAfter) + (" | " + (IntText(g.testsDelta) + (" | " + (LintText(g.lintClean) + (" | " +
    (IntText(g.itemsCompleted) + ("/" + (IntText(g.itemsTotal) + " |"))))))))))))
  }
}
