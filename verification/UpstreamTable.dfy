/** The dependency table itself: closed under its own dependencies, and without cycles. */
module UpstreamTable {
  import opened FreezeSteps
  import opened FreezeLaws
  import opened FreezeProgress

  /** A type and the types it needs. */
  datatype TableRow = TableRow(t: string, needs: seq<string>)

  const TABLE: seq<TableRow> := [
    TableRow("PRD", []), TableRow("ACF", ["PRD"]), TableRow("SAD", ["PRD"]),
    TableRow("TDD", ["ACF", "SAD"]), TableRow("WDD", ["TDD"]), TableRow("ORD", ["WDD"]),
    TableRow("QAER", ["ORD"]), TableRow("VP", ["QAER"]), TableRow("TCR", ["VP"]),
    TableRow("QGR", ["TCR"]), TableRow("RER", ["ORD"]), TableRow("RCF", ["RER"]),
    TableRow("RP", ["RCF"]), TableRow("RR", ["RP"]), TableRow("RHR", ["RR"]),
    TableRow("SDR", ["DPRD"]), TableRow("DPRD", []), TableRow("SOER", ["DPRD"]),
    TableRow("VER", ["SOER"]), TableRow("TM", ["SAD"]), TableRow("SAR", ["TDD"]),
    TableRow("DAR", ["TDD"]), TableRow("CER", []), TableRow("CSPEC", ["TDD"]),
    TableRow("FFLR", []), TableRow("DSR", ["TDD"]), TableRow("PDR", []),
    TableRow("ISPEC", []), TableRow("EM", []), TableRow("UDR", []),
    TableRow("ARR", ["TDD"]), TableRow("SKA", []), TableRow("DHR", [])
  ]

  function NeedsOf(rows: seq<TableRow>): map<string, seq<string>> {
    if rows == [] then map[] else NeedsOf(rows[..|rows| - 1])[rows[|rows| - 1].t := rows[|rows| - 1].needs]
  }

  /** `UPSTREAM_DEPENDENCIES` */
  function Upstream(): map<string, seq<string>> { NeedsOf(TABLE) }

  predicate Listed(rows: seq<TableRow>, t: string, needs: seq<string>) {
    exists i :: 0 <= i < |rows| && rows[i] == TableRow(t, needs)
  }

  lemma {:induction false} NeedsAre(rows: seq<TableRow>)
    ensures forall t :: t in NeedsOf(rows) ==> Listed(rows, t, NeedsOf(rows)[t])
    ensures forall i :: 0 <= i < |rows| ==> rows[i].t in NeedsOf(rows)
  {
    if rows != [] {
      var front, last := rows[..|rows| - 1], rows[|rows| - 1];
      NeedsAre(front);
      forall t | t in NeedsOf(rows) ensures Listed(rows, t, NeedsOf(rows)[t]) {
        if t == last.t {
          assert rows[|rows| - 1] == TableRow(t, NeedsOf(rows)[t]);
        } else {
          assert Listed(front, t, NeedsOf(front)[t]);
          var i :| 0 <= i < |front| && front[i] == TableRow(t, NeedsOf(front)[t]);
          assert rows[i] == front[i];
        }
      }
      assert forall i :: 0 <= i < |front| ==> rows[i] == front[i];
    }
  }

  /** How deep a type stands in the table. */
  function Depth(t: string): nat {
    if t == "ACF" || t == "SAD" || t == "SDR" || t == "SOER" then 1
    else if t == "TDD" || t == "VER" || t == "TM" then 2
    else if t == "WDD" || t == "SAR" || t == "DAR" || t == "CSPEC" || t == "DSR" || t == "ARR" then 3
    else if t == "ORD" then 4
    else if t == "QAER" || t == "RER" then 5
    else if t == "VP" || t == "RCF" then 6
    else if t == "TCR" || t == "RP" then 7
    else if t == "QGR" || t == "RR" then 8
    else if t == "RHR" then 9
    else 0
  }

  predicate HasType(u: string) { exists j :: 0 <= j < |TABLE| && TABLE[j].t == u }

  lemma TypeAt(j: nat)
    requires j < |TABLE|
    ensures HasType(TABLE[j].t)
  {
  }

  predicate Supported(row: TableRow) { forall u :: u in row.needs ==> Depth(u) < Depth(row.t) && HasType(u) }

  lemma NoNeeds(row: TableRow)
    requires row.needs == []
    ensures Supported(row)
  {
  }

  lemma OneNeed(row: TableRow, t: string, u: string, j: nat)
    requires row.t == t && row.needs == [u] && j < |TABLE| && TABLE[j].t == u && Depth(u) < Depth(t)
    ensures Supported(row)
  {
    hide Depth, HasType;
    TypeAt(j);
  }

  lemma Depths0()
    ensures Depth("PRD") == 0 && Depth("ACF") == 1 && Depth("SAD") == 1
  {
  }

  lemma Depths1()
    ensures Depth("TDD") == 2 && Depth("WDD") == 3 && Depth("ORD") == 4
  {
  }

  lemma Depths2()
    ensures Depth("QAER") == 5 && Depth("VP") == 6 && Depth("TCR") == 7
  {
  }

  lemma Depths3()
    ensures Depth("QGR") == 8 && Depth("RER") == 5 && Depth("RCF") == 6
  {
  }

  lemma Depths4()
    ensures Depth("RP") == 7 && Depth("RR") == 8 && Depth("RHR") == 9
  {
  }

  lemma Depths5()
    ensures Depth("SDR") == 1 && Depth("DPRD") == 0 && Depth("SOER") == 1
  {
  }

  lemma Depths6()
    ensures Depth("VER") == 2 && Depth("TM") == 2 && Depth("SAR") == 3
  {
  }

  lemma Depths7()
    ensures Depth("DAR") == 3 && Depth("CSPEC") == 3 && Depth("DSR") == 3
  {
  }

  lemma Depths8()
    ensures Depth("ARR") == 3
  {
  }

  lemma Rows0()
    ensures |TABLE| == 33 && Supported(TABLE[0]) && Supported(TABLE[1]) && Supported(TABLE[2])
  {
    hide Depth, Supported, HasType;
    Depths0();
    NoNeeds(TABLE[0]);
    OneNeed(TABLE[1], "ACF", "PRD", 0);
    OneNeed(TABLE[2], "SAD", "PRD", 0);
  }

  lemma Rows1()
    ensures |TABLE| == 33 && Supported(TABLE[3])
  {
    hide Depth, Supported, HasType;
    Depths0();
    Depths1();
    TypeAt(1);
    TypeAt(2);
    TwoNeeds(TABLE[3]);
  }

  lemma Rows2()
    ensures |TABLE| == 33 && Supported(TABLE[4]) && Supported(TABLE[5])
  {
    hide Depth, Supported, HasType;
    Depths1();
    OneNeed(TABLE[4], "WDD", "TDD", 3);
    OneNeed(TABLE[5], "ORD", "WDD", 4);
  }

  lemma Rows3()
    ensures |TABLE| == 33 && Supported(TABLE[6]) && Supported(TABLE[7]) && Supported(TABLE[8])
  {
    hide Depth, Supported, HasType;
    Depths1();
    Depths2();
    OneNeed(TABLE[6], "QAER", "ORD", 5);
    OneNeed(TABLE[7], "VP", "QAER", 6);
    OneNeed(TABLE[8], "TCR", "VP", 7);
  }

  lemma Rows4()
    ensures |TABLE| == 33 && Supported(TABLE[9]) && Supported(TABLE[10]) && Supported(TABLE[11])
  {
    hide Depth, Supported, HasType;
    Depths1();
    Depths2();
    Depths3();
    OneNeed(TABLE[9], "QGR", "TCR", 8);
    OneNeed(TABLE[10], "RER", "ORD", 5);
    OneNeed(TABLE[11], "RCF", "RER", 10);
  }

  lemma Rows5()
    ensures |TABLE| == 33 && Supported(TABLE[12]) && Supported(TABLE[13]) && Supported(TABLE[14])
  {
    hide Depth, Supported, HasType;
    Depths3();
    Depths4();
    OneNeed(TABLE[12], "RP", "RCF", 11);
    OneNeed(TABLE[13], "RR", "RP", 12);
    OneNeed(TABLE[14], "RHR", "RR", 13);
  }

  lemma Rows6()
    ensures |TABLE| == 33 && Supported(TABLE[15]) && Supported(TABLE[16]) && Supported(TABLE[17])
  {
    hide Depth, Supported, HasType;
    Depths5();
    OneNeed(TABLE[15], "SDR", "DPRD", 16);
    NoNeeds(TABLE[16]);
    OneNeed(TABLE[17], "SOER", "DPRD", 16);
  }

  lemma Rows7()
    ensures |TABLE| == 33 && Supported(TABLE[18]) && Supported(TABLE[19]) && Supported(TABLE[20])
  {
    hide Depth, Supported, HasType;
    Depths0();
    Depths1();
    Depths5();
    Depths6();
    OneNeed(TABLE[18], "VER", "SOER", 17);
    OneNeed(TABLE[19], "TM", "SAD", 2);
    OneNeed(TABLE[20], "SAR", "TDD", 3);
  }

  lemma Rows8()
    ensures |TABLE| == 33 && Supported(TABLE[21]) && Supported(TABLE[22]) && Supported(TABLE[23])
  {
    hide Depth, Supported, HasType;
    Depths1();
    Depths7();
    OneNeed(TABLE[21], "DAR", "TDD", 3);
    NoNeeds(TABLE[22]);
    OneNeed(TABLE[23], "CSPEC", "TDD", 3);
  }

  lemma Rows9()
    ensures |TABLE| == 33 && Supported(TABLE[24]) && Supported(TABLE[25]) && Supported(TABLE[26])
  {
    hide Depth, Supported, HasType;
    Depths1();
    Depths7();
    NoNeeds(TABLE[24]);
    OneNeed(TABLE[25], "DSR", "TDD", 3);
    NoNeeds(TABLE[26]);
  }

  lemma Rows10()
    ensures |TABLE| == 33 && Supported(TABLE[27]) && Supported(TABLE[28]) && Supported(TABLE[29])
  {
    hide Depth, Supported, HasType;
    NoNeeds(TABLE[27]);
    NoNeeds(TABLE[28]);
    NoNeeds(TABLE[29]);
  }

  lemma Rows11()
    ensures |TABLE| == 33 && Supported(TABLE[30]) && Supported(TABLE[31]) && Supported(TABLE[32])
  {
    hide Depth, Supported, HasType;
    Depths1();
    Depths8();
    OneNeed(TABLE[30], "ARR", "TDD", 3);
    NoNeeds(TABLE[31]);
    NoNeeds(TABLE[32]);
  }

  lemma TwoNeeds(row: TableRow)
    requires row == TableRow("TDD", ["ACF", "SAD"]) && HasType("ACF") && HasType("SAD")
    ensures Supported(row)
  {
    hide HasType;
  }

  lemma AllSupported()
    ensures forall i :: 0 <= i < |TABLE| ==> Supported(TABLE[i])
  {
    hide Supported, Depth;
    Rows0(); Rows1(); Rows2(); Rows3(); Rows4(); Rows5(); Rows6(); Rows7(); Rows8(); Rows9(); Rows10(); Rows11();
  }

  /** The table is closed and acyclic: ranks by depth fall along every dependency. */
  lemma TableIsRanked(S: Setup)
    requires S.deps == Upstream()
    ensures Ranked(S, map t | t in S.deps :: Depth(t))
  {
    hide Depth;
    AllSupported();
    NeedsAre(TABLE);
    var rank := map t | t in S.deps :: Depth(t);
    forall t | t in S.deps ensures t in rank && forall u :: u in S.deps[t] ==> u in S.deps && u in rank && rank[u] < rank[t] {
      assert Listed(TABLE, t, S.deps[t]);
      var i :| 0 <= i < |TABLE| && TABLE[i] == TableRow(t, S.deps[t]);
      assert Supported(TABLE[i]);
    }
  }

  /** So some run freezes all the types of `UPSTREAM_DEPENDENCIES`. */
  lemma EveryListedTypeCanFreeze(S: Setup, w: World) returns (steps: seq<Step>)
    requires S.deps == Upstream() && Fresh(w) && forall t :: t in S.deps ==> GoodType(S, t)
    ensures GoodRun(S, steps) && Unmarked(steps)
    ensures forall t :: t in S.deps ==> FrozenNow(Execute(S, w, steps).docs, t)
  {
    hide GoodType, GoodStep, Execute, FrozenNow, Depth, NeedsOf;
    TableIsRanked(S);
    steps := EveryTypeCanFreeze(S, map t | t in S.deps :: Depth(t), w);
  }
}
