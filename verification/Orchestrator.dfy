/** The scheduler: groups in order, items in phase barriers or independently, every event
    recorded in the ledger as it happens, completions in any order. */
module Orchestrator {
  import opened Text
  import opened LedgerText
  import opened LedgerRoundTrip
  import opened LedgerRecords
  import opened Scheduler
  import opened SchedulerSteps

  /** Recording only looks at what the bare row shows. */
  lemma BareUpdate(m: map<Key, ItemPhaseStatus>, k: Key, r: ItemPhaseStatus)
    ensures Bare(m[k := r]) == Bare(m)[k := NormPhase(r)]
  {
  }

  lemma CompletedBare(m: map<Key, ItemPhaseStatus>, k: Key, o: string, v: string, n: int, now: Option<string>)
    ensures NormPhase(CompletedRow(Lookup(m, k), k, o, v, n, now)) == NormPhase(CompletedRow(Lookup(Bare(m), k), k, o, v, n, None))
  {
  }

  lemma FailedBare(m: map<Key, ItemPhaseStatus>, k: Key, e: string, now: Option<string>)
    ensures NormPhase(FailedRow(Lookup(m, k), k, e, now)) == NormPhase(FailedRow(Lookup(Bare(m), k), k, e, None))
  {
  }

  lemma PassedBare(m: map<Key, ItemPhaseStatus>, k: Key)
    ensures Passed(m, k) <==> HasPassed(Lookup(Bare(m), k))
  {
  }

  /** Every state written since the group began is one the group's run may pass through. */
  ghost predicate History(mode: string, b: map<Key, ItemPhaseStatus>, written: seq<Ledger>, seen: seq<Ledger>, items: seq<Item>, A: Agents) {
    seen <= written && forall n :: |seen| <= n < |written| ==> MidGroup(mode, b, Bare(written[n].phases), items, A)
  }

  lemma HistoryGrows(mode: string, b: map<Key, ItemPhaseStatus>, written: seq<Ledger>, seen: seq<Ledger>, L: Ledger, items: seq<Item>, A: Agents)
    requires History(mode, b, written, seen, items, A) && MidGroup(mode, b, Bare(L.phases), items, A)
    ensures History(mode, b, written + [L], seen, items, A)
  {
  }

  /** The items of a synchronised phase that need a call. */
  function FuturesOf(b: map<Key, ItemPhaseStatus>, items: seq<Item>, p: nat): set<Item>
    requires p < 4
  {
    set i | i in items && !i.human && !HasPassed(Lookup(b, ItemKey(i, p)))
  }

  function SkippedOf(b: map<Key, ItemPhaseStatus>, items: seq<Item>, p: nat): set<Item>
    requires p < 4
  {
    set i | i in items && !i.human && HasPassed(Lookup(b, ItemKey(i, p)))
  }

  function Keys(futures: set<Item>, p: nat): set<Key>
    requires p < 4
  {
    set i | i in futures :: ItemKey(i, p)
  }

  lemma Seen(b: map<Key, ItemPhaseStatus>, items: seq<Item>, i: nat, p: nat)
    requires DistinctIds(items) && i < |items| && p < 4
    ensures var it := items[i]; var passed := HasPassed(Lookup(b, ItemKey(it, p))); var front := items[..i];
            && it !in FuturesOf(b, front, p) && it !in SkippedOf(b, front, p) && it !in HumanItems(front)
            && FuturesOf(b, items[..i + 1], p) == FuturesOf(b, front, p) + (if it.human || passed then {} else {it})
            && SkippedOf(b, items[..i + 1], p) == SkippedOf(b, front, p) + (if !it.human && passed then {it} else {})
            && HumanItems(items[..i + 1]) == HumanItems(front) + (if it.human then {it} else {})
  {
    assert items[..i + 1] == items[..i] + [items[i]];
    assert forall x :: x in items[..i] ==> x.id != items[i].id;
  }

  /** In a synchronised phase the row of an item not yet seen is still what it was before the group. */
  lemma Unseen(b: map<Key, ItemPhaseStatus>, cur: map<Key, ItemPhaseStatus>, items: seq<Item>, p: nat, n: nat, futures: set<Item>, A: Agents)
    requires DistinctIds(items) && n < |items| && p < 4 && SyncState(b, cur, items, p, n, futures, A)
    ensures Lookup(cur, ItemKey(items[n], p)) == Lookup(b, ItemKey(items[n], p))
    ensures IndexOf(items, items[n].id) == n && PhaseNo(PHASES[p]) == p
  {
    var k := ItemKey(items[n], p);
    KeyIs(items, n, p, k);
    assert Lookup(cur, k) == SyncRow(Lookup(b, k), items, p, n, futures, k, A);
  }

  lemma HumanRow(mode: string, before: Option<ItemPhaseStatus>, items: seq<Item>, n: nat, p: nat, A: Agents)
    requires DistinctIds(items) && n < |items| && p < 4 && items[n].human
    ensures var k := ItemKey(items[n], p);
            && IndexOf(items, k.item) == n && Runs(mode, before, items[n], k, A)
            && FinalRow(mode, before, items[n], k, A) == Some(ResultRow(items[n], k, A))
            && GroupRow(mode, before, items, k, A) == Some(ResultRow(items[n], k, A))
            && ResultRow(items[n], k, A)
               == NormPhase(CompletedRow(Some(InFlight(items[n], k, A)), k, "pending-human", "PENDING", 0, None))
  {
    KeyIs(items, n, p, ItemKey(items[n], p));
  }

  function AiItems(items: seq<Item>): seq<Item> {
    if items == [] then [] else (if items[0].human then [] else [items[0]]) + AiItems(items[1..])
  }

  lemma {:induction false} AiCount(items: seq<Item>)
    requires DistinctIds(items)
    ensures |AiItems(items)| == |items| - |HumanItems(items)|
  {
    if items != [] {
      hide HumanItems;
      AiCount(items[1..]);
      HumansTail(items);
    }
  }

  lemma HumansTail(items: seq<Item>)
    requires DistinctIds(items) && items != []
    ensures |HumanItems(items)| == |HumanItems(items[1..])| + (if items[0].human then 1 else 0)
  {
    var rest := items[1..];
    assert forall x :: x in rest ==> x != items[0];
    assert items == [items[0]] + rest;
    assert HumanItems(items) == HumanItems(rest) + (if items[0].human then {items[0]} else {});
  }

  /** Every state written since `seen` is keyed and has these gates. */
  ghost predicate SameGates(written: seq<Ledger>, seen: seq<Ledger>, gates: map<string, GroupGateResult>) {
    forall n :: |seen| <= n < |written| ==> written[n].Keyed() && written[n].gates == gates
  }

  lemma SameGatesGrow(written: seq<Ledger>, seen: seq<Ledger>, L: Ledger)
    requires SameGates(written, seen, L.gates) && L.Keyed()
    ensures SameGates(written + [L], seen, L.gates)
  {
    hide Ledger.Keyed;
  }

  /** `ExecutionGroup`; only the mode is ever reassigned. */
  class ExecutionGroup {
    const name: string
    const items: seq<Item>
    var mode: string

    constructor (name: string, items: seq<Item>, mode: string)
      ensures this.name == name && this.items == items && this.mode == mode
    {
      this.name, this.items, this.mode := name, items, mode;
    }

    function Value(): Group
      reads this
    {
      Group(name, items, mode)
    }
  }

  function Values(groups: seq<ExecutionGroup>): (plan: seq<Group>)
    reads groups
    ensures |plan| == |groups| && forall i :: 0 <= i < |groups| ==> plan[i] == groups[i].Value()
  {
    if groups == [] then [] else [groups[0].Value()] + Values(groups[1..])
  }

  class Orchestrator {
    const ledger: ExecutionLedger
    const agents: Agents

    constructor (ledger: ExecutionLedger, agents: Agents)
      ensures this.ledger == ledger && this.agents == agents
    {
      this.ledger, this.agents := ledger, agents;
    }

    /** `datetime.now(timezone.utc).isoformat()` */
    method Now() returns (s: string)
      ensures IsoStamp(s)
    {
      assert IsoStamp("");
      s :| IsoStamp(s);
    }

    /** `_execute_item_phase`: the adapters' answer. */
    method ExecuteItemPhase(k: Key) returns (r: Outcome)
      ensures r == agents.outcome(k)
    {
      r := agents.outcome(k);
    }

    /** One record call: one row changes, one state is written. */
    twostate predicate Recorded(k: Key, row: ItemPhaseStatus)
      reads ledger
    {
      && ledger.Valid() && ledger.gates == old(ledger.gates)
      && Bare(ledger.phases) == Bare(old(ledger.phases))[k := row]
      && ledger.written == old(ledger.written) + [ledger.State()]
      && exists now :: IsoStamp(now) && ledger.disk == Some(Save(ledger.State(), now))
    }

    method RecordStart(item: Item, k: Key)
      requires ledger.Valid()
      modifies ledger
      ensures Recorded(k, InFlight(item, k, agents))
    {
      hide Save;
      var now := Now();
      ledger.RecordPhaseStart(k, AgentOf(item, agents), now);
      BareUpdate(old(ledger.phases), k, StartedRow(k, AgentOf(item, agents), Some(now)));
    }

    method RecordComplete(k: Key, output: string, validation: string, iterations: int)
      requires ledger.Valid()
      modifies ledger
      ensures Recorded(k, NormPhase(CompletedRow(Lookup(Bare(old(ledger.phases)), k), k, output, validation, iterations, None)))
    {
      hide Save;
      var now := Now();
      ledger.RecordPhaseComplete(k, output, validation, iterations, now);
      BareUpdate(old(ledger.phases), k, CompletedRow(Lookup(old(ledger.phases), k), k, output, validation, iterations, Some(now)));
      CompletedBare(old(ledger.phases), k, output, validation, iterations, Some(now));
    }

    method RecordFailed(k: Key, error: string)
      requires ledger.Valid()
      modifies ledger
      ensures Recorded(k, NormPhase(FailedRow(Lookup(Bare(old(ledger.phases)), k), k, error, None)))
    {
      hide Save;
      var now := Now();
      ledger.RecordPhaseFailed(k, error, now);
      BareUpdate(old(ledger.phases), k, FailedRow(Lookup(old(ledger.phases), k), k, error, Some(now)));
      FailedBare(old(ledger.phases), k, error, Some(now));
    }

    /** The ledger is in, and has only been written in, states that the group's run passes through. */
    ghost predicate Running(mode: string, b: map<Key, ItemPhaseStatus>, items: seq<Item>, seen: seq<Ledger>)
      reads ledger
    {
      && ledger.Valid()
      && MidGroup(mode, b, Bare(ledger.phases), items, agents)
      && History(mode, b, ledger.written, seen, items, agents)
      && SameGates(ledger.written, seen, ledger.gates)
    }

    /** Starts a call that the group's run must make. */
    method StartCall(mode: string, items: seq<Item>, n: nat, k: Key, ghost b: map<Key, ItemPhaseStatus>, ghost seen: seq<Ledger>)
      requires Running(mode, b, items, seen)
      requires n < |items| && IndexOf(items, k.item) == n && Runs(mode, Lookup(b, k), items[n], k, agents)
      modifies ledger
      ensures Running(mode, b, items, seen) && ledger.gates == old(ledger.gates)
      ensures Bare(ledger.phases) == Bare(old(ledger.phases))[k := InFlight(items[n], k, agents)]
    {
      hide MidGroup, History, SameGates, GroupRow, Runs, Save, NormPhase, IndexOf;
      ghost var cur, written := Bare(ledger.phases), ledger.written;
      RecordStart(items[n], k);
      MidInFlight(mode, b, cur, items, n, k, agents);
      HistoryGrows(mode, b, written, seen, ledger.State(), items, agents);
      SameGatesGrow(written, seen, ledger.State());
    }

    lemma RunningStart(mode: string, b: map<Key, ItemPhaseStatus>, items: seq<Item>)
      requires ledger.Valid() && b == Bare(ledger.phases)
      ensures Running(mode, b, items, ledger.written)
    {
      MidStart(mode, b, items, agents);
    }

    /** A human's phase: started, then passed as pending. */
    method RecordHuman(mode: string, items: seq<Item>, n: nat, p: nat, ghost b: map<Key, ItemPhaseStatus>, ghost seen: seq<Ledger>)
      requires Running(mode, b, items, seen) && DistinctIds(items) && n < |items| && p < 4 && items[n].human
      modifies ledger
      ensures Running(mode, b, items, seen) && ledger.gates == old(ledger.gates)
      ensures var k := ItemKey(items[n], p);
              Bare(ledger.phases) == Bare(old(ledger.phases))[k := ResultRow(items[n], k, agents)]
    {
      hide MidGroup, History, SameGates, GroupRow, FinalRow, Runs, ResultRow, Save, NormPhase, CompletedRow, IndexOf, DistinctIds, InFlight, Bare;
      var k := ItemKey(items[n], p);
      HumanRow(mode, Lookup(b, k), items, n, p, agents);
      StartCall(mode, items, n, k, b, seen);
      ghost var cur, written := Bare(ledger.phases), ledger.written;
      RecordComplete(k, "pending-human", "PENDING", 0);
      MidFinal(mode, b, cur, items, k, ResultRow(items[n], k, agents), agents);
      HistoryGrows(mode, b, written, seen, ledger.State(), items, agents);
      SameGatesGrow(written, seen, ledger.State());
      assert Bare(ledger.phases) == Bare(old(ledger.phases))[k := ResultRow(items[n], k, agents)];
    }

    /** Records the outcome of a call in flight, success or exception. */
    method SettleCall(ghost mode: string, ghost items: seq<Item>, ghost n: nat, k: Key, r: Outcome, ghost b: map<Key, ItemPhaseStatus>, ghost seen: seq<Ledger>)
      requires Running(mode, b, items, seen)
      requires n < |items| && IndexOf(items, k.item) == n && !items[n].human && r == agents.outcome(k)
      requires Lookup(Bare(ledger.phases), k) == Some(InFlight(items[n], k, agents))
      requires GroupRow(mode, Lookup(b, k), items, k, agents) == Some(ResultRow(items[n], k, agents))
      modifies ledger
      ensures Running(mode, b, items, seen) && ledger.gates == old(ledger.gates)
      ensures Bare(ledger.phases) == Bare(old(ledger.phases))[k := ResultRow(items[n], k, agents)]
    {
      hide MidGroup, History, SameGates, GroupRow, Save, NormPhase, IndexOf, CompletedRow, FailedRow;
      ghost var cur, written := Bare(ledger.phases), ledger.written;
      match r {
        case Done(output, validation, iterations) => RecordComplete(k, output, validation, iterations);
        case Raised(error) => RecordFailed(k, error);
      }
      MidFinal(mode, b, cur, items, k, ResultRow(items[n], k, agents), agents);
      HistoryGrows(mode, b, written, seen, ledger.State(), items, agents);
      SameGatesGrow(written, seen, ledger.State());
    }

    /** The submission loop of one synchronised phase. */
    method SubmitPhase(items: seq<Item>, p: nat, ghost b: map<Key, ItemPhaseStatus>, ghost seen: seq<Ledger>, ghost ev0: seq<Event>)
      returns (futures: set<Item>, skipped: nat, human: nat, ghost ev: seq<Event>)
      requires Running("phase_sync", b, items, seen) && DistinctIds(items) && p < 4
      requires SyncState(b, Bare(ledger.phases), items, p, 0, {}, agents)
      requires Orderly("phase_sync", ev0) && Flying(ev0) == {} && InOrder("phase_sync", ev0) && Earlier(ev0, p)
      modifies ledger
      ensures Running("phase_sync", b, items, seen) && ledger.gates == old(ledger.gates)
      ensures SyncState(b, Bare(ledger.phases), items, p, |items|, futures, agents)
      ensures futures == FuturesOf(b, items, p)
      ensures skipped == if p == 3 then |SkippedOf(b, items, 3)| else 0
      ensures human == if p == 0 then |HumanItems(items)| else 0
      ensures Called(ev0, ev, futures, futures, p)
    {
      hide Running, GroupRow, FinalRow, Runs, ResultRow, Save, SyncState, Called, NormPhase, HasPassed, InFlight, IndexOf,
           FuturesOf, SkippedOf, HumanItems, Lookup, Bare, Passed, DistinctIds, InOrder, Earlier;
      futures, skipped, human, ev := {}, 0, 0, ev0;
      NothingCalled(ev0, p);
      NothingSeen(b, items, p);
      PhaseNumbers();
      for i := 0 to |items|
        invariant Running("phase_sync", b, items, seen) && ledger.gates == old(ledger.gates)
        invariant SyncState(b, Bare(ledger.phases), items, p, i, futures, agents)
        invariant futures == FuturesOf(b, items[..i], p)
        invariant skipped == if p == 3 then |SkippedOf(b, items[..i], 3)| else 0
        invariant human == if p == 0 then |HumanItems(items[..i])| else 0
        invariant Called(ev0, ev, futures, futures, p)
      {
        var item, k := items[i], ItemKey(items[i], p);
        ghost var cur := Bare(ledger.phases);
        Seen(b, items, i, p);
        Unseen(b, cur, items, p, i, futures, agents);
        if item.human {
          if PHASES[p] == "tests" {
            human := human + 1;
          }
          RecordHuman("phase_sync", items, i, p, b, seen);
          SyncHuman(b, cur, items, p, i, futures, agents);
          continue;
        }
        PassedBare(ledger.phases, k);
        if ledger.IsItemPhaseComplete(item.id, PHASES[p]) {
          if PHASES[p] == "review" {
            skipped := skipped + 1;
          }
          SyncSkipped(b, cur, items, p, i, futures, agents);
          continue;
        }
        SubmitRow(b, items, i, p, agents);
        StartCall("phase_sync", items, i, k, b, seen);
        FrontFutures(b, items, i, p);
        SyncSubmitted(b, cur, items, p, i, futures, agents);
        OneMoreCall(items, i, futures, p, ev0, ev);
        ev := ev + [Submit(k)];
        futures := futures + {item};
      }
      assert items[..|items|] == items;
    }

    /** The collection loop of one synchronised phase: futures complete in any order. */
    method CollectPhase(items: seq<Item>, p: nat, futures: set<Item>, ghost b: map<Key, ItemPhaseStatus>, ghost seen: seq<Ledger>,
                        ghost ev0: seq<Event>, ghost ev1: seq<Event>)
      returns (completed: nat, failed: nat, ghost ev: seq<Event>)
      requires Running("phase_sync", b, items, seen) && DistinctIds(items) && p < 4
      requires futures == FuturesOf(b, items, p) && SyncState(b, Bare(ledger.phases), items, p, |items|, futures, agents)
      requires Called(ev0, ev1, futures, futures, p)
      modifies ledger
      ensures Running("phase_sync", b, items, seen) && ledger.gates == old(ledger.gates)
      ensures SyncState(b, Bare(ledger.phases), items, p, |items|, {}, agents)
      ensures completed == if p == 3 then |DoneOf(futures, p, agents)| else 0
      ensures failed == if p == 3 then |RaisedOf(futures, p, agents)| else 0
      ensures Called(ev0, ev, futures, {}, p)
    {
      hide Running, GroupRow, FinalRow, Runs, ResultRow, Save, SyncState, Called, NormPhase, HasPassed, InFlight, IndexOf,
           FuturesOf, DoneOf, RaisedOf, Lookup, Bare, Passed, DistinctIds;
      completed, failed, ev := 0, 0, ev1;
      PhaseNumbers();
      NothingSettled(futures, p, agents);
      var left := futures;
      while left != {}
        invariant left <= futures
        invariant Running("phase_sync", b, items, seen) && ledger.gates == old(ledger.gates)
        invariant SyncState(b, Bare(ledger.phases), items, p, |items|, left, agents)
        invariant completed == if p == 3 then |DoneOf(futures - left, p, agents)| else 0
        invariant failed == if p == 3 then |RaisedOf(futures - left, p, agents)| else 0
        invariant Called(ev0, ev, futures, left, p)
        decreases |left|
      {
        var item :| item in left;
        var k := ItemKey(item, p);
        var result := ExecuteItemPhase(k);
        ghost var j := FutureIndex(b, items, p, item);
        ghost var cur := Bare(ledger.phases);
        Awaited(b, cur, items, p, j, left, agents);
        OneMoreSettled(futures, left, item, p, agents);
        SettleCall("phase_sync", items, j, k, result, b, seen);
        SyncSettled(b, cur, items, p, j, left, agents);
        if PHASES[p] == "review" {
          if result.Done? {
            completed := completed + 1;
          } else {
            failed := failed + 1;
          }
        }
        FromItems(b, items, p);
        CallSettled(items, futures, left, item, p, ev0, ev);
        ev := ev + [Settle(k)];
        left := left - {item};
      }
      assert futures - {} == futures;
    }

    /** `_execute_group_phase_sync`: every item finishes a phase before any item starts the next. */
    method ExecuteGroupPhaseSync(items: seq<Item>) returns (completed: nat, failed: nat, human: nat, ghost ev: seq<Event>)
      requires ledger.Valid() && DistinctIds(items)
      modifies ledger
      ensures Running("phase_sync", Bare(old(ledger.phases)), items, old(ledger.written)) && ledger.gates == old(ledger.gates)
      ensures GroupRan("phase_sync", Bare(old(ledger.phases)), Bare(ledger.phases), items, completed, failed, human, ev, agents)
    {
      hide GroupRow, FinalRow, Runs, ResultRow, Save, SyncState, Called, NormPhase, HasPassed, InFlight, IndexOf,
           FuturesOf, DoneOf, RaisedOf, SkippedOf, HumanItems, CompletedItems, FailedItems, Lookup, Bare, Passed, DistinctIds,
           AfterGroup, GroupCalls, CallsUpTo, MidGroup, InOrder, Earlier;
      ghost var b, seen := Bare(ledger.phases), ledger.written;
      completed, failed, human, ev := 0, 0, 0, [];
      SyncStart(b, items, agents);
      MidStart("phase_sync", b, items, agents);
      NoCallsYet(b, items);
      for p := 0 to |PHASES|
        invariant Running("phase_sync", b, items, seen) && ledger.gates == old(ledger.gates)
        invariant SyncState(b, Bare(ledger.phases), items, p, 0, {}, agents)
        invariant human == if p > 0 then |HumanItems(items)| else 0
        invariant completed == if p > 3 then |SkippedOf(b, items, 3)| + |DoneOf(FuturesOf(b, items, 3), 3, agents)| else 0
        invariant failed == if p > 3 then |RaisedOf(FuturesOf(b, items, 3), 3, agents)| else 0
        invariant Orderly("phase_sync", ev) && Flying(ev) == {} && InOrder("phase_sync", ev)
        invariant Submitted(ev) == multiset(CallsUpTo(b, items, p))
      {
        ghost var ev0 := ev;
        CallsEarlier(b, items, p, ev);
        var futures, skipped, humans;
        futures, skipped, humans, ev := SubmitPhase(items, p, b, seen, ev);
        var done, raised;
        done, raised, ev := CollectPhase(items, p, futures, b, seen, ev0, ev);
        completed, failed, human := completed + skipped + done, failed + raised, human + humans;
        SyncNextPhase(b, Bare(ledger.phases), items, p, agents);
        CallsGrow(b, items, p);
        AllSettled(ev0, ev, futures, p);
      }
      SyncDone(b, Bare(ledger.phases), items, agents);
      AllCalls(b, items, agents);
      ReviewCounts(b, items, agents);
    }

    /** One recorded event of one item in independent mode: a start, a completion, or an exception,
        which is not recorded. */
    method Advance(items: seq<Item>, j: nat, step: seq<nat>, ghost active: set<nat>, ghost b: map<Key, ItemPhaseStatus>,
                   ghost seen: seq<Ledger>, ghost ev: seq<Event>)
      returns (stopped: bool, next: seq<nat>, ghost ev1: seq<Event>)
      requires Running("independent", b, items, seen) && DistinctIds(items) && j < |items| == |step|
      requires Positions(items, step, active, agents) && j in active && IndState(b, Bare(ledger.phases), items, step, agents)
      requires (forall i :: i in active ==> i < |items|) && Traced(items, step, active, ev)
      modifies ledger
      ensures Running("independent", b, items, seen) && ledger.gates == old(ledger.gates)
      ensures |next| == |items| && (forall i :: 0 <= i < |items| && i != j ==> next[i] == step[i])
      ensures next[j] == step[j] + 1 || (next[j] == step[j] && stopped)
      ensures Positions(items, next, if stopped then active - {j} else active, agents)
      ensures IndState(b, Bare(ledger.phases), items, next, agents)
      ensures Traced(items, next, if stopped then active - {j} else active, ev1)
    {
      hide Running, GroupRow, ResultRow, FinalRow, Runs, Save, IndState, NormPhase, InFlight, IndexOf, Bare, DistinctIds, Traced, CallsOf, FlyingOf,
           Positions, Position;
      var item, p := items[j], step[j] / 2;
      ghost var cur := Bare(ledger.phases);
      Moves(items, step, active, j, agents);
      var k := ItemKey(item, p);
      DueRow(b, cur, items, step, active, j, agents);
      if step[j] % 2 == 0 {
        StartCall("independent", items, j, k, b, seen);
        IndStarted(b, cur, items, step, j, p, agents);
        stopped, next := false, step[j := step[j] + 1];
        TraceStarts(items, step, active, j, p, ev);
        ev1 := if item.human then ev else ev + [Submit(k)];
      } else if item.human {
        RecordHumanDone(items, j, p, k, b, seen);
        IndFinished(b, cur, items, step, j, p, agents);
        stopped, next := step[j] == 7, step[j := step[j] + 1];
        TraceHuman(items, step, active, j, ev);
        ev1 := ev;
      } else {
        var result := ExecuteItemPhase(k);
        ev1 := ev + [Settle(k)];
        TraceEnds(items, step, active, j, p, ev);
        if result.Done? {
          SettleCall("independent", items, j, k, result, b, seen);
          IndFinished(b, cur, items, step, j, p, agents);
          stopped, next := step[j] == 7, step[j := step[j] + 1];
        } else {
          stopped, next := true, step;
        }
      }
    }

    method RecordHumanDone(ghost items: seq<Item>, ghost j: nat, ghost p: nat, k: Key, ghost b: map<Key, ItemPhaseStatus>, ghost seen: seq<Ledger>)
      requires Running("independent", b, items, seen) && DistinctIds(items) && j < |items| && p < 4 && items[j].human
      requires k == ItemKey(items[j], p) && Lookup(Bare(ledger.phases), k) == Some(InFlight(items[j], k, agents))
      modifies ledger
      ensures Running("independent", b, items, seen) && ledger.gates == old(ledger.gates)
      ensures Bare(ledger.phases) == Bare(old(ledger.phases))[k := ResultRow(items[j], k, agents)]
    {
      hide MidGroup, History, SameGates, GroupRow, FinalRow, Runs, ResultRow, Save, NormPhase, CompletedRow, IndexOf, DistinctIds, InFlight, Bare;
      HumanRow("independent", Lookup(b, k), items, j, p, agents);
      ghost var cur, written := Bare(ledger.phases), ledger.written;
      RecordComplete(k, "pending-human", "PENDING", 0);
      MidFinal("independent", b, cur, items, k, ResultRow(items[j], k, agents), agents);
      HistoryGrows("independent", b, written, seen, ledger.State(), items, agents);
      SameGatesGrow(written, seen, ledger.State());
    }

    /** `_execute_group_independent`: every item runs its phases on its own; the pool may interleave
        their events in any way. */
    method ExecuteGroupIndependent(items: seq<Item>) returns (completed: nat, failed: nat, human: nat, ghost ev: seq<Event>)
      requires ledger.Valid() && DistinctIds(items)
      modifies ledger
      ensures Running("independent", Bare(old(ledger.phases)), items, old(ledger.written)) && ledger.gates == old(ledger.gates)
      ensures GroupRan("independent", Bare(old(ledger.phases)), Bare(ledger.phases), items, completed, failed, human, ev, agents)
    {
      hide GroupRow, ResultRow, FinalRow, Runs, Save, IndState, NormPhase, InFlight, IndexOf, Bare, DistinctIds, Traced, CallsOf, FlyingOf,
           Positions, Position, MidGroup, AfterGroup, GroupCalls, CompletedItems, FailedItems, HumanItems, Counted,
           Orderly, InOrder, Flying, Submitted, Left, Below, Running;
      ghost var b, seen := Bare(ledger.phases), ledger.written;
      RunningStart("independent", b, items);
      IndStarts(b, items, agents);
      NothingTraced(items);
      NothingStopped(items);
      completed, failed, human, ev := 0, 0, 0, [];
      var step: seq<nat> := seq(|items|, _ => 0);
      var active: set<nat> := Below(|items|);
      while active != {}
        invariant |step| == |items| && (forall i :: i in active ==> i < |items|)
        invariant Running("independent", b, items, seen) && ledger.gates == old(ledger.gates)
        invariant Positions(items, step, active, agents) && IndState(b, Bare(ledger.phases), items, step, agents)
        invariant Traced(items, step, active, ev)
        invariant Counted(items, step, active, completed, failed, human)
        decreases |active|, Left(step)
      {
        var j: nat :| j in active;
        var stopped, next;
        stopped, next, ev := Advance(items, j, step, active, b, seen, ev);
        StopsGrow(items, step, active, next, j, stopped, completed, failed, human);
        if stopped {
          if items[j].human {
            human := human + 1;
          } else if next[j] == 8 {
            completed := completed + 1;
          } else {
            failed := failed + 1;
          }
          active := active - {j};
        } else {
          LeftShrinks(items, step, next, j, active, agents);
        }
        step := next;
      }
      IndDone(b, Bare(ledger.phases), items, step, agents);
      AllStopped(b, items, step, agents, completed, failed, human);
      AllTraced(b, items, step, agents, ev);
    }

    /** `_check_file_overlap` */
    method CheckFileOverlap(items: seq<Item>) returns (overlaps: seq<(string, string, set<string>)>)
      ensures overlaps == [] <==> PairwiseDisjoint(items)
      ensures forall i, j :: 0 <= i < j < |items| && Overlap(items[i], items[j]) != {} ==> Report(items, i, j) in overlaps
      ensures forall o :: o in overlaps ==> exists i, j :: 0 <= i < j < |items| && Overlap(items[i], items[j]) != {} && o == Report(items, i, j)
    {
      hide Overlap;
      overlaps := [];
      for i := 0 to |items|
        invariant forall m, n :: 0 <= m < n < |items| && m < i && Overlap(items[m], items[n]) != {} ==> Report(items, m, n) in overlaps
        invariant forall o :: o in overlaps ==> exists m, n :: 0 <= m < n < |items| && Overlap(items[m], items[n]) != {} && o == Report(items, m, n)
      {
        for j := i + 1 to |items|
          invariant forall m, n :: 0 <= m < n < |items| && (m < i || (m == i && n < j)) && Overlap(items[m], items[n]) != {} ==>
                      Report(items, m, n) in overlaps
          invariant forall o :: o in overlaps ==> exists m, n :: 0 <= m < n < |items| && Overlap(items[m], items[n]) != {} && o == Report(items, m, n)
        {
          var shared := Overlap(items[i], items[j]);
          if shared != {} {
            overlaps := overlaps + [(items[i].id, items[j].id, shared)];
          }
        }
      }
      if overlaps != [] { assert overlaps[0] in overlaps; }
    }

    method ExecuteGroup(items: seq<Item>, mode: string) returns (completed: nat, failed: nat, human: nat, ghost ev: seq<Event>)
      requires ledger.Valid() && DistinctIds(items)
      modifies ledger
      ensures var m := if mode == "independent" then "independent" else "phase_sync";
              && Running(m, Bare(old(ledger.phases)), items, old(ledger.written)) && ledger.gates == old(ledger.gates)
              && GroupRan(m, Bare(old(ledger.phases)), Bare(ledger.phases), items, completed, failed, human, ev, agents)
    {
      hide Running, GroupRan, Bare, DistinctIds;
      if mode == "independent" {
        completed, failed, human, ev := ExecuteGroupIndependent(items);
      } else {
        completed, failed, human, ev := ExecuteGroupPhaseSync(items);
      }
    }

    method WriteGate(name: string, items: seq<Item>, completed: nat, failed: nat) returns (passed: bool)
      requires ledger.Valid()
      modifies ledger
      ensures ledger.Valid() && ledger.phases == old(ledger.phases)
      ensures var gate := GateRow(name, items, completed, failed);
              ledger.gates == old(ledger.gates)[name := gate] && passed == (gate.status == "passed")
      ensures ledger.written == old(ledger.written) + [ledger.State()] && Durable(ledger.disk, ledger.State())
    {
      hide Save;
      var gate := GroupGateResult(name, if failed == 0 then "passed" else "failed", 0, 0, 0, true, completed, |AiItems(items)|, "");
      var now := Now();
      ledger.RecordGroupGate(gate, now);
      passed := gate.status == "passed";
    }

    /** One group: overlap check, execution in its mode, gate. */
    method RunGroup(group: ExecutionGroup) returns (passed: bool, completed: nat, failed: nat, human: nat, ghost ev: seq<Event>)
      requires ledger.Valid() && DistinctIds(group.items)
      modifies ledger, group`mode
      ensures ledger.Valid() && group.mode == ModeAfter(old(group.Value()))
      ensures LeftIn(old(group.Value()), group.mode)
      ensures GroupRan(if group.mode == "independent" then "independent" else "phase_sync", Bare(old(ledger.phases)), Bare(ledger.phases),
                       group.items, completed, failed, human, ev, agents)
      ensures History(EffectiveMode(old(group.Value())), Bare(old(ledger.phases)), ledger.written, old(ledger.written), group.items, agents)
      ensures var g, b := old(group.Value()), Bare(old(ledger.phases));
              && GroupRan(EffectiveMode(g), b, Bare(ledger.phases), g.items, completed, failed, human, ev, agents)
              && ledger.gates == old(ledger.gates)[g.name := GateOf(g, b, agents)]
              && passed == GatePasses(g, b, agents)
      ensures Durable(ledger.disk, ledger.State()) && TwoGates(ledger.written, old(ledger.written), old(ledger.gates), ledger.gates)
    {
      hide Save, MidGroup, GroupRan, Bare, DistinctIds, GateOf, Durable, SameGates, TwoGates, PairwiseDisjoint;
      ModeIs(group.Value());
      ModeLeft(group.Value());
      var overlaps := CheckFileOverlap(group.items);
      if overlaps != [] {
        group.mode := "phase_sync";
      }
      ghost var g, b := old(group.Value()), Bare(ledger.phases);
      completed, failed, human, ev := ExecuteGroup(group.items, group.mode);
      ghost var written := ledger.written;
      MidRan(EffectiveMode(g), b, Bare(ledger.phases), g.items, completed, failed, human, ev, agents);
      passed := WriteGate(group.name, group.items, completed, failed);
      GateFollows(g, b, Bare(ledger.phases), completed, failed, human, ev, agents);
      HistoryGrows(EffectiveMode(g), b, written, old(ledger.written), ledger.State(), g.items, agents);
      GateAdded(written, old(ledger.written), old(ledger.gates), ledger.State());
    }

    /** The next group of a run: `c`, `f`, `h` are the counts so far. */
    method Turn(group: ExecutionGroup, ghost run: Run, ghost b0: map<Key, ItemPhaseStatus>, ghost plan: seq<Group>, ghost i: nat,
                ghost seen: seq<Ledger>, ghost g0: map<string, GroupGateResult>, ghost c: nat, ghost f: nat, ghost h: nat)
      returns (passed: bool, completed: nat, failed: nat, human: nat, ghost made: multiset<Key>)
      requires ledger.Valid() && DistinctIds(group.items) && i < |plan| && group.Value() == plan[i]
      requires Progress(run, b0, Bare(ledger.phases), ledger.gates, plan, i, c, f, h, agents)
      requires PlanHistory(b0, ledger.written, seen, plan, agents)
      requires PlanGates(g0, ledger.written, seen, plan, agents) && GatesFrom(g0, ledger.gates, plan, agents)
      modifies ledger, group`mode
      ensures ledger.Valid() && group.mode == ModeAfter(plan[i]) && Durable(ledger.disk, ledger.State())
      ensures PlanHistory(b0, ledger.written, seen, plan, agents)
      ensures PlanGates(g0, ledger.written, seen, plan, agents) && GatesFrom(g0, ledger.gates, plan, agents)
      ensures passed ==> Progress(run, b0, Bare(ledger.phases), ledger.gates, plan, i + 1, c + completed, f + failed, h + human, agents)
      ensures !passed ==> run == Run(Bare(ledger.phases), ledger.gates, i + 1, i, c + completed, f + failed, h + human)
      ensures RunCalls(Bare(old(ledger.phases)), plan[i..], agents)
           == made + (if passed then RunCalls(Bare(ledger.phases), plan[i + 1..], agents) else multiset{})
    {
      hide Save, MidGroup, MidPlan, CompletedItems, FailedItems, HumanItems, After, AfterGroup, GroupCalls, Bare, DistinctIds, GroupRan,
           GateOf, GatePasses, EffectiveMode, RunPlan, RunCalls, Flying, Orderly, History, PlanHistory, Progress, ModeAfter, Durable,
           Submitted, PlanGates, GatesFrom, TwoGates;
      ghost var b, gates, written := Bare(ledger.phases), ledger.gates, ledger.written;
      ghost var ev;
      passed, completed, failed, human, ev := RunGroup(group);
      Ran(plan[i], b, Bare(ledger.phases), completed, failed, human, ev, agents);
      GroupHistory(run, b0, b, gates, plan, i, c, f, h, agents, ledger.written, written, seen);
      HistoryExtends(b0, written, seen, plan, agents, EffectiveMode(plan[i]), b, ledger.written, plan[i].items);
      GateJoins(g0, gates, plan, i, b, agents);
      GatesHistory(g0, ledger.written, written, seen, gates, ledger.gates, plan, agents);
      if passed {
        GroupPassed(run, b0, b, gates, plan, i, c, f, h, agents);
      } else {
        GroupStopped(run, b0, b, gates, plan, i, c, f, h, agents);
      }
      made := Submitted(ev);
    }

    /** `execute`: groups in order, until a gate fails. */
    method Execute(groups: seq<ExecutionGroup>) returns (r: ExecutionResult, ghost calls: multiset<Key>)
      requires ledger.Valid() && (forall g :: g in groups ==> DistinctIds(g.items))
      requires forall i, j :: 0 <= i < j < |groups| ==> groups[i] != groups[j]
      modifies ledger, groups
      ensures var plan := old(Values(groups)); var run := RunPlan(Bare(old(ledger.phases)), old(ledger.gates), plan, agents);
              && Bare(ledger.phases) == run.phases && ledger.gates == run.gates && r == ResultOf(run, plan)
              && (forall i :: 0 <= i < |groups| ==>
                    groups[i].mode == if i < run.attempted then ModeAfter(plan[i]) else plan[i].mode)
              && (forall i :: 0 <= i < run.attempted && i < |groups| ==> LeftIn(plan[i], groups[i].mode))
      ensures calls == RunCalls(Bare(old(ledger.phases)), old(Values(groups)), agents)
      ensures PlanHistory(Bare(old(ledger.phases)), ledger.written, old(ledger.written), old(Values(groups)), agents)
      ensures PlanGates(old(ledger.gates), ledger.written, old(ledger.written), old(Values(groups)), agents)
      ensures ledger.Valid() && (groups != [] ==> Durable(ledger.disk, ledger.State()))
    {
      hide Save, Bare, DistinctIds, RunPlan, RunCalls, PlanHistory, Progress, ModeAfter, Durable, Values, ResultOf, ItemsTotal,
           PlanGates, GatesFrom, LeftIn;
      ghost var plan := Values(groups);
      ghost var b0, seen, g0 := Bare(ledger.phases), ledger.written, ledger.gates;
      NoGatesYet(g0, seen, plan, agents);
      ghost var run := RunPlan(b0, ledger.gates, plan, agents);
      var groupsCompleted, itemsCompleted, itemsFailed, itemsHuman := 0, 0, 0, 0;
      calls := multiset{};
      PlanStart(b0, ledger.gates, plan, seen, agents);
      var i, passed := 0, true;
      while i < |groups| && passed
        invariant 0 <= groupsCompleted <= i <= |groups| == |plan| && ledger.Valid()
        invariant if passed then
            && i == groupsCompleted
            && Progress(run, b0, Bare(ledger.phases), ledger.gates, plan, i, itemsCompleted, itemsFailed, itemsHuman, agents)
            && RunCalls(b0, plan, agents) == calls + RunCalls(Bare(ledger.phases), plan[i..], agents)
          else
            && i == groupsCompleted + 1
            && run == Run(Bare(ledger.phases), ledger.gates, i, groupsCompleted, itemsCompleted, itemsFailed, itemsHuman)
            && RunCalls(b0, plan, agents) == calls
        invariant PlanHistory(b0, ledger.written, seen, plan, agents)
        invariant PlanGates(g0, ledger.written, seen, plan, agents) && GatesFrom(g0, ledger.gates, plan, agents)
        invariant forall n :: 0 <= n < |groups| ==> groups[n].name == plan[n].name && groups[n].items == plan[n].items
        invariant forall n :: 0 <= n < |groups| ==> groups[n].mode == if n < i then ModeAfter(plan[n]) else plan[n].mode
        invariant i > 0 ==> Durable(ledger.disk, ledger.State())
        decreases |groups| - i
      {
        var completed, failed, human;
        ghost var made;
        assert groups[i] in groups;
        passed, completed, failed, human, made :=
          Turn(groups[i], run, b0, plan, i, seen, g0, itemsCompleted, itemsFailed, itemsHuman);
        calls := calls + made;
        itemsCompleted, itemsFailed, itemsHuman := itemsCompleted + completed, itemsFailed + failed, itemsHuman + human;
        if passed {
          groupsCompleted := groupsCompleted + 1;
        }
        i := i + 1;
      }
      if passed {
        PlanEnd(run, b0, Bare(ledger.phases), ledger.gates, plan, itemsCompleted, itemsFailed, itemsHuman, agents);
      }
      var status := if groupsCompleted == |groups| then "complete" else if groupsCompleted > 0 then "partial" else "failed";
      var total := TotalItems(groups, plan);
      r := ExecutionResult(status, groupsCompleted, |groups|, itemsCompleted, total, itemsFailed, itemsHuman);
      Reported(run, plan);
      forall n | 0 <= n < |groups| && n < run.attempted ensures LeftIn(plan[n], groups[n].mode) {
        ModeLeft(plan[n]);
      }
    }

    method TotalItems(groups: seq<ExecutionGroup>, ghost plan: seq<Group>) returns (n: nat)
      requires |groups| == |plan| && forall i :: 0 <= i < |groups| ==> groups[i].items == plan[i].items
      ensures n == ItemsTotal(plan)
    {
      n := 0;
      assert plan[0..] == plan;
      for i := 0 to |groups|
        invariant ItemsTotal(plan) == n + ItemsTotal(plan[i..])
      {
        assert plan[i..][0] == plan[i] && plan[i..][1..] == plan[i + 1..];
        n := n + |groups[i].items|;
      }
    }
  }

  /** A group two of whose items share a file is left in mode "phase_sync"; any other keeps its mode. */
  ghost predicate LeftIn(g: Group, mode: string) {
    && ((exists i, j, f :: 0 <= i < j < |g.items| && f in g.items[i].files && f in g.items[j].files) ==> mode == "phase_sync")
    && ((forall i, j, f :: 0 <= i < j < |g.items| && f in g.items[i].files ==> f !in g.items[j].files) ==> mode == g.mode)
  }

  lemma ModeLeft(g: Group)
    ensures LeftIn(g, ModeAfter(g))
  {
    ModeIs(g);
  }

  /** How a group's run ends: its rows, its counts, and the calls it made. */
  ghost predicate GroupRan(mode: string, b: map<Key, ItemPhaseStatus>, b1: map<Key, ItemPhaseStatus>, items: seq<Item>,
                           completed: nat, failed: nat, human: nat, ev: seq<Event>, A: Agents) {
    && b1 == AfterGroup(mode, b, items, A)
    && completed == |CompletedItems(mode, b, items, A)| && failed == |FailedItems(mode, b, items, A)| && human == |HumanItems(items)|
    && Orderly(mode, ev) && InOrder(mode, ev) && Flying(ev) == {} && Submitted(ev) == multiset(GroupCalls(mode, b, items, A))
  }

  function Report(items: seq<Item>, i: nat, j: nat): (string, string, set<string>)
    requires i < |items| && j < |items|
  {
    (items[i].id, items[j].id, Overlap(items[i], items[j]))
  }

  function GateRow(name: string, items: seq<Item>, completed: nat, failed: nat): GroupGateResult {
    GroupGateResult(name, if failed == 0 then "passed" else "failed", 0, 0, 0, true, completed, |AiItems(items)|, "")
  }

  lemma GateFollows(g: Group, b: map<Key, ItemPhaseStatus>, b1: map<Key, ItemPhaseStatus>,
                    completed: nat, failed: nat, human: nat, ev: seq<Event>, A: Agents)
    requires DistinctIds(g.items) && GroupRan(EffectiveMode(g), b, b1, g.items, completed, failed, human, ev, A)
    ensures GateRow(g.name, g.items, completed, failed) == GateOf(g, b, A)
  {
    hide CompletedItems, FailedItems, HumanItems, AfterGroup, GroupCalls, Orderly, Flying, Submitted, AiItems;
    AiCount(g.items);
  }

  lemma Ran(g: Group, b: map<Key, ItemPhaseStatus>, b1: map<Key, ItemPhaseStatus>,
            completed: nat, failed: nat, human: nat, ev: seq<Event>, A: Agents)
    requires GroupRan(EffectiveMode(g), b, b1, g.items, completed, failed, human, ev, A)
    ensures b1 == After(g, b, A)
    ensures completed == |CompletedItems(EffectiveMode(g), b, g.items, A)|
    ensures failed == |FailedItems(EffectiveMode(g), b, g.items, A)| && human == |HumanItems(g.items)|
    ensures Submitted(ev) == multiset(GroupCalls(EffectiveMode(g), b, g.items, A))
  {
  }

  lemma MidRan(mode: string, b: map<Key, ItemPhaseStatus>, b1: map<Key, ItemPhaseStatus>, items: seq<Item>,
               completed: nat, failed: nat, human: nat, ev: seq<Event>, A: Agents)
    requires GroupRan(mode, b, b1, items, completed, failed, human, ev, A)
    ensures MidGroup(mode, b, b1, items, A)
  {
    MidEnd(mode, b, items, A);
  }

  /** The file holds exactly this state. */
  ghost predicate Durable(disk: Option<string>, L: Ledger) {
    exists now :: IsoStamp(now) && disk == Some(Save(L, now))
  }

  // ---- group after group ----

  ghost predicate PlanHistory(b0: map<Key, ItemPhaseStatus>, written: seq<Ledger>, seen: seq<Ledger>, plan: seq<Group>, A: Agents) {
    seen <= written && forall n :: |seen| <= n < |written| ==> MidPlan(b0, Bare(written[n].phases), plan, A)
  }

  /** Every state the run has written is keyed and has such gates. */
  ghost predicate PlanGates(g0: map<string, GroupGateResult>, written: seq<Ledger>, seen: seq<Ledger>, plan: seq<Group>, A: Agents) {
    forall n :: |seen| <= n < |written| ==> written[n].Keyed() && GatesFrom(g0, written[n].gates, plan, A)
  }

  /** States written in one group's turn: with the gates before it, and at last with its own. */
  ghost predicate TwoGates(written: seq<Ledger>, seen: seq<Ledger>, before: map<string, GroupGateResult>, after: map<string, GroupGateResult>) {
    forall n :: |seen| <= n < |written| ==> written[n].Keyed() && (written[n].gates == before || written[n].gates == after)
  }

  lemma GateAdded(written: seq<Ledger>, seen: seq<Ledger>, before: map<string, GroupGateResult>, L: Ledger)
    requires SameGates(written, seen, before) && L.Keyed()
    ensures TwoGates(written + [L], seen, before, L.gates)
  {
    hide Ledger.Keyed;
  }

  lemma NoGatesYet(g0: map<string, GroupGateResult>, seen: seq<Ledger>, plan: seq<Group>, A: Agents)
    ensures PlanGates(g0, seen, seen, plan, A) && GatesFrom(g0, g0, plan, A)
  {
  }

  lemma GateJoins(g0: map<string, GroupGateResult>, gates: map<string, GroupGateResult>, plan: seq<Group>, i: nat,
                  b: map<Key, ItemPhaseStatus>, A: Agents)
    requires i < |plan| && GatesFrom(g0, gates, plan, A)
    ensures GatesFrom(g0, gates[plan[i].name := GateOf(plan[i], b, A)], plan, A)
  {
    hide GateOf;
    assert PlanGate(GateOf(plan[i], b, A), plan, A);
  }

  lemma GatesHistory(g0: map<string, GroupGateResult>, now: seq<Ledger>, before: seq<Ledger>, seen: seq<Ledger>,
                     gates: map<string, GroupGateResult>, after: map<string, GroupGateResult>, plan: seq<Group>, A: Agents)
    requires PlanGates(g0, before, seen, plan, A) && seen <= before <= now
    requires TwoGates(now, before, gates, after) && GatesFrom(g0, gates, plan, A) && GatesFrom(g0, after, plan, A)
    ensures PlanGates(g0, now, seen, plan, A)
  {
    hide GatesFrom, Ledger.Keyed;
    forall n | |seen| <= n < |now| ensures now[n].Keyed() && GatesFrom(g0, now[n].gates, plan, A) {
      if n < |before| { assert now[n] == before[n]; }
    }
  }

  lemma HistoryExtends(b0: map<Key, ItemPhaseStatus>, before: seq<Ledger>, seen: seq<Ledger>, plan: seq<Group>, A: Agents,
                       mode: string, b: map<Key, ItemPhaseStatus>, now: seq<Ledger>, items: seq<Item>)
    requires PlanHistory(b0, before, seen, plan, A) && History(mode, b, now, before, items, A)
    ensures seen <= before <= now
  {
    hide MidPlan, MidGroup;
  }

  function Shift(r: Run, i: nat, completed: nat, failed: nat, human: nat): Run {
    r.(attempted := r.attempted + i, passed := r.passed + i, completed := r.completed + completed,
       failed := r.failed + failed, human := r.human + human)
  }

  /** The first `i` groups have passed and left the rows `b`; what is left of the run is the run of the rest. */
  ghost predicate Progress(run: Run, b0: map<Key, ItemPhaseStatus>, b: map<Key, ItemPhaseStatus>, gates: map<string, GroupGateResult>,
                           plan: seq<Group>, i: nat, completed: nat, failed: nat, human: nat, A: Agents) {
    && i <= |plan| && run == Shift(RunPlan(b, gates, plan[i..], A), i, completed, failed, human)
    && forall h :: MidPlan(b, h, plan[i..], A) ==> MidPlan(b0, h, plan, A)
  }

  lemma PlanStart(b0: map<Key, ItemPhaseStatus>, gates: map<string, GroupGateResult>, plan: seq<Group>, seen: seq<Ledger>, A: Agents)
    ensures Progress(RunPlan(b0, gates, plan, A), b0, b0, gates, plan, 0, 0, 0, 0, A) && PlanHistory(b0, seen, seen, plan, A)
    ensures plan[0..] == plan
  {
    hide MidPlan;
    assert plan[0..] == plan;
  }

  lemma PlanEnd(run: Run, b0: map<Key, ItemPhaseStatus>, b: map<Key, ItemPhaseStatus>, gates: map<string, GroupGateResult>,
                plan: seq<Group>, completed: nat, failed: nat, human: nat, A: Agents)
    requires Progress(run, b0, b, gates, plan, |plan|, completed, failed, human, A)
    ensures run == Run(b, gates, |plan|, |plan|, completed, failed, human)
    ensures RunCalls(b, plan[|plan|..], A) == multiset{}
  {
    hide MidPlan;
    assert plan[|plan|..] == [];
  }

  lemma Reported(run: Run, plan: seq<Group>)
    ensures ResultOf(run, plan) == ExecutionResult(
              if run.passed == |plan| then "complete" else if run.passed > 0 then "partial" else "failed",
              run.passed, |plan|, run.completed, ItemsTotal(plan), run.failed, run.human)
  {
  }

  lemma GroupPassed(run: Run, b0: map<Key, ItemPhaseStatus>, b: map<Key, ItemPhaseStatus>, gates: map<string, GroupGateResult>,
                    plan: seq<Group>, i: nat, completed: nat, failed: nat, human: nat, A: Agents)
    requires i < |plan| && Progress(run, b0, b, gates, plan, i, completed, failed, human, A) && GatePasses(plan[i], b, A)
    ensures var g, mode := plan[i], EffectiveMode(plan[i]);
            Progress(run, b0, After(g, b, A), gates[g.name := GateOf(g, b, A)], plan, i + 1,
                     completed + |CompletedItems(mode, b, g.items, A)|, failed + |FailedItems(mode, b, g.items, A)|,
                     human + |HumanItems(g.items)|, A)
    ensures RunCalls(b, plan[i..], A) == multiset(GroupCalls(EffectiveMode(plan[i]), b, plan[i].items, A))
                                         + RunCalls(After(plan[i], b, A), plan[i + 1..], A)
  {
    hide MidGroup, CompletedItems, FailedItems, HumanItems, GateOf, GatePasses, EffectiveMode, After, GroupCalls;
    var rest := plan[i..];
    assert rest[0] == plan[i] && rest[1..] == plan[i + 1..];
    forall h | MidPlan(After(plan[i], b, A), h, plan[i + 1..], A) ensures MidPlan(b0, h, plan, A) {
      assert MidPlan(b, h, rest, A);
    }
  }

  lemma GroupStopped(run: Run, b0: map<Key, ItemPhaseStatus>, b: map<Key, ItemPhaseStatus>, gates: map<string, GroupGateResult>,
                     plan: seq<Group>, i: nat, completed: nat, failed: nat, human: nat, A: Agents)
    requires i < |plan| && Progress(run, b0, b, gates, plan, i, completed, failed, human, A) && !GatePasses(plan[i], b, A)
    ensures var g, mode := plan[i], EffectiveMode(plan[i]);
            run == Run(After(g, b, A), gates[g.name := GateOf(g, b, A)], i + 1, i,
                       completed + |CompletedItems(mode, b, g.items, A)|, failed + |FailedItems(mode, b, g.items, A)|,
                       human + |HumanItems(g.items)|)
    ensures RunCalls(b, plan[i..], A) == multiset(GroupCalls(EffectiveMode(plan[i]), b, plan[i].items, A))
  {
    hide MidPlan, CompletedItems, FailedItems, HumanItems, GateOf, GatePasses, EffectiveMode, After, GroupCalls;
    var rest := plan[i..];
    assert rest[0] == plan[i] && rest[1..] == plan[i + 1..];
  }

  lemma GroupHistory(run: Run, b0: map<Key, ItemPhaseStatus>, b: map<Key, ItemPhaseStatus>, gates: map<string, GroupGateResult>,
                     plan: seq<Group>, i: nat, completed: nat, failed: nat, human: nat, A: Agents,
                     now: seq<Ledger>, before: seq<Ledger>, seen: seq<Ledger>)
    requires i < |plan| && Progress(run, b0, b, gates, plan, i, completed, failed, human, A)
    requires PlanHistory(b0, before, seen, plan, A)
    requires History(EffectiveMode(plan[i]), b, now, before, plan[i].items, A)
    ensures PlanHistory(b0, now, seen, plan, A)
  {
    hide MidGroup, RunPlan, EffectiveMode;
    forall n | |seen| <= n < |now| ensures MidPlan(b0, Bare(now[n].phases), plan, A) {
      if n < |before| {
        assert now[n] == before[n];
      } else {
        assert plan[i..][0] == plan[i];
        assert MidPlan(b, Bare(now[n].phases), plan[i..], A);
      }
    }
  }

  function Stopped(items: seq<Item>, step: seq<nat>, active: set<nat>, whole: bool): set<Item>
    requires |step| == |items|
  {
    set j | 0 <= j < |items| && j !in active && !items[j].human && (step[j] == 8) == whole :: items[j]
  }

  function StoppedHumans(items: seq<Item>, active: set<nat>): set<Item> {
    set j | 0 <= j < |items| && j !in active && items[j].human :: items[j]
  }

  lemma NothingStopped(items: seq<Item>)
    ensures Counted(items, seq(|items|, _ => 0), Below(|items|), 0, 0, 0)
  {
    var step, active := seq(|items|, _ => 0), Below(|items|);
    assert Stopped(items, step, active, true) == {} && Stopped(items, step, active, false) == {} && StoppedHumans(items, active) == {};
  }

  predicate Counted(items: seq<Item>, step: seq<nat>, active: set<nat>, completed: nat, failed: nat, human: nat) {
    && |step| == |items| && completed == |Stopped(items, step, active, true)|
    && failed == |Stopped(items, step, active, false)| && human == |StoppedHumans(items, active)|
  }

  lemma StopsGrow(items: seq<Item>, step: seq<nat>, active: set<nat>, next: seq<nat>, j: nat, stopped: bool,
                  completed: nat, failed: nat, human: nat)
    requires DistinctIds(items) && |step| == |items| == |next| && j in active && j < |items|
    requires forall i :: 0 <= i < |items| && i != j ==> next[i] == step[i]
    requires Counted(items, step, active, completed, failed, human)
    ensures stopped && items[j].human ==> Counted(items, next, active - {j}, completed, failed, human + 1)
    ensures stopped && !items[j].human && next[j] == 8 ==> Counted(items, next, active - {j}, completed + 1, failed, human)
    ensures stopped && !items[j].human && next[j] != 8 ==> Counted(items, next, active - {j}, completed, failed + 1, human)
    ensures !stopped ==> Counted(items, next, active, completed, failed, human)
  {
    hide Stopped, StoppedHumans;
    OneStops(items, step, active, next, j, stopped, true);
    OneStops(items, step, active, next, j, stopped, false);
    OneHumanStops(items, active, j, stopped);
  }

  lemma OneStops(items: seq<Item>, step: seq<nat>, active: set<nat>, next: seq<nat>, j: nat, stopped: bool, whole: bool)
    requires DistinctIds(items) && |step| == |items| == |next| && j in active && j < |items|
    requires forall i :: 0 <= i < |items| && i != j ==> next[i] == step[i]
    ensures var left := if stopped then active - {j} else active;
            |Stopped(items, next, left, whole)|
            == |Stopped(items, step, active, whole)| + (if stopped && !items[j].human && (next[j] == 8) == whole then 1 else 0)
  {
    var left := if stopped then active - {j} else active;
    var s, t := Stopped(items, step, active, whole), Stopped(items, next, left, whole);
    assert items[j] !in s;
    assert t == s + (if stopped && !items[j].human && (next[j] == 8) == whole then {items[j]} else {});
  }

  lemma OneHumanStops(items: seq<Item>, active: set<nat>, j: nat, stopped: bool)
    requires DistinctIds(items) && j in active && j < |items|
    ensures var left := if stopped then active - {j} else active;
            |StoppedHumans(items, left)| == |StoppedHumans(items, active)| + (if stopped && items[j].human then 1 else 0)
  {
    var left := if stopped then active - {j} else active;
    var s, t := StoppedHumans(items, active), StoppedHumans(items, left);
    assert items[j] !in s;
    assert t == s + (if stopped && items[j].human then {items[j]} else {});
  }

  lemma AllStopped(b: map<Key, ItemPhaseStatus>, items: seq<Item>, step: seq<nat>, A: Agents, completed: nat, failed: nat, human: nat)
    requires Positions(items, step, {}, A) && Counted(items, step, {}, completed, failed, human)
    ensures completed == |CompletedItems("independent", b, items, A)|
    ensures failed == |FailedItems("independent", b, items, A)|
    ensures human == |HumanItems(items)|
  {
    forall j | 0 <= j < |items| && !items[j].human ensures step[j] == 8 <==> Succeeds("independent", b, items[j], A) {
      assert Position(items[j], step[j], false, A);
    }
    assert Stopped(items, step, {}, true) == CompletedItems("independent", b, items, A);
    assert Stopped(items, step, {}, false) == FailedItems("independent", b, items, A);
    assert StoppedHumans(items, {}) == HumanItems(items);
  }

  lemma NothingTraced(items: seq<Item>)
    ensures Traced(items, seq(|items|, _ => 0), Below(|items|), [])
  {
    assert CallsOf(items, seq(|items|, _ => 0)) == {};
  }

  lemma AllTraced(b: map<Key, ItemPhaseStatus>, items: seq<Item>, step: seq<nat>, A: Agents, ev: seq<Event>)
    requires Positions(items, step, {}, A) && Traced(items, step, {}, ev)
    ensures Orderly("independent", ev) && InOrder("independent", ev) && Flying(ev) == {}
    ensures Submitted(ev) == multiset(GroupCalls("independent", b, items, A))
  {
    CallsOfDone(b, items, step, A);
  }

  /** Steps left before every item is done. */
  function Left(step: seq<nat>): nat {
    if step == [] then 0 else Left(step[1..]) + (if step[0] < 8 then 8 - step[0] else 0)
  }

  lemma {:induction false} LeftUpdate(step: seq<nat>, next: seq<nat>, j: nat)
    requires |next| == |step| && j < |step| && step[j] < 8 && next[j] == step[j] + 1
    requires forall i :: 0 <= i < |step| && i != j ==> next[i] == step[i]
    ensures Left(next) < Left(step)
  {
    if j == 0 {
      assert next[1..] == step[1..];
    } else {
      LeftUpdate(step[1..], next[1..], j - 1);
    }
  }

  lemma LeftShrinks(items: seq<Item>, step: seq<nat>, next: seq<nat>, j: nat, active: set<nat>, A: Agents)
    requires |next| == |step| == |items| && j in active && Positions(items, step, active, A) && j < |items| && next[j] == step[j] + 1
    requires forall i :: 0 <= i < |step| && i != j ==> next[i] == step[i]
    ensures Left(next) < Left(step)
  {
    assert Position(items[j], step[j], true, A);
    LeftUpdate(step, next, j);
  }

  /** The events so far respect the order, and are the calls made and those in flight. */
  ghost predicate Traced(items: seq<Item>, step: seq<nat>, active: set<nat>, ev: seq<Event>)
    requires |step| == |items| && forall j :: j in active ==> j < |items|
  {
    && Orderly("independent", ev) && InOrder("independent", ev) && Flying(ev) == FlyingOf(items, step, active)
    && Submitted(ev) == multiset(CallsOf(items, step))
  }

  lemma HumanMoves(items: seq<Item>, step: seq<nat>, active: set<nat>, next: seq<nat>, active1: set<nat>, j: nat)
    requires |step| == |items| && (forall i :: i in active ==> i < |items|) && j in active && items[j].human
    requires |next| == |items| && (forall i :: 0 <= i < |items| && i != j ==> next[i] == step[i])
    requires active1 == active || active1 == active - {j}
    ensures FlyingOf(items, next, active1) == FlyingOf(items, step, active) && CallsOf(items, next) == CallsOf(items, step)
  {
    forall i, q | 0 <= i < |items| && 0 <= q < 4 && !items[i].human
      ensures ItemKey(items[i], q) == ItemKey(items[i], q) && (2 * q < next[i] <==> 2 * q < step[i])
    {
      assert i != j;
    }
  }

  lemma TraceStarts(items: seq<Item>, step: seq<nat>, active: set<nat>, j: nat, p: nat, ev: seq<Event>)
    requires DistinctIds(items) && |step| == |items| && (forall i :: i in active ==> i < |items|)
    requires j in active && p < 4 && step[j] == 2 * p && Traced(items, step, active, ev)
    ensures Traced(items, step[j := 2 * p + 1], active, if items[j].human then ev else ev + [Submit(ItemKey(items[j], p))])
  {
    hide Orderly, Flying, Submitted, CallsOf, FlyingOf, InOrder, Later;
    if items[j].human {
      HumanMoves(items, step, active, step[j := 2 * p + 1], active, j);
    } else {
      CallStarts(items, step, active, j, p, ev);
      CallsPrecede(items, step, j, p);
      OrderGrows("independent", ev, Submit(ItemKey(items[j], p)));
    }
  }

  lemma TraceHuman(items: seq<Item>, step: seq<nat>, active: set<nat>, j: nat, ev: seq<Event>)
    requires |step| == |items| && (forall i :: i in active ==> i < |items|) && j in active && items[j].human
    requires Traced(items, step, active, ev)
    ensures Traced(items, step[j := step[j] + 1], if step[j] == 7 then active - {j} else active, ev)
  {
    hide Orderly, Flying, Submitted, CallsOf, FlyingOf, InOrder;
    HumanMoves(items, step, active, step[j := step[j] + 1], if step[j] == 7 then active - {j} else active, j);
  }

  lemma TraceEnds(items: seq<Item>, step: seq<nat>, active: set<nat>, j: nat, p: nat, ev: seq<Event>)
    requires DistinctIds(items) && |step| == |items| && (forall i :: i in active ==> i < |items|)
    requires j in active && !items[j].human && p < 4 && step[j] == 2 * p + 1 && Traced(items, step, active, ev)
    ensures var ev1 := ev + [Settle(ItemKey(items[j], p))];
            && Traced(items, step, active - {j}, ev1)
            && Traced(items, step[j := 2 * p + 2], if p == 3 then active - {j} else active, ev1)
  {
    hide Orderly, Flying, Submitted, CallsOf, FlyingOf, InOrder;
    OrderGrows("independent", ev, Settle(ItemKey(items[j], p)));
    CallEnds(items, step, active, step, active - {j}, j, p, ev);
    CallEnds(items, step, active, step[j := 2 * p + 2], if p == 3 then active - {j} else active, j, p, ev);
  }

  lemma Moves(items: seq<Item>, step: seq<nat>, active: set<nat>, j: nat, A: Agents)
    requires Positions(items, step, active, A) && j in active && DistinctIds(items)
    ensures |step| == |items| && j < |items| && step[j] < 8
    ensures var p := step[j] / 2; var go := step[j := step[j] + 1]; var left := if step[j] == 7 then active - {j} else active;
            var raised := !items[j].human && A.outcome(ItemKey(items[j], p)).Raised?;
            && p < 4
            && (step[j] % 2 == 0 ==> Positions(items, go, active, A))
            && (step[j] % 2 == 1 && !raised ==> Positions(items, go, left, A))
            && (step[j] % 2 == 1 && raised ==> Positions(items, step, active - {j}, A))
  {
    assert Position(items[j], step[j], true, A);
  }

  lemma DueRow(b: map<Key, ItemPhaseStatus>, cur: map<Key, ItemPhaseStatus>, items: seq<Item>, step: seq<nat>, active: set<nat>, j: nat, A: Agents)
    requires Positions(items, step, active, A) && j in active && DistinctIds(items) && IndState(b, cur, items, step, A)
    ensures j < |items| && step[j] < 8
    ensures var k := ItemKey(items[j], step[j] / 2);
            && IndexOf(items, k.item) == j && Runs("independent", Lookup(b, k), items[j], k, A)
            && (step[j] % 2 == 1 ==> Lookup(cur, k) == Some(InFlight(items[j], k, A)))
            && (items[j].human || A.outcome(k).Done? ==>
                  && FinalRow("independent", Lookup(b, k), items[j], k, A) == Some(ResultRow(items[j], k, A))
                  && GroupRow("independent", Lookup(b, k), items, k, A) == Some(ResultRow(items[j], k, A)))
  {
    hide ResultRow, InFlight;
    assert Position(items[j], step[j], true, A);
    var k := ItemKey(items[j], step[j] / 2);
    KeyIs(items, j, step[j] / 2, k);
    assert Lookup(cur, k) == IndRow(Lookup(b, k), items, step, k, A);
  }

  lemma NoCallsYet(b: map<Key, ItemPhaseStatus>, items: seq<Item>)
    ensures multiset(CallsUpTo(b, items, 0)) == multiset{}
    ensures Submitted([]) == multiset{} && Flying([]) == {} && Orderly("phase_sync", []) && InOrder("phase_sync", [])
  {
  }

  lemma CallsEarlier(b: map<Key, ItemPhaseStatus>, items: seq<Item>, p: nat, ev: seq<Event>)
    requires p <= 4 && Submitted(ev) == multiset(CallsUpTo(b, items, p))
    ensures Earlier(ev, p)
  {
    hide Submitted, FuturesOf;
    forall k | k in Submitted(ev) ensures exists q :: 0 <= q < p && k.phase == PHASES[q] {
      assert k in CallsUpTo(b, items, p);
      var q, i :| 0 <= q < p && i in FuturesOf(b, items, q) && k == ItemKey(i, q);
      assert k.phase == PHASES[q];
    }
  }

  lemma AllSettled(ev0: seq<Event>, ev: seq<Event>, futures: set<Item>, p: nat)
    requires p < 4 && Called(ev0, ev, futures, {}, p)
    ensures Orderly("phase_sync", ev) && InOrder("phase_sync", ev) && Flying(ev) == {}
    ensures Submitted(ev) == Submitted(ev0) + multiset(Keys(futures, p))
  {
  }

  /** The calls of the synchronised phases before `p`. */
  function CallsUpTo(b: map<Key, ItemPhaseStatus>, items: seq<Item>, p: nat): set<Key>
    requires p <= 4
  {
    set q, i | 0 <= q < p && i in FuturesOf(b, items, q) :: ItemKey(i, q)
  }

  lemma CallsGrow(b: map<Key, ItemPhaseStatus>, items: seq<Item>, p: nat)
    requires p < 4
    ensures multiset(CallsUpTo(b, items, p + 1)) == multiset(CallsUpTo(b, items, p)) + multiset(Keys(FuturesOf(b, items, p), p))
  {
    hide FuturesOf;
    PhaseNumbers();
    assert CallsUpTo(b, items, p + 1) == CallsUpTo(b, items, p) + Keys(FuturesOf(b, items, p), p);
    assert CallsUpTo(b, items, p) !! Keys(FuturesOf(b, items, p), p) by {
      assert forall k :: k in CallsUpTo(b, items, p) ==> PhaseNo(k.phase) < p;
      assert forall k :: k in Keys(FuturesOf(b, items, p), p) ==> PhaseNo(k.phase) == p;
    }
  }

  lemma AllCalls(b: map<Key, ItemPhaseStatus>, items: seq<Item>, A: Agents)
    ensures CallsUpTo(b, items, 4) == GroupCalls("phase_sync", b, items, A)
  {
    PhaseNumbers();
    var c, d := CallsUpTo(b, items, 4), GroupCalls("phase_sync", b, items, A);
    forall k | k in c ensures k in d {
      var q, i :| 0 <= q < 4 && i in FuturesOf(b, items, q) && k == ItemKey(i, q);
      assert PHASES[q] in PHASES && k == Key(i.id, PHASES[q]);
    }
    forall k | k in d ensures k in c {
      var i, p :| i in items && p in PHASES && !i.human && Runs("phase_sync", Lookup(b, Key(i.id, p)), i, Key(i.id, p), A) && k == Key(i.id, p);
      assert k == ItemKey(i, PhaseNo(p)) && i in FuturesOf(b, items, PhaseNo(p));
    }
  }

  /** The review phase decides the group's counts. */
  lemma ReviewCounts(b: map<Key, ItemPhaseStatus>, items: seq<Item>, A: Agents)
    ensures var f := FuturesOf(b, items, 3);
            && |CompletedItems("phase_sync", b, items, A)| == |SkippedOf(b, items, 3)| + |DoneOf(f, 3, A)|
            && FailedItems("phase_sync", b, items, A) == RaisedOf(f, 3, A)
  {
    var f := FuturesOf(b, items, 3);
    assert PHASES[3] == "review";
    assert CompletedItems("phase_sync", b, items, A) == SkippedOf(b, items, 3) + DoneOf(f, 3, A);
    assert SkippedOf(b, items, 3) !! DoneOf(f, 3, A);
  }

  function DoneOf(s: set<Item>, p: nat, A: Agents): set<Item>
    requires p < 4
  {
    set i | i in s && A.outcome(ItemKey(i, p)).Done?
  }

  function RaisedOf(s: set<Item>, p: nat, A: Agents): set<Item>
    requires p < 4
  {
    set i | i in s && A.outcome(ItemKey(i, p)).Raised?
  }

  lemma NothingSettled(futures: set<Item>, p: nat, A: Agents)
    requires p < 4
    ensures DoneOf(futures - futures, p, A) == {} && RaisedOf(futures - futures, p, A) == {}
  {
  }

  lemma OneMoreSettled(futures: set<Item>, left: set<Item>, item: Item, p: nat, A: Agents)
    requires p < 4 && left <= futures && item in left
    ensures var r := A.outcome(ItemKey(item, p));
            && |DoneOf(futures - (left - {item}), p, A)| == |DoneOf(futures - left, p, A)| + (if r.Done? then 1 else 0)
            && |RaisedOf(futures - (left - {item}), p, A)| == |RaisedOf(futures - left, p, A)| + (if r.Raised? then 1 else 0)
  {
    var before, after := futures - left, futures - (left - {item});
    assert after == before + {item} && item !in before;
    OneMoreDone(before, item, p, A);
  }

  lemma OneMoreDone(before: set<Item>, item: Item, p: nat, A: Agents)
    requires p < 4 && item !in before
    ensures var r := A.outcome(ItemKey(item, p));
            && |DoneOf(before + {item}, p, A)| == |DoneOf(before, p, A)| + (if r.Done? then 1 else 0)
            && |RaisedOf(before + {item}, p, A)| == |RaisedOf(before, p, A)| + (if r.Raised? then 1 else 0)
  {
    var r := A.outcome(ItemKey(item, p));
    OneMoreMember(DoneOf(before, p, A), DoneOf(before + {item}, p, A), item, r.Done?);
    OneMoreMember(RaisedOf(before, p, A), RaisedOf(before + {item}, p, A), item, r.Raised?);
  }

  lemma OneMoreMember(before: set<Item>, after: set<Item>, item: Item, joins: bool)
    requires item !in before && forall i :: i in after <==> i in before || (joins && i == item)
    ensures |after| == |before| + (if joins then 1 else 0)
  {
    assert after == before + (if joins then {item} else {});
  }

  ghost function FutureIndex(b: map<Key, ItemPhaseStatus>, items: seq<Item>, p: nat, item: Item): (j: nat)
    requires p < 4 && item in FuturesOf(b, items, p)
    ensures j < |items| && items[j] == item && !item.human && !HasPassed(Lookup(b, ItemKey(item, p)))
  {
    var j :| 0 <= j < |items| && items[j] == item;
    j
  }

  /** A call still awaited has its running row on file, and its result is what the row must become. */
  lemma Awaited(b: map<Key, ItemPhaseStatus>, cur: map<Key, ItemPhaseStatus>, items: seq<Item>, p: nat, j: nat, left: set<Item>, A: Agents)
    requires DistinctIds(items) && j < |items| && p < 4 && SyncState(b, cur, items, p, |items|, left, A)
    requires items[j] in left && !items[j].human && !HasPassed(Lookup(b, ItemKey(items[j], p)))
    ensures var k := ItemKey(items[j], p);
            && IndexOf(items, k.item) == j && Lookup(cur, k) == Some(InFlight(items[j], k, A))
            && Runs("phase_sync", Lookup(b, k), items[j], k, A)
            && GroupRow("phase_sync", Lookup(b, k), items, k, A) == Some(ResultRow(items[j], k, A))
  {
    hide InFlight, ResultRow, SyncState, IndexOf, PhaseNo, HasPassed, Lookup, ItemKey, Reached, DistinctIds;
    var k := ItemKey(items[j], p);
    KeyIs(items, j, p, k);
    SyncAt(b, cur, items, p, |items|, left, k, A);
  }

  lemma SyncAt(b: map<Key, ItemPhaseStatus>, cur: map<Key, ItemPhaseStatus>, items: seq<Item>, p: nat, n: nat, left: set<Item>, k: Key, A: Agents)
    requires SyncState(b, cur, items, p, n, left, A)
    ensures Lookup(cur, k) == SyncRow(Lookup(b, k), items, p, n, left, k, A)
  {
  }

  lemma CallSettled(items: seq<Item>, futures: set<Item>, left: set<Item>, item: Item, p: nat, ev0: seq<Event>, ev: seq<Event>)
    requires DistinctIds(items) && p < 4 && left <= futures && item in left && (forall i :: i in futures ==> i in items)
    requires Called(ev0, ev, futures, left, p)
    ensures Called(ev0, ev + [Settle(ItemKey(item, p))], futures, left - {item}, p)
  {
    hide Flying, Submitted, Orderly, InOrder, Earlier;
    var k := ItemKey(item, p);
    Extend("phase_sync", ev, Settle(k));
    OrderGrows("phase_sync", ev, Settle(k));
    assert Keys(left - {item}, p) == Keys(left, p) - {k} by {
      forall i | i in left && i != item ensures ItemKey(i, p) != k {
        var m, n :| 0 <= m < |items| && 0 <= n < |items| && items[m] == i && items[n] == item;
      }
    }
  }

  /** The events since `ev0` respect the barrier, submitted each call of `futures` once, and leave
      exactly those of `left` in flight. */
  ghost predicate Called(ev0: seq<Event>, ev: seq<Event>, futures: set<Item>, left: set<Item>, p: nat)
    requires p < 4
  {
    && Orderly("phase_sync", ev) && Flying(ev) == Keys(left, p)
    && Submitted(ev) == Submitted(ev0) + multiset(Keys(futures, p))
    && InOrder("phase_sync", ev) && Earlier(ev0, p)
  }

  /** Every call so far is of an earlier phase. */
  ghost predicate Earlier(ev: seq<Event>, p: nat)
    requires p <= 4
  {
    forall k :: k in Submitted(ev) ==> exists q :: 0 <= q < p && k.phase == PHASES[q]
  }

  lemma FrontFutures(b: map<Key, ItemPhaseStatus>, items: seq<Item>, i: nat, p: nat)
    requires i <= |items| && p < 4
    ensures forall x :: x in FuturesOf(b, items[..i], p) ==> x in items[..i]
  {
  }

  lemma FromItems(b: map<Key, ItemPhaseStatus>, items: seq<Item>, p: nat)
    requires p < 4
    ensures forall x :: x in FuturesOf(b, items, p) ==> x in items
  {
  }

  lemma NothingSeen(b: map<Key, ItemPhaseStatus>, items: seq<Item>, p: nat)
    requires p < 4
    ensures FuturesOf(b, items[..0], p) == {} && SkippedOf(b, items[..0], p) == {} && HumanItems(items[..0]) == {}
  {
  }

  lemma NothingCalled(ev0: seq<Event>, p: nat)
    requires p < 4 && Orderly("phase_sync", ev0) && Flying(ev0) == {} && InOrder("phase_sync", ev0) && Earlier(ev0, p)
    ensures Called(ev0, ev0, {}, {}, p)
  {
  }

  lemma OneMoreCall(items: seq<Item>, i: nat, futures: set<Item>, p: nat, ev0: seq<Event>, ev: seq<Event>)
    requires DistinctIds(items) && i < |items| && p < 4 && forall x :: x in futures ==> x in items[..i]
    requires Called(ev0, ev, futures, futures, p)
    ensures Called(ev0, ev + [Submit(ItemKey(items[i], p))], futures + {items[i]}, futures + {items[i]}, p)
  {
    hide Flying, Submitted, Orderly, InOrder, Earlier, Keys;
    var k := ItemKey(items[i], p);
    NewKey(items, i, futures, p);
    Extend("phase_sync", ev, Submit(k));
    AdmitsSame(futures, p, k);
    BarrierOrder(items, i, futures, p, ev0);
    OrderGrows("phase_sync", ev, Submit(k));
  }

  lemma BarrierOrder(items: seq<Item>, i: nat, futures: set<Item>, p: nat, ev0: seq<Event>)
    requires DistinctIds(items) && i < |items| && p < 4 && (forall x :: x in futures ==> x in items[..i]) && Earlier(ev0, p)
    ensures forall k :: k in Submitted(ev0) + multiset(Keys(futures, p)) ==> Later("phase_sync", k, ItemKey(items[i], p))
  {
    hide Submitted;
    forall k | k in Submitted(ev0) + multiset(Keys(futures, p)) ensures Later("phase_sync", k, ItemKey(items[i], p)) {
      if k in Keys(futures, p) {
        var x :| x in futures && k == ItemKey(x, p);
        var m :| 0 <= m < i && items[..i][m] == x;
        assert items[m].id != items[i].id;
      } else {
        assert k in Submitted(ev0);
        var q :| 0 <= q < p && k.phase == PHASES[q];
        PhaseOrder(q, p);
      }
    }
  }

  lemma SyncSkipped(b: map<Key, ItemPhaseStatus>, cur: map<Key, ItemPhaseStatus>, items: seq<Item>, p: nat, n: nat,
                    futures: set<Item>, A: Agents)
    requires DistinctIds(items) && n < |items| && p < 4 && SyncState(b, cur, items, p, n, futures, A)
    requires items[n] !in futures && !items[n].human && HasPassed(Lookup(b, ItemKey(items[n], p)))
    ensures SyncState(b, cur, items, p, n + 1, futures, A)
  {
    Unseen(b, cur, items, p, n, futures, A);
    SyncSeen(b, cur, cur, items, p, n, futures, A);
  }

  lemma SyncHuman(b: map<Key, ItemPhaseStatus>, cur: map<Key, ItemPhaseStatus>, items: seq<Item>, p: nat, n: nat,
                  futures: set<Item>, A: Agents)
    requires DistinctIds(items) && n < |items| && p < 4 && SyncState(b, cur, items, p, n, futures, A)
    requires items[n] !in futures && items[n].human
    ensures var k := ItemKey(items[n], p);
            SyncState(b, cur[k := ResultRow(items[n], k, A)], items, p, n + 1, futures, A)
  {
    hide SyncState, ResultRow;
    var k := ItemKey(items[n], p);
    HumanRow("phase_sync", Lookup(b, k), items, n, p, A);
    SyncSeen(b, cur, cur[k := ResultRow(items[n], k, A)], items, p, n, futures, A);
  }

  lemma SubmitRow(b: map<Key, ItemPhaseStatus>, items: seq<Item>, n: nat, p: nat, A: Agents)
    requires DistinctIds(items) && n < |items| && p < 4 && !items[n].human && !HasPassed(Lookup(b, ItemKey(items[n], p)))
    ensures var k := ItemKey(items[n], p);
            && IndexOf(items, k.item) == n && Runs("phase_sync", Lookup(b, k), items[n], k, A)
            && GroupRow("phase_sync", Lookup(b, k), items, k, A) == Some(ResultRow(items[n], k, A))
  {
    KeyIs(items, n, p, ItemKey(items[n], p));
  }

  lemma NewKey(items: seq<Item>, i: nat, futures: set<Item>, p: nat)
    requires DistinctIds(items) && i < |items| && p < 4 && forall x :: x in futures ==> x in items[..i]
    ensures ItemKey(items[i], p) !in Keys(futures, p)
    ensures Keys(futures + {items[i]}, p) == Keys(futures, p) + {ItemKey(items[i], p)}
    ensures multiset(Keys(futures + {items[i]}, p)) == multiset(Keys(futures, p)) + multiset{ItemKey(items[i], p)}
  {
  }

  lemma AdmitsSame(futures: set<Item>, p: nat, k: Key)
    requires p < 4 && k.phase == PHASES[p]
    ensures forall other :: other in Keys(futures, p) ==> Admits("phase_sync", other, k)
  {
  }
}
