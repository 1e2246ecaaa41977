/** The whole-initiative lease lock. Times are microseconds since the epoch; the lock file keeps whole
    seconds, but age is judged against the untruncated clock. */
module Lock {
  import opened Text

  const MICROS := 1_000_000

  const VALID_DRIVERS: set<string> := {"console", "dark-factory", "sherpa"}

  /** The lock record; `acquiredAt` and `renewedAt` are in whole seconds. */
  datatype LockInfo = LockInfo(owner: string, driver: string, sessionId: string, hostname: string, pid: int,
                               acquiredAt: nat, renewedAt: nat, initiative: string, ttl: int, heartbeat: int)

  /** The stand-down sentinel. */
  datatype Halt = Halt(at: nat, takenFrom: LockInfo, takenBy: LockInfo)

  /** What `_fmt` keeps of a time. */
  function Seconds(now: nat): nat { now / MICROS }

  /** Who asks, from where, and for how long. */
  datatype Caller = Caller(owner: string, driver: string, sessionId: string, hostname: string, pid: int,
                           initiative: string, ttl: int, heartbeat: int)

  /** `alive` is what the process probe says of the recorded PID. */
  predicate IsTakeable(info: LockInfo, now: nat, host: string, alive: bool) {
    now - info.renewedAt * MICROS > info.ttl * MICROS || (info.hostname == host && !alive)
  }

  datatype Result = UnknownDriver | Blocked(holder: LockInfo) | Acquired(info: LockInfo, previous: Option<LockInfo>)

  /** What `.aieos/` holds. */
  datatype Disk = Disk(held: Option<LockInfo>, halt: Option<Halt>)

  function Ours(c: Caller, now: nat): LockInfo {
    LockInfo(c.owner, c.driver, c.sessionId, c.hostname, c.pid, Seconds(now), Seconds(now), c.initiative, c.ttl, c.heartbeat)
  }

  /** `acquire_lock` as one atomic step; a takeover that crashes has written its halt but not its lock. */
  function Acquire(d: Disk, c: Caller, now: nat, alive: bool, crashes: bool): (Disk, Result) {
    if c.driver !in VALID_DRIVERS then (d, UnknownDriver)
    else if d.held.Some? && d.held.value.sessionId == c.sessionId then
      var info := d.held.value.(renewedAt := Seconds(now));
      (d.(held := Some(info)), Acquired(info, None))
    else if d.held.Some? && !IsTakeable(d.held.value, now, c.hostname, alive) then (d, Blocked(d.held.value))
    else
      var ours := Ours(c, now);
      if d.held.None? then (d.(held := Some(ours)), Acquired(ours, None))
      else
        var halted := d.(halt := Some(Halt(Seconds(now), d.held.value, ours)));
        if crashes then (halted, Blocked(d.held.value)) else (halted.(held := Some(ours)), Acquired(ours, d.held))
  }

  function Renew(d: Disk, sid: string, now: nat): (Disk, bool) {
    if d.held.None? || d.held.value.sessionId != sid then (d, false)
    else (d.(held := Some(d.held.value.(renewedAt := Seconds(now)))), true)
  }

  function Release(d: Disk, sid: string): (Disk, bool) {
    if d.held.None? || d.held.value.sessionId != sid then (d, false) else (d.(held := None), true)
  }

  /** The record says what the caller said, as of this time. */
  predicate Records(info: LockInfo, c: Caller, at: nat) {
    && info.owner == c.owner && info.driver == c.driver && info.sessionId == c.sessionId && info.hostname == c.hostname
    && info.pid == c.pid && info.initiative == c.initiative && info.ttl == c.ttl && info.heartbeat == c.heartbeat
    && info.acquiredAt == at / 1_000_000 && info.renewedAt == at / 1_000_000
  }

  /** Who gets the lock: an unknown driver never; anyone a free lock; its own session again, renewed; another session
      exactly when the lease is over or the holder's process is dead on the same host, halt and all. Whoever
      gets it anew has its own terms recorded; whoever does not changes nothing. */
  lemma AcquireDecides(d: Disk, c: Caller, at: nat, alive: bool)
    ensures var (next, r) := Acquire(d, c, at, alive, false);
            if c.driver !in ["console", "dark-factory", "sherpa"] then next == d && r == UnknownDriver
            else if d.held.None? then
              next.held.Some? && Records(next.held.value, c, at) && next.halt == d.halt && r == Acquired(next.held.value, None)
            else
              var holder := d.held.value;
              if holder.sessionId == c.sessionId then
                && next == d.(held := Some(holder.(renewedAt := at / 1_000_000))) && r == Acquired(next.held.value, None)
              else if at - holder.renewedAt * 1_000_000 > holder.ttl * 1_000_000 || (holder.hostname == c.hostname && !alive) then
                && next.held.Some? && Records(next.held.value, c, at) && r == Acquired(next.held.value, Some(holder))
                && next.halt == Some(Halt(at / 1_000_000, holder, next.held.value))
              else next == d && r == Blocked(holder)
  {
  }

  /** Renewing and releasing are for the recorded session; they change the renewal time, or free the lock. */
  lemma HolderOnly(d: Disk, sid: string, at: nat)
    ensures if d.held.Some? && d.held.value.sessionId == sid then
              && Renew(d, sid, at) == (Disk(Some(d.held.value.(renewedAt := at / 1_000_000)), d.halt), true)
              && Release(d, sid) == (Disk(None, d.halt), true)
            else Renew(d, sid, at) == (d, false) && Release(d, sid) == (d, false)
  {
  }

  class Initiative {
    var held: Option<LockInfo>
    var halt: Option<Halt>

    constructor ()
      ensures Files() == Disk(None, None)
    {
      held, halt := None, None;
    }

    function Files(): Disk
      reads this
    {
      Disk(held, halt)
    }

    method AcquireLock(c: Caller, now: nat, alive: bool) returns (r: Result)
      modifies this
      ensures (Files(), r) == Acquire(old(Files()), c, now, alive, false)
    {
      if c.driver !in VALID_DRIVERS {
        return UnknownDriver;
      }
      var existing := held;
      if existing.Some? && existing.value.sessionId == c.sessionId {
        held := Some(existing.value.(renewedAt := Seconds(now)));
        return Acquired(held.value, None);
      }
      if existing.Some? {
        if !IsTakeable(existing.value, now, c.hostname, alive) {
          return Blocked(existing.value);
        }
      }
      var ours := Ours(c, now);
      var tookOver := existing.Some?;
      if tookOver {
        halt := Some(Halt(Seconds(now), existing.value, ours));
      }
      held := Some(ours);
      r := Acquired(ours, if tookOver then existing else None);
    }

    method RenewLock(sid: string, now: nat) returns (ok: bool)
      modifies this
      ensures (Files(), ok) == Renew(old(Files()), sid, now)
    {
      if held.None? || held.value.sessionId != sid {
        return false;
      }
      held := Some(held.value.(renewedAt := Seconds(now)));
      ok := true;
    }

    method ReleaseLock(sid: string) returns (ok: bool)
      modifies this
      ensures (Files(), ok) == Release(old(Files()), sid)
    {
      if held.None? || held.value.sessionId != sid {
        return false;
      }
      held := None;
      ok := true;
    }
  }

  // ---- runs ----

  datatype Step = AcquireStep(c: Caller, at: nat, alive: bool, crashes: bool)
    | RenewStep(sid: string, at: nat) | ReleaseStep(sid: string, at: nat)

  function SessionOf(s: Step): string { if s.AcquireStep? then s.c.sessionId else s.sid }

  function Next(d: Disk, s: Step): Disk {
    match s
    case AcquireStep(c, at, alive, crashes) => Acquire(d, c, at, alive, crashes).0
    case RenewStep(sid, at) => Renew(d, sid, at).0
    case ReleaseStep(sid, at) => Release(d, sid).0
  }

  /** Did the step leave its session believing that it holds the lock? */
  predicate Succeeds(d: Disk, s: Step) {
    match s
    case AcquireStep(c, at, alive, crashes) => Acquire(d, c, at, alive, crashes).1.Acquired?
    case RenewStep(sid, at) => Renew(d, sid, at).1
    case ReleaseStep(_, _) => false
  }

  function Execute(d: Disk, steps: seq<Step>): Disk {
    if steps == [] then d else Next(Execute(d, steps[..|steps| - 1]), steps[|steps| - 1])
  }

  predicate Holds(d: Disk, sid: string) { d.held.Some? && d.held.value.sessionId == sid }

  // ---- lease safety ----

  /** The longest safe gap between two renewals. */
  function SafeGap(ttl: int): int { ttl * MICROS - 999_999 }

  lemma Truncated(t: nat)
    ensures t - 999_999 <= Seconds(t) * MICROS <= t
  {
  }

  /** Time of the session's latest acquire or renew, starting from `beat`. */
  function LastBeat(steps: seq<Step>, sid: string, beat: nat): nat {
    if steps == [] then beat
    else if SessionOf(steps[|steps| - 1]) == sid then steps[|steps| - 1].at
    else LastBeat(steps[..|steps| - 1], sid, beat)
  }

  /** The session `sid` on `host` keeps its heartbeat: nobody acts later than the safe gap after its latest beat, it
      does not release, and on its own host its process is reported alive. */
  predicate Beating(sid: string, host: string, ttl: int, steps: seq<Step>, beat: nat) {
    forall i :: 0 <= i < |steps| ==>
      && (SessionOf(steps[i]) == sid ==> !steps[i].ReleaseStep? && (steps[i].AcquireStep? ==> steps[i].c.driver in VALID_DRIVERS))
      && steps[i].at - LastBeat(steps[..i], sid, beat) <= SafeGap(ttl)
      && (steps[i].AcquireStep? && steps[i].c.hostname == host ==> steps[i].alive)
  }

  /** A lock whose latest beat is older than its lease may be taken by anyone; one within the safe gap, by nobody
      to whom its process is not reported dead. */
  lemma TakeoverWindow(info: LockInfo, beat: nat, now: nat, host: string, alive: bool)
    requires info.renewedAt == Seconds(beat)
    ensures now - beat > info.ttl * MICROS ==> IsTakeable(info, now, host, alive)
    ensures now - beat <= SafeGap(info.ttl) && (host == info.hostname ==> alive) ==> !IsTakeable(info, now, host, alive)
  {
    Truncated(beat);
  }

  /** A session that beats in time is never displaced, whatever the others do. */
  lemma {:induction false} LeaseSafety(d: Disk, steps: seq<Step>, beat: nat)
    requires d.held.Some? && d.held.value.renewedAt == Seconds(beat)
    requires Beating(d.held.value.sessionId, d.held.value.hostname, d.held.value.ttl, steps, beat)
    ensures var info := d.held.value; var last := LastBeat(steps, info.sessionId, beat);
            Execute(d, steps).held == Some(info.(renewedAt := Seconds(last)))
  {
    var info := d.held.value;
    if steps != [] {
      var front, s := steps[..|steps| - 1], steps[|steps| - 1];
      assert forall i :: 0 <= i < |front| ==> front[..i] == steps[..i];
      LeaseSafety(d, front, beat);
      var last := LastBeat(front, info.sessionId, beat);
      assert steps[..|steps| - 1] == front;
      if SessionOf(s) != info.sessionId && s.AcquireStep? {
        TakeoverWindow(info.(renewedAt := Seconds(last)), last, s.at, s.c.hostname, s.alive);
      }
    }
  }

  /** So whoever gets the lock, by a free lock or a takeover, keeps it through every later step while its beats are at
      most its own lease less 999,999 microseconds apart. */
  lemma AcquiredIsSafe(d: Disk, c: Caller, at: nat, alive: bool, steps: seq<Step>, n: nat)
    requires Acquire(d, c, at, alive, false).1.Acquired? && (d.held.Some? ==> d.held.value.sessionId != c.sessionId)
    requires Beating(c.sessionId, c.hostname, c.ttl, steps, at) && n <= |steps|
    ensures var now := Execute(Acquire(d, c, at, alive, false).0, steps[..n]);
            && now.held.Some? && now.held.value.sessionId == c.sessionId && now.held.value.owner == c.owner
            && now.held.value.renewedAt == LastBeat(steps[..n], c.sessionId, at) / 1_000_000
  {
    hide Execute, LastBeat;
    AcquireDecides(d, c, at, alive);
    var front := steps[..n];
    assert forall i :: 0 <= i < n ==> front[..i] == steps[..i];
    LeaseSafety(Acquire(d, c, at, alive, false).0, front, at);
  }

  /** The gap is tight: one microsecond more, and at an unlucky fraction of a second anyone may take over. */
  lemma GapIsTight(info: LockInfo, second: nat, host: string, alive: bool)
    requires info.renewedAt == second && info.ttl >= 1
    ensures var beat := second * MICROS + 999_999; var now := beat + SafeGap(info.ttl) + 1;
            now >= 0 && Seconds(beat) == second && IsTakeable(info, now, host, alive)
  {
  }

  // ---- belief and the halt ----

  /** The halts written by a run, oldest first. */
  function Halts(d: Disk, steps: seq<Step>): seq<Halt> {
    if steps == [] then [] else
      var front := steps[..|steps| - 1];
      var before, after := Execute(d, front), Execute(d, steps);
      Halts(d, front) + (if Takes(before, steps[|steps| - 1]) && after.halt.Some? then [after.halt.value] else [])
  }

  /** Is this step a takeover, crashed or not? */
  predicate Takes(d: Disk, s: Step) {
    && s.AcquireStep? && s.c.driver in VALID_DRIVERS && d.held.Some? && d.held.value.sessionId != s.c.sessionId
    && IsTakeable(d.held.value, s.at, s.c.hostname, s.alive)
  }

  /** After `steps`, how many halts had been written when the session last succeeded; `None` if it has not
      succeeded, or has released since. */
  function Believes(d: Disk, steps: seq<Step>, sid: string): Option<nat> {
    if steps == [] then None else
      var front, s := steps[..|steps| - 1], steps[|steps| - 1];
      if SessionOf(s) != sid then Believes(d, front, sid)
      else if Succeeds(Execute(d, front), s) then Some(|Halts(d, steps)|)
      else if s.ReleaseStep? then None
      else Believes(d, front, sid)
  }

  predicate NamedSince(hs: seq<Halt>, n: nat, sid: string) { exists i :: n <= i < |hs| && hs[i].takenFrom.sessionId == sid }

  /** A step that succeeds for a session leaves it the holder; one that is not its release takes the lock from
      it only with a halt that names it. */
  lemma StepOfBelief(d: Disk, s: Step, sid: string)
    ensures SessionOf(s) == sid && Succeeds(d, s) ==> Holds(Next(d, s), sid)
    ensures Holds(d, sid) && !(SessionOf(s) == sid && s.ReleaseStep?) ==>
              Holds(Next(d, s), sid) || (Takes(d, s) && Next(d, s).halt.Some? && Next(d, s).halt.value.takenFrom.sessionId == sid)
  {
    hide IsTakeable;
  }

  lemma NamedLater(hs: seq<Halt>, more: seq<Halt>, n: nat, sid: string)
    requires NamedSince(hs, n, sid)
    ensures NamedSince(hs + more, n, sid)
  {
    var i :| n <= i < |hs| && hs[i].takenFrom.sessionId == sid;
    assert (hs + more)[i] == hs[i];
  }

  lemma {:induction false} BeliefHolds(d: Disk, steps: seq<Step>, sid: string)
    requires d.held.None?
    ensures var b := Believes(d, steps, sid);
            b.Some? ==> b.value <= |Halts(d, steps)| && (Holds(Execute(d, steps), sid) || NamedSince(Halts(d, steps), b.value, sid))
  {
    if steps != [] {
      hide Next, Takes, Holds, Succeeds, NamedSince, SessionOf;
      var front, s := steps[..|steps| - 1], steps[|steps| - 1];
      BeliefHolds(d, front, sid);
      var before, hs := Execute(d, front), Halts(d, front);
      var b := Believes(d, front, sid);
      var more := if Takes(before, s) && Next(before, s).halt.Some? then [Next(before, s).halt.value] else [];
      assert Execute(d, steps) == Next(before, s) && Halts(d, steps) == hs + more;
      StepOfBelief(before, s, sid);
      if b.Some? {
        if NamedSince(hs, b.value, sid) { NamedLater(hs, more, b.value, sid); }
        if more != [] && more[0].takenFrom.sessionId == sid { LastNamed(hs, more, b.value, sid); }
      }
    }
  }

  lemma LastNamed(hs: seq<Halt>, more: seq<Halt>, n: nat, sid: string)
    requires more != [] && more[0].takenFrom.sessionId == sid && n <= |hs|
    ensures NamedSince(hs + more, n, sid)
  {
    assert (hs + more)[|hs|] == more[0];
  }

  lemma LoserIsTold(now: Disk, sid: string, t: nat)
    requires !Holds(now, sid)
    ensures Renew(now, sid, t) == (now, false) && Release(now, sid) == (now, false)
  {
  }

  /** A session that believes it holds the lock does hold it, or has been named in a halt written since; and once
      it does not hold it, its next renew, at any time, or release returns False and changes nothing. */
  lemma BeliefIsSound(d: Disk, steps: seq<Step>, sid: string, t: nat)
    requires d.held.None?
    ensures var b := Believes(d, steps, sid);
            b.Some? ==> b.value <= |Halts(d, steps)| && (Holds(Execute(d, steps), sid) || NamedSince(Halts(d, steps), b.value, sid))
    ensures var now := Execute(d, steps);
            !Holds(now, sid) ==> Renew(now, sid, t) == (now, false) && Release(now, sid) == (now, false)
  {
    hide Believes, Holds, Halts, Execute, NamedSince;
    BeliefHolds(d, steps, sid);
    var now := Execute(d, steps);
    if !Holds(now, sid) { LoserIsTold(now, sid, t); }
  }

  /** The lock passes from one session to another only by a step that has written the halt naming both;
      a takeover that crashed has left the lock as it was. */
  lemma HaltComesFirst(d: Disk, s: Step)
    requires d.held.Some? && Next(d, s).held.Some? && Next(d, s).held.value.sessionId != d.held.value.sessionId
    ensures Takes(d, s) && !s.crashes
    ensures Next(d, s).halt == Some(Halt(Seconds(s.at), d.held.value, Next(d, s).held.value))
  {
  }

  /** Over whole runs: whoever took the lock from another session had named it in a halt. */
  lemma {:induction false} TakersWereAnnounced(d: Disk, steps: seq<Step>, i: nat)
    requires i < |steps|
    requires var before, after := Execute(d, steps[..i]), Execute(d, steps[..i + 1]);
             before.held.Some? && after.held.Some? && before.held.value.sessionId != after.held.value.sessionId
    ensures var before, after := Execute(d, steps[..i]), Execute(d, steps[..i + 1]);
            exists h :: h in Halts(d, steps) && h.takenFrom == before.held.value && h.takenBy == after.held.value
    decreases |steps|
  {
    var front := steps[..|steps| - 1];
    if i == |steps| - 1 {
      assert steps[..i + 1] == steps;
      HaltComesFirst(Execute(d, front), steps[i]);
      var h := Execute(d, steps).halt.value;
      assert h in Halts(d, steps);
    } else {
      assert front[..i] == steps[..i] && front[..i + 1] == steps[..i + 1];
      TakersWereAnnounced(d, front, i);
    }
  }
}
