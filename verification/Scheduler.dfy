/** Schedulers sharing one lease row and one table of cycle keys (scheduler.py and the lease and run
    rows of persistence/repository.py), interleaved at atomic steps. */
module Scheduler {
  import opened Common
  import opened Clock
  import opened Cycle

  type Owner = string

  datatype Lease = Lease(owner: Owner, acquiredAt: int, expiresAt: int)

  /** Every minute in the final window or while flattening is not confirmed, else every five. */
  function IntervalSeconds(now: int, confirmedFlat: bool): int {
    var recovery := now >= FORCED_FLATTEN_STARTS_AT && !confirmedFlat;
    if FINAL_HOUR_RECOVERY_STARTS_AT <= now <= EOD_EQUITY_SNAPSHOT_AT || recovery then 60 else 300
  }

  function LeaseTtlSeconds(now: int, confirmedFlat: bool): (ttl: int)
    ensures ttl > IntervalSeconds(now, confirmedFlat) + 29
  {
    if IntervalSeconds(now, confirmedFlat) == 60 then 90 else 360
  }

  predicate Free(row: Option<Lease>, owner: Owner, now: int) {
    row.None? || row.value.owner == owner || row.value.expiresAt <= now
  }

  function Acquired(row: Option<Lease>, owner: Owner, now: int, ttl: int): Option<Lease> {
    if Free(row, owner, now) then Some(Lease(owner, now, now + ttl)) else row
  }

  class LeaseTable {
    var leases: map<string, Lease>

    function Row(name: string): Option<Lease>
      reads this
    {
      if name in leases then Some(leases[name]) else None
    }

    method AcquireSchedulerLease(name: string, owner: Owner, now: int, ttl: int) returns (granted: bool)
      modifies this
      ensures granted == Free(old(Row(name)), owner, now)
      ensures Row(name) == Acquired(old(Row(name)), owner, now, ttl)
      ensures forall other :: other != name ==> Row(other) == old(Row(other))
    {
      if name in leases && leases[name].owner != owner && leases[name].expiresAt > now {
        return false;
      }
      if name !in leases {
        leases := leases[name := Lease(owner, now, now + ttl)];
      } else {
        leases := leases[name := leases[name].(owner := owner, acquiredAt := now, expiresAt := now + ttl)];
      }
      return true;
    }
  }

  // ---------------------------------------------------------------------- interleaving

  /** Where one scheduler is in its loop. */
  datatype Phase = Idle | Leased(now: int) | Running(key: int)

  datatype Entry = Entry(owner: Owner, key: int)

  datatype System = System(
    row: Option<Lease>, phases: map<Owner, Phase>, keys: set<int>, grants: seq<Lease>, entries: seq<Entry>)
  {
    function PhaseOf(owner: Owner): Phase { if owner in phases then phases[owner] else Idle }

    function Go(owner: Owner, p: Phase): System { this.(phases := phases[owner := p]) }
  }

  /** The atomic steps: try the lease, begin a run, submit its entry, finish it. */
  datatype Move =
    | TryLease(owner: Owner, now: int, confirmedFlat: bool)
    | Begin(owner: Owner)
    | Submit(owner: Owner)
    | Finish(owner: Owner)

  function Next(s: System, m: Move): System {
    var p := s.PhaseOf(m.owner);
    match m
    case TryLease(owner, now, confirmedFlat) =>
      if !p.Idle? || !Free(s.row, owner, now) then s
      else
        var row := Acquired(s.row, owner, now, LeaseTtlSeconds(now, confirmedFlat));
        s.(row := row, grants := s.grants + [row.value]).Go(owner, Leased(now))
    case Begin(owner) =>
      if !p.Leased? then s
      else
        var key := CycleKey(p.now);
        if key in s.keys then s.Go(owner, Idle) else s.(keys := s.keys + {key}).Go(owner, Running(key))
    case Submit(owner) =>
      if !p.Running? then s else s.(entries := s.entries + [Entry(owner, p.key)]).Go(owner, Idle)
    case Finish(owner) => if p.Running? then s.Go(owner, Idle) else s
  }

  function Steps(s: System, moves: seq<Move>): System {
    if moves == [] then s else Next(Steps(s, moves[..|moves| - 1]), moves[|moves| - 1])
  }

  const START := System(None, map[], {}, [], [])

  /** The lease row is the last grant, and the lease has changed hands only after expiry. */
  ghost predicate LeaseInv(s: System) {
    && (if s.grants == [] then s.row.None? else s.row == Some(s.grants[|s.grants| - 1]))
    && (forall k :: 0 < k < |s.grants| && s.grants[k].owner != s.grants[k - 1].owner ==>
          s.grants[k].acquiredAt >= s.grants[k - 1].expiresAt)
  }

  /** Running and submitted keys are begun keys, and no key is running or submitted twice. */
  ghost predicate KeyInv(s: System) {
    && (forall o :: o in s.phases && s.phases[o].Running? ==> s.phases[o].key in s.keys)
    && (forall k :: 0 <= k < |s.entries| ==> s.entries[k].key in s.keys)
    && (forall a, b :: a in s.phases && b in s.phases && s.phases[a].Running? && s.phases[a] == s.phases[b] ==> a == b)
    && (forall o, k :: o in s.phases && s.phases[o].Running? && 0 <= k < |s.entries|
          ==> s.phases[o].key != s.entries[k].key)
    && (forall j, k :: 0 <= j < k < |s.entries| ==> s.entries[j].key != s.entries[k].key)
  }

  lemma StepKeepsLease(s: System, m: Move)
    requires LeaseInv(s)
    ensures LeaseInv(Next(s, m))
  {
  }

  lemma StepKeepsKeys(s: System, m: Move)
    requires KeyInv(s)
    ensures KeyInv(Next(s, m))
  {
    hide Free, LeaseTtlSeconds, CycleKey;
  }

  lemma {:induction false} StepsKeep(moves: seq<Move>)
    ensures LeaseInv(Steps(START, moves)) && KeyInv(Steps(START, moves))
  {
    hide Next;
    if moves != [] {
      StepsKeep(moves[..|moves| - 1]);
      StepKeepsLease(Steps(START, moves[..|moves| - 1]), moves[|moves| - 1]);
      StepKeepsKeys(Steps(START, moves[..|moves| - 1]), moves[|moves| - 1]);
    }
  }

  /** However any number of schedulers interleave, the lease passes to a different owner only once the
      last holder's has expired. */
  lemma LeasePassesAfterExpiry(moves: seq<Move>, k: nat)
    requires 0 < k < |Steps(START, moves).grants|
    ensures var g := Steps(START, moves).grants;
      g[k].owner != g[k - 1].owner ==> g[k].acquiredAt >= g[k - 1].expiresAt
  {
    StepsKeep(moves);
  }

  /** And each cycle key leads to at most one entry submission, even when a cycle outlives its lease and
      another scheduler's cycle overlaps it. */
  lemma OneEntryPerBucket(moves: seq<Move>, j: nat, k: nat)
    requires j < k < |Steps(START, moves).entries|
    ensures Steps(START, moves).entries[j].key != Steps(START, moves).entries[k].key
  {
    StepsKeep(moves);
  }

  // ------------------------------------------------------------------ mutual exclusion

  /** Past the lease and not yet back at the top of its loop. */
  predicate Inside(s: System, owner: Owner) { !s.PhaseOf(owner).Idle? }

  ghost predicate Exclusive(s: System) {
    forall a, b :: a in s.phases && b in s.phases && Inside(s, a) && Inside(s, b) ==> a == b
  }

  /** A scheduler takes over a lease that has expired while its holder is still inside. */
  predicate Overtakes(s: System, m: Move) {
    && m.TryLease? && !Inside(s, m.owner)
    && s.row.Some? && s.row.value.owner != m.owner && s.row.value.expiresAt <= m.now
    && Inside(s, s.row.value.owner)
  }

  /** While schedulers exclude each other, whoever is inside holds the lease row. */
  ghost predicate InsiderHolds(s: System) {
    forall o :: o in s.phases && Inside(s, o) ==> s.row.Some? && s.row.value.owner == o
  }

  /** A step ends the exclusion exactly when it overtakes. */
  lemma StepExcludesIff(s: System, m: Move)
    requires Exclusive(s) && InsiderHolds(s)
    ensures Exclusive(Next(s, m)) <==> !Overtakes(s, m)
    ensures Exclusive(Next(s, m)) ==> InsiderHolds(Next(s, m))
  {
    var t := Next(s, m);
    if Overtakes(s, m) {
      assert Inside(t, m.owner) && Inside(t, s.row.value.owner);
    }
  }

  /** No prefix of the moves is followed by one that overtakes. */
  ghost predicate NobodyOvertakes(moves: seq<Move>) {
    forall n :: 0 <= n < |moves| ==> !Overtakes(Steps(START, moves[..n]), moves[n])
  }

  ghost predicate AlwaysExclusive(moves: seq<Move>) {
    forall n :: 0 <= n <= |moves| ==> Exclusive(Steps(START, moves[..n]))
  }

  lemma {:induction false} ExclusiveUpTo(moves: seq<Move>, n: nat)
    requires n <= |moves| && (NobodyOvertakes(moves) || AlwaysExclusive(moves))
    ensures Exclusive(Steps(START, moves[..n])) && InsiderHolds(Steps(START, moves[..n]))
  {
    hide Next, Overtakes;
    if n > 0 {
      ExclusiveUpTo(moves, n - 1);
      assert moves[..n][..n - 1] == moves[..n - 1];
      StepExcludesIff(Steps(START, moves[..n - 1]), moves[n - 1]);
    } else {
      NobodyInsideAtStart();
    }
  }

  lemma NobodyInsideAtStart()
    ensures Exclusive(START) && InsiderHolds(START)
  {
  }

  /** Exactly when cycles never overlap: no lease is ever taken over at or after its expiry while its holder
      is still inside. In particular they never do when every cycle ends before its lease expires. */
  lemma CyclesExcludeIff(moves: seq<Move>)
    ensures AlwaysExclusive(moves) <==> NobodyOvertakes(moves)
  {
    hide Next, Overtakes, Exclusive;
    if NobodyOvertakes(moves) {
      forall n | 0 <= n <= |moves| ensures Exclusive(Steps(START, moves[..n])) {
        ExclusiveUpTo(moves, n);
      }
    }
    if AlwaysExclusive(moves) {
      forall n | 0 <= n < |moves| ensures !Overtakes(Steps(START, moves[..n]), moves[n]) {
        ExclusiveUpTo(moves, n);
        StepExcludesIff(Steps(START, moves[..n]), moves[n]);
        assert moves[..n + 1][..n] == moves[..n];
        assert Exclusive(Steps(START, moves[..n + 1]));
      }
    }
  }

  /** The lease of `owner` was taken over at or after its expiry, while `owner` was inside. */
  ghost predicate Overtaken(moves: seq<Move>, owner: Owner) {
    exists n :: 0 <= n < |moves| && OvertakenAt(moves, n, owner)
  }

  predicate OvertakenAt(moves: seq<Move>, n: nat, owner: Owner)
    requires n < |moves|
  {
    var s := Steps(START, moves[..n]);
    Overtakes(s, moves[n]) && s.row.value.owner == owner
  }

  lemma StepOvertakes(s: System, m: Move, owner: Owner)
    requires Inside(Next(s, m), owner)
    ensures || (Next(s, m).row.Some? && Next(s, m).row.value.owner == owner)
            || (Overtakes(s, m) && s.row.value.owner == owner)
            || (Inside(s, owner) && (s.row.None? || s.row.value.owner != owner))
  {
  }

  lemma {:induction false} InsiderHoldsOrOvertaken(moves: seq<Move>, owner: Owner)
    requires Inside(Steps(START, moves), owner)
    ensures var row := Steps(START, moves).row; (row.Some? && row.value.owner == owner) || Overtaken(moves, owner)
  {
    hide Next, Overtakes;
    if moves != [] {
      var n := |moves| - 1;
      StepOvertakes(Steps(START, moves[..n]), moves[n], owner);
      if OvertakenAt(moves, n, owner) {
        assert Overtaken(moves, owner);
      } else if Inside(Steps(START, moves[..n]), owner) {
        InsiderHoldsOrOvertaken(moves[..n], owner);
        if Overtaken(moves[..n], owner) {
          var k :| 0 <= k < n && OvertakenAt(moves[..n], k, owner);
          assert moves[..n][..k] == moves[..k];
          assert OvertakenAt(moves, k, owner);
        }
      }
    }
  }

  /** Two schedulers are both inside only if a lease was granted at or after the expiry of one of theirs
      while that one was still inside. */
  lemma OverlapHasOvertaking(moves: seq<Move>, a: Owner, b: Owner)
    requires a != b && Inside(Steps(START, moves), a) && Inside(Steps(START, moves), b)
    ensures Overtaken(moves, a) || Overtaken(moves, b)
  {
    hide Next, Overtakes;
    InsiderHoldsOrOvertaken(moves, a);
    InsiderHoldsOrOvertaken(moves, b);
  }

  /** Every scheduler still inside finds its own lease unexpired whenever anyone tries. */
  ghost predicate EndsInTime(moves: seq<Move>) {
    forall n :: 0 <= n < |moves| && moves[n].TryLease? ==> var s := Steps(START, moves[..n]);
      s.row.Some? && Inside(s, s.row.value.owner) ==> moves[n].now < s.row.value.expiresAt
  }

  /** Cycles that end before their lease expires happen one after another, which is how runs of cycles are
      taken everywhere else. */
  lemma TimelyCyclesExclude(moves: seq<Move>)
    requires EndsInTime(moves)
    ensures AlwaysExclusive(moves)
  {
    forall n | 0 <= n < |moves| ensures !Overtakes(Steps(START, moves[..n]), moves[n]) {
    }
    CyclesExcludeIff(moves);
  }

  /** The condition is needed: two schedulers both inside a cycle, on different keys, after an overtaking. */
  lemma CyclesCanOverlap()
    ensures exists moves: seq<Move> ::
      var s := Steps(START, moves); s.PhaseOf("a").Running? && s.PhaseOf("b").Running?
  {
    var a, b := TryLease("a", SCORING_STARTS_AT, false), TryLease("b", SCORING_STARTS_AT + 600, false);
    var one, two, three, moves := [a], [a, Begin("a")], [a, Begin("a"), b], [a, Begin("a"), b, Begin("b")];
    assert one[..0] == [] && two[..1] == one && three[..2] == two && moves[..3] == three;
    assert Steps(START, one) == Next(START, a);
    assert Steps(START, two).PhaseOf("a").Running? && Steps(START, three).PhaseOf("b").Leased?;
    assert CycleKey(SCORING_STARTS_AT) != CycleKey(SCORING_STARTS_AT + 600);
    assert Steps(START, moves).PhaseOf("a").Running? && Steps(START, moves).PhaseOf("b").Running?;
  }

  /** Before its expiry nobody else gets the lease; a holder that comes back after its own interval still
      has it. */
  lemma HolderKeepsLease(s: System, owner: Owner, other: Owner, now: int, confirmedFlat: bool, at: int, otherFlat: bool)
    requires s.PhaseOf(owner).Idle? && Free(s.row, owner, now) && other != owner
    requires at <= now + IntervalSeconds(now, confirmedFlat) + 29
    ensures var held := Next(s, TryLease(owner, now, confirmedFlat));
      Next(held, TryLease(other, at, otherFlat)) == held && Free(held.row, owner, at)
  {
  }

  // --------------------------------------------------------------------------- buckets

  /** A key names the bucket its time lies in: at most five minutes, one from the final hour on. */
  lemma KeyIsBucketStart(now: int)
    ensures CycleKey(now) <= now < CycleKey(now) + (if FINAL_HOUR_RECOVERY_STARTS_AT <= now then MINUTE else 5 * MINUTE)
  {
  }

  lemma BucketsMonotone(a: int, b: int)
    requires a <= b
    ensures a - a % MINUTE <= b - b % MINUTE && a - a % (5 * MINUTE) <= b - b % (5 * MINUTE)
  {
  }

  /** Keys follow time, so one key never names two separate buckets, also across the switch of width. */
  lemma KeysFollowTime(a: int, b: int, c: int)
    requires a <= b <= c
    ensures CycleKey(a) <= CycleKey(c)
    ensures CycleKey(a) == CycleKey(c) ==> CycleKey(b) == CycleKey(a)
  {
    KeyMonotone(a, b);
    KeyMonotone(b, c);
  }

  lemma KeyMonotone(a: int, b: int)
    requires a <= b
    ensures CycleKey(a) <= CycleKey(b)
  {
    BucketsMonotone(a, b);
    if FINAL_HOUR_RECOVERY_STARTS_AT <= b {
      BucketsMonotone(FINAL_HOUR_RECOVERY_STARTS_AT, b);
    }
  }
}
