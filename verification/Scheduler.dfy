/** Per-source pacing: which sources a tick reads, and when the next one is due. */
module Schedulers {
  import opened Machine

  /** A source kind is its position in the list of all sources. */
  const SOURCES: nat := 22
  type Kind = n: nat | n < SOURCES

  const ACTIVITY: Kind := 0
  const STATEMENTS: Kind := 8
  const USER_TABLES: Kind := 9
  const USER_INDEXES: Kind := 10
  const REPLICATION: Kind := 11
  const RESET_METADATA: Kind := 12
  const INSTANCE_METADATA: Kind := 13
  const SETTINGS: Kind := 14
  const OS_MOUNT_TOPO: Kind := 16

  lemma KindsAreDistinct()
    ensures var kinds := [ACTIVITY, STATEMENTS, USER_TABLES, USER_INDEXES, REPLICATION,
                          RESET_METADATA, INSTANCE_METADATA, SETTINGS, OS_MOUNT_TOPO];
      forall i, j :: 0 <= i < j < |kinds| ==> kinds[i] < kinds[j]
  {
  }

  predicate OpensSegment(kind: Kind) {
    kind == RESET_METADATA || kind == INSTANCE_METADATA || kind == SETTINGS || kind == OS_MOUNT_TOPO
  }

  datatype DueSet = DueSet(kinds: seq<Kind>, forced: bool) {
    predicate Has(kind: Kind) {
      kind in kinds
    }
  }

  /** `saturating_duration_since`. */
  function Since(now: nat, earlier: nat): nat {
    Max(now - earlier, 0)
  }

  predicate Elapsed(last: Option<nat>, secs: nat, now: nat) {
    last.None? || Since(now, last.value) >= secs * SECOND
  }

  /** What is left of a positive interval; nothing for a source that was never
      read, was put back, or is read on every tick. */
  function Remaining(last: Option<nat>, secs: nat, now: nat): Option<nat> {
    if last.None? || secs == 0 then None else Some(Max(secs * SECOND - Since(now, last.value), 0))
  }

  /** A source is due exactly from the instant at which nothing remains. */
  lemma RemainingDecides(last: Option<nat>, secs: nat, now: nat, later: nat)
    requires last.Some? && secs > 0 && last.value <= now <= later
    ensures Elapsed(last, secs, later) <==> later >= now + Remaining(last, secs, now).value
    ensures Elapsed(last, secs, later) <==> later >= last.value + secs * SECOND
  {
  }

  class Scheduler {
    const intervals: seq<u64>
    const overrides: array<Option<u64>>
    const lastRead: array<Option<nat>>

    ghost predicate Valid()
      reads this
    {
      |intervals| == SOURCES && overrides.Length == SOURCES && lastRead.Length == SOURCES && overrides != lastRead
    }

    /** No recorded read is in the future. */
    ghost predicate ReadBy(now: nat)
      requires Valid()
      reads this, lastRead
    {
      forall k: Kind :: lastRead[k].Some? ==> lastRead[k].value <= now
    }

    function Secs(kind: Kind): u64
      requires Valid()
      reads this, overrides
    {
      overrides[kind].UnwrapOr(intervals[kind])
    }

    predicate IsDue(kind: Kind, now: nat)
      requires Valid()
      reads this, overrides, lastRead
    {
      Elapsed(lastRead[kind], Secs(kind), now)
    }

    /** Indexes give way to tables that are due with them, except when they were
        put back or never read, or are read on every tick. */
    predicate Yields(now: nat)
      requires Valid()
      reads this, overrides, lastRead
    {
      lastRead[USER_INDEXES].Some? && intervals[USER_INDEXES] > 0 && IsDue(USER_TABLES, now) && IsDue(USER_INDEXES, now)
    }

    predicate IsPlanned(kind: Kind, now: nat, force: bool)
      requires Valid()
      reads this, overrides, lastRead
    {
      force || (IsDue(kind, now) && !(kind == USER_INDEXES && Yields(now)))
    }

    constructor (intervals: seq<u64>)
      requires |intervals| == SOURCES
      ensures Valid() && this.intervals == intervals && fresh(overrides) && fresh(lastRead)
      ensures forall k: Kind :: overrides[k] == None && lastRead[k] == None
    {
      this.intervals := intervals;
      overrides := new Option<u64>[SOURCES](_ => None);
      lastRead := new Option<nat>[SOURCES](_ => None);
    }

    method Accelerate(kind: Kind, secs: u64) returns (changed: bool)
      requires Valid()
      modifies overrides
      ensures forall k: Kind :: k != kind ==> overrides[k] == old(overrides[k])
      ensures changed <==> secs < intervals[kind] && old(overrides[kind]) != Some(secs)
      ensures overrides[kind] == if secs < intervals[kind] then Some(secs) else old(overrides[kind])
    {
      if secs >= intervals[kind] || overrides[kind] == Some(secs) {
        return false;
      }
      overrides[kind] := Some(secs);
      changed := true;
    }

    method Relax(kind: Kind) returns (changed: bool)
      requires Valid()
      modifies overrides
      ensures forall k: Kind :: k != kind ==> overrides[k] == old(overrides[k])
      ensures changed <==> old(overrides[kind]).Some?
      ensures overrides[kind] == None && Secs(kind) == intervals[kind]
    {
      changed := overrides[kind].Some?;
      overrides[kind] := None;
    }

    /** After a seal the sources that make a segment self-contained come due. */
    method MarkSegmentOpened()
      requires Valid()
      modifies lastRead
      ensures forall k: Kind :: lastRead[k] == if OpensSegment(k) then None else old(lastRead[k])
    {
      for slot := 0 to SOURCES
        invariant forall k: Kind :: lastRead[k] == if k < slot && OpensSegment(k) then None else old(lastRead[k])
      {
        if OpensSegment(slot) {
          lastRead[slot] := None;
        }
      }
    }

    method Defer(kind: Kind)
      requires Valid()
      modifies lastRead
      ensures lastRead[kind] == None
      ensures forall k: Kind :: k != kind ==> lastRead[k] == old(lastRead[k])
    {
      lastRead[kind] := None;
    }

    /** The due set of a tick; the sources in it are marked as read. */
    method Plan(now: nat, force: bool) returns (due: DueSet)
      requires Valid()
      modifies lastRead
      ensures due.forced == force
      ensures forall k: Kind :: due.Has(k) <==> old(IsPlanned(k, now, force))
      ensures forall k: Kind :: lastRead[k] == (if old(IsPlanned(k, now, force)) then Some(now)
                                                else if k == USER_INDEXES && old(Yields(now)) then None
                                                else old(lastRead[k]))
    {
      if force {
        forall k | 0 <= k < SOURCES {
          lastRead[k] := Some(now);
        }
        var all := seq(SOURCES, k requires 0 <= k < SOURCES => k as Kind);
        forall k: Kind
          ensures k in all
        {
          assert all[k] == k;
        }
        return DueSet(all, true);
      }
      var indexesReadBefore := lastRead[USER_INDEXES].Some?;
      var kinds: seq<Kind> := [];
      for slot := 0 to SOURCES
        invariant forall k: Kind :: k in kinds <==> k < slot && old(IsDue(k, now))
        invariant forall k: Kind ::
          lastRead[k] == if k < slot && old(IsDue(k, now)) then Some(now) else old(lastRead[k])
      {
        if Elapsed(lastRead[slot], Secs(slot), now) {
          lastRead[slot] := Some(now);
          kinds := kinds + [slot];
        }
      }
      if indexesReadBefore && intervals[USER_INDEXES] > 0 && USER_TABLES in kinds && USER_INDEXES in kinds {
        kinds := Without(kinds, USER_INDEXES);
        Defer(USER_INDEXES);
      }
      due := DueSet(kinds, false);
    }

    /** The time until the next positive interval elapses. */
    method NextElapsedDueIn(now: nat) returns (r: Option<nat>)
      requires Valid()
      ensures r.None? ==> forall k: Kind :: Remaining(lastRead[k], Secs(k), now).None?
      ensures r.Some? ==> Announced(this, now, r.value)
    {
      r := None;
      for slot := 0 to SOURCES
        invariant r.None? ==> forall k: Kind :: k < slot ==> Remaining(lastRead[k], Secs(k), now).None?
        invariant r.Some? ==> exists k: Kind :: k < slot && Remaining(lastRead[k], Secs(k), now) == r
        invariant r.Some? ==> forall k: Kind :: k < slot && Remaining(lastRead[k], Secs(k), now).Some? ==>
          r.value <= Remaining(lastRead[k], Secs(k), now).value
      {
        var left := Remaining(lastRead[slot], Secs(slot), now);
        if left.Some? && (r.None? || left.value < r.value) {
          r := left;
        }
      }
    }
  }

  /** `retain`. */
  function Without(kinds: seq<Kind>, kind: Kind): (left: seq<Kind>)
    ensures forall k :: k in left <==> k in kinds && k != kind
  {
    if kinds == [] then []
    else
      var n := |kinds| - 1;
      Without(kinds[..n], kind) + if kinds[n] == kind then [] else [kinds[n]]
  }

  /** `NextElapsedDueIn` answered `wait` at `now`. */
  ghost predicate Announced(s: Scheduler, now: nat, wait: nat)
    requires s.Valid()
    reads s, s.overrides, s.lastRead
  {
    && (exists k: Kind :: Remaining(s.lastRead[k], s.Secs(k), now) == Some(wait))
    && (forall k: Kind :: Remaining(s.lastRead[k], s.Secs(k), now).Some? ==>
          wait <= Remaining(s.lastRead[k], s.Secs(k), now).value)
  }

  /** Before the announced instant no source that was read and has a positive
      interval is due. */
  lemma NothingDueBefore(s: Scheduler, now: nat, wait: nat, kind: Kind, at: nat)
    requires s.Valid() && s.ReadBy(now) && Announced(s, now, wait)
    requires s.lastRead[kind].Some? && s.Secs(kind) > 0 && now <= at < now + wait
    ensures !s.IsDue(kind, at)
  {
    RemainingDecides(s.lastRead[kind], s.Secs(kind), now, at);
  }

  /** At the announced instant the plan is not empty, even when indexes give way. */
  lemma PlanAtWakeIsNotEmpty(s: Scheduler, now: nat, wait: nat, wake: nat)
    requires s.Valid() && s.ReadBy(now) && Announced(s, now, wait) && wake == now + wait
    ensures exists k: Kind :: s.IsPlanned(k, wake, false)
  {
    var nearest: Kind :| Remaining(s.lastRead[nearest], s.Secs(nearest), now) == Some(wait);
    RemainingDecides(s.lastRead[nearest], s.Secs(nearest), now, wake);
    assert s.IsPlanned(nearest, wake, false) || s.IsPlanned(USER_TABLES, wake, false);
  }

  /** Without an announced instant every source is put back, unread, or read on
      every tick, so that a plan at any time contains everything but perhaps the
      indexes. */
  lemma NoSleepMeansAllDue(s: Scheduler, now: nat, at: nat, kind: Kind)
    requires s.Valid() && forall k: Kind :: Remaining(s.lastRead[k], s.Secs(k), now).None?
    ensures s.IsDue(kind, at) && (kind != USER_INDEXES ==> s.IsPlanned(kind, at, false))
  {
    assert Remaining(s.lastRead[kind], s.Secs(kind), now).None?;
  }
}
